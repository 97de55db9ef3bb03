/** Code lengths counted level by level: what the array bl_count says about a set of lengths. */
module Levels {
  import opened Arith
  import opened Bits
  import opened Sums
  import opened Huffman
  import opened TreeShape
  import opened Canonical

  ghost function CountOf(S: set<nat>, c: nat -> nat, b: nat): int { Sum(S, AtLength(c, b)) }

  /** bl_count agrees with the lengths `c` of the nodes in `S`. */
  ghost predicate Counted(bl: seq<nat>, S: set<nat>, c: nat -> nat, max: nat) {
    |bl| > max && forall b :: 0 <= b <= max ==> bl[b] == CountOf(S, c, b)
  }

  /** Number of codes shorter than `k`. */
  function LevelTotal(bl: seq<nat>, k: nat): nat
    requires k <= |bl|
  {
    if k == 0 then 0 else LevelTotal(bl, k - 1) + bl[k - 1]
  }

  /** Kraft sum of the codes shorter than `k`, in units of 2^-max. */
  function LevelKraft(bl: seq<nat>, k: nat, max: nat): nat
    requires k <= |bl| && k <= max + 1
  {
    if k == 0 then 0 else LevelKraft(bl, k - 1, max) + bl[k - 1] * Pow2(max - (k - 1))
  }

  // ---------------------------------------------------------------- levels and sets

  lemma CountRemove(S: set<nat>, c: nat -> nat, b: nat, x: nat)
    requires x in S
    ensures CountOf(S, c, b) == CountOf(S - {x}, c, b) + (if c(x) == b then 1 else 0)
  {
    SumRemove(S, AtLength(c, b), x);
  }

  ghost function LevelsOf(S: set<nat>, c: nat -> nat, n: nat): (bl: seq<nat>)
    ensures |bl| == n && forall b :: 0 <= b < n ==> bl[b] == CountOf(S, c, b)
  {
    CountsPositive(S, c);
    seq(n, b requires 0 <= b < n => CountOf(S, c, b) as nat)
  }

  lemma CountsPositive(S: set<nat>, c: nat -> nat)
    ensures forall b: nat :: CountOf(S, c, b) >= 0
  {
    forall b: nat ensures CountOf(S, c, b) >= 0 {
      AtLengthPositive(S, c, b);
    }
  }

  /** One more code of length `l` in the levels. */
  ghost predicate OneMore(more: seq<nat>, fewer: seq<nat>, l: nat) {
    |more| == |fewer| && forall b :: 0 <= b < |more| ==> more[b] == fewer[b] + (if b == l then 1 else 0)
  }

  lemma {:induction false} LevelsOneMore(more: seq<nat>, fewer: seq<nat>, l: nat, k: nat, max: nat)
    requires OneMore(more, fewer, l) && k <= |more| && k <= max + 1
    ensures LevelTotal(more, k) == LevelTotal(fewer, k) + (if l < k then 1 else 0)
    ensures LevelKraft(more, k, max) == LevelKraft(fewer, k, max) + (if l < k then Pow2(max - l) else 0)
  {
    if k > 0 {
      LevelsOneMore(more, fewer, l, k - 1, max);
      Distribute(fewer[k - 1], 1, Pow2(max - (k - 1)));
    }
  }

  lemma {:induction false} LevelsZero(bl: seq<nat>, k: nat, max: nat)
    requires k <= |bl| && k <= max + 1 && forall b :: 0 <= b < k ==> bl[b] == 0
    ensures LevelTotal(bl, k) == 0 && LevelKraft(bl, k, max) == 0
  {
    if k > 0 { LevelsZero(bl, k - 1, max); }
  }

  lemma {:induction false} LevelsAre(S: set<nat>, c: nat -> nat, max: nat)
    requires AtMost(S, c, max)
    ensures LevelTotal(LevelsOf(S, c, max + 1), max + 1) == |S|
    ensures LevelKraft(LevelsOf(S, c, max + 1), max + 1, max) == KraftOf(S, c, max)
    decreases S
  {
    hide Sum, KraftTerm, AtLength, LevelKraft, LevelTotal, LevelsOf;
    var bl := LevelsOf(S, c, max + 1);
    if S == {} {
      forall b | 0 <= b <= max ensures bl[b] == 0 { SumZero(S, AtLength(c, b)); }
      LevelsZero(bl, max + 1, max);
      SumZero(S, KraftTerm(c, max));
    } else {
      var x :| x in S;
      var fewer := LevelsOf(S - {x}, c, max + 1);
      LevelsAre(S - {x}, c, max);
      SumRemove(S, KraftTerm(c, max), x);
      KraftTermIs(c, max, x);
      forall b | 0 <= b <= max ensures bl[b] == fewer[b] + (if b == c(x) then 1 else 0) {
        CountRemove(S, c, b, x);
      }
      LevelsOneMore(bl, fewer, c(x), max + 1, max);
    }
  }

  lemma KraftTermIs(c: nat -> nat, max: nat, x: nat)
    requires c(x) <= max
    ensures KraftTerm(c, max)(x) == Pow2(max - c(x))
  {
  }

  lemma {:induction false} LevelsAgree(a: seq<nat>, b: seq<nat>, k: nat, max: nat)
    requires k <= |a| && k <= |b| && k <= max + 1 && a[..k] == b[..k]
    ensures LevelTotal(a, k) == LevelTotal(b, k) && LevelKraft(a, k, max) == LevelKraft(b, k, max)
  {
    if k > 0 {
      assert a[..k - 1] == a[..k][..k - 1] && b[..k - 1] == b[..k][..k - 1];
      assert a[k - 1] == a[..k][k - 1] && b[k - 1] == b[..k][k - 1];
      LevelsAgree(a, b, k - 1, max);
    }
  }

  lemma CountedLevels(bl: seq<nat>, S: set<nat>, c: nat -> nat, max: nat)
    requires Counted(bl, S, c, max) && AtMost(S, c, max)
    ensures LevelTotal(bl, max + 1) == |S|
    ensures LevelKraft(bl, max + 1, max) == KraftOf(S, c, max)
  {
    hide LevelTotal, LevelKraft, KraftOf, CountOf;
    LevelsAre(S, c, max);
    assert bl[..max + 1] == LevelsOf(S, c, max + 1)[..max + 1];
    LevelsAgree(bl, LevelsOf(S, c, max + 1), max + 1, max);
  }

  // ---------------------------------------------------------------- moving a leaf down

  /** bl[i] changed by `d`. */
  lemma {:induction false} LevelChange(a: seq<nat>, b: seq<nat>, i: nat, d: int, k: nat, max: nat)
    requires |a| == |b| && k <= |a| && k <= max + 1 && i < |a|
    requires b[i] == a[i] + d && forall j :: 0 <= j < |a| && j != i ==> a[j] == b[j]
    ensures LevelTotal(b, k) == LevelTotal(a, k) + (if i < k then d else 0)
    ensures i <= max ==> LevelKraft(b, k, max) == LevelKraft(a, k, max) + (if i < k then d * Pow2(max - i) else 0)
    ensures i > max ==> LevelKraft(b, k, max) == LevelKraft(a, k, max)
  {
    if k > 0 {
      LevelChange(a, b, i, d, k - 1, max);
      if i == k - 1 { Distribute(a[i], d, Pow2(max - i)); }
    }
  }

  /** One round of the repair: a leaf at level `b` moves down one level and takes an overflowing
      leaf as its brother. */
  lemma RepairRound(bl: seq<nat>, b: nat, max: nat)
    requires max < |bl| && 1 <= b < max && bl[b] >= 1
    requires b + 1 < max ==> bl[max] >= 1
    ensures var b1 := bl[b := bl[b] - 1];
            var b2 := b1[b + 1 := b1[b + 1] + 2];
            && b2[max] >= 1
            && LevelTotal(b2[max := b2[max] - 1], max + 1) == LevelTotal(bl, max + 1)
            && LevelKraft(b2[max := b2[max] - 1], max + 1, max) == LevelKraft(bl, max + 1, max) - 1
  {
    hide LevelTotal, LevelKraft;
    var b1 := bl[b := bl[b] - 1];
    var b2 := b1[b + 1 := b1[b + 1] + 2];
    var b3 := b2[max := b2[max] - 1];
    LevelChange(bl, b1, b, -1, max + 1, max);
    LevelChange(b1, b2, b + 1, 2, max + 1, max);
    LevelChange(b2, b3, max, -1, max + 1, max);
    assert Pow2(max - b) == 2 * Pow2(max - (b + 1));
    assert Pow2(max - max) == 1;
  }

  lemma {:induction false} OnlyTop(bl: seq<nat>, k: nat, max: nat)
    requires k <= max < |bl| && forall j :: 0 <= j < k ==> bl[j] == 0
    ensures LevelTotal(bl, k) == 0 && LevelKraft(bl, k, max) == 0
  {
    LevelsZero(bl, k, max);
  }

  /** An overfull Kraft sum leaves a code above the last level to move down. */
  lemma SearchSucceeds(bl: seq<nat>, max: nat)
    requires 1 <= max < |bl| && bl[0] == 0
    requires LevelKraft(bl, max + 1, max) > Pow2(max) >= LevelTotal(bl, max + 1)
    ensures exists b :: 1 <= b < max && bl[b] > 0
  {
    if forall b :: 1 <= b < max ==> bl[b] == 0 {
      OnlyTop(bl, max, max);
    }
  }

  // ---------------------------------------------------------------- levels and code lengths

  function Of(s: seq<nat>): nat -> nat { (x: nat) => if x < |s| then s[x] else 0 }

  lemma {:induction false} CountLenIs(lens: seq<nat>, k: nat, b: nat)
    requires k <= |lens|
    ensures CountLen(lens, k, b) == SumTo(k, AtLength(Of(lens), b))
  {
    if k > 0 { CountLenIs(lens, k - 1, b); }
  }

  ghost function UsedUnit(lens: seq<nat>, max: nat): nat -> int {
    (x: nat) => if x < |lens| && 0 < lens[x] <= max then Pow2(max - lens[x]) else 0
  }

  lemma {:induction false} KraftIs(lens: seq<nat>, k: nat, max: nat)
    requires k <= |lens| && Bounded(lens, max)
    ensures Kraft(lens, k, max) == SumTo(k, UsedUnit(lens, max))
  {
    if k > 0 { KraftIs(lens, k - 1, max); }
  }

  /** The leaves are the symbols with a code. */
  ghost predicate UsedBy(leaves: set<nat>, lens: seq<nat>, max: nat) {
    forall n :: 0 <= n < |lens| ==> (if n in leaves then 1 <= lens[n] <= max else lens[n] == 0)
  }

  lemma LensCounted(leaves: set<nat>, lens: seq<nat>, b: nat, max: nat)
    requires UsedBy(leaves, lens, max) && b >= 1 && forall x :: x in leaves ==> x < |lens|
    ensures CountLen(lens, |lens|, b) == CountOf(leaves, Of(lens), b)
  {
    CountLenIs(lens, |lens|, b);
    SumRange(|lens|, AtLength(Of(lens), b));
    SumWiden(leaves, Below(|lens|), AtLength(Of(lens), b));
  }

  lemma LensKraft(leaves: set<nat>, lens: seq<nat>, max: nat)
    requires UsedBy(leaves, lens, max) && forall x :: x in leaves ==> x < |lens|
    ensures Bounded(lens, max) && Kraft(lens, |lens|, max) == KraftOf(leaves, Of(lens), max)
  {
    KraftIs(lens, |lens|, max);
    SumRange(|lens|, UsedUnit(lens, max));
    SumWiden(leaves, Below(|lens|), UsedUnit(lens, max));
    SumExt(leaves, UsedUnit(lens, max), KraftTerm(Of(lens), max));
  }

  /** A Kraft sum in units of 2^-max, read in finer units. */
  lemma {:induction false} KraftScales(lens: seq<nat>, k: nat, max: nat, finer: nat)
    requires k <= |lens| && Bounded(lens, max) && max <= finer
    ensures Bounded(lens, finer) && Kraft(lens, k, finer) == Kraft(lens, k, max) * Pow2(finer - max)
  {
    if k > 0 {
      KraftScales(lens, k - 1, max, finer);
      if lens[k - 1] > 0 {
        Pow2Add(max - lens[k - 1], finer - max);
        Distribute(Kraft(lens, k - 1, max), Pow2(max - lens[k - 1]), Pow2(finer - max));
      }
    }
  }

  lemma ExactKraft(lens: seq<nat>, max: nat, finer: nat)
    requires Bounded(lens, max) && Kraft(lens, |lens|, max) == Pow2(max) && max <= finer
    ensures Bounded(lens, finer) && Kraft(lens, |lens|, finer) == Pow2(finer)
  {
    KraftScales(lens, |lens|, max, finer);
    Pow2Add(max, finer - max);
  }
}
