/** The list of nodes that the tree construction leaves behind, and the code lengths read off it.

    The merged nodes are listed two by two: position 2*i is the smaller and position 2*i + 1 the
    other node of merge `i`.  Going down the list, every father is met before its sons. */
module TreeShape {
  import opened Bits
  import opened Sums
  import opened Huffman

  function NodeAt(ms: seq<Merge>, q: nat): nat
    requires q < 2 * |ms|
  {
    if q % 2 == 0 then ms[q / 2].small else ms[q / 2].next
  }

  function Min(a: nat, b: nat): nat { if a <= b then a else b }

  // ---------------------------------------------------------------- where nodes are listed

  lemma ListedActive(leaves: set<nat>, ms: seq<Merge>, base: nat, q: nat)
    requires Run(leaves, ms, base) && q < 2 * |ms|
    ensures NodeAt(ms, q) in Active(leaves, ms, base, q / 2)
    ensures NodeAt(ms, q) < base + q / 2
    ensures NodeAt(ms, q) < base ==> NodeAt(ms, q) in leaves
  {
    hide Active;
    assert MergeOk(leaves, ms, base, q / 2);
    ActiveBounds(leaves, ms, base, q / 2);
  }

  /** A merged node does not come back. */
  lemma {:induction false} Gone(leaves: set<nat>, ms: seq<Merge>, base: nat, q: nat, j: nat)
    requires Run(leaves, ms, base) && q < 2 * |ms| && q / 2 < j <= |ms|
    ensures NodeAt(ms, q) !in Active(leaves, ms, base, j)
    decreases j
  {
    ListedActive(leaves, ms, base, q);
    if j > q / 2 + 1 { Gone(leaves, ms, base, q, j - 1); }
  }

  lemma Distinct(leaves: set<nat>, ms: seq<Merge>, base: nat, q: nat, p: nat)
    requires Run(leaves, ms, base) && q < p < 2 * |ms|
    ensures NodeAt(ms, q) != NodeAt(ms, p)
  {
    if q / 2 == p / 2 {
      assert MergeOk(leaves, ms, base, q / 2);
    } else {
      Gone(leaves, ms, base, q, p / 2);
      ListedActive(leaves, ms, base, p);
    }
  }

  /** Every node but the root is merged sooner or later. */
  lemma {:induction false} Listed(leaves: set<nat>, ms: seq<Merge>, base: nat, x: nat, j: nat) returns (q: nat)
    requires Built(leaves, ms, base) && j <= |ms| && x in Active(leaves, ms, base, j) && x != base + |ms| - 1
    ensures 2 * j <= q < 2 * |ms| && NodeAt(ms, q) == x
    decreases |ms| - j
  {
    if j == |ms| {
      OnlyRoot(leaves, ms, base);
      assert false;
    } else if x == ms[j].small {
      q := 2 * j;
    } else if x == ms[j].next {
      q := 2 * j + 1;
    } else {
      q := Listed(leaves, ms, base, x, j + 1);
    }
  }

  /** Fathers are listed above their sons. */
  lemma FatherAbove(leaves: set<nat>, ms: seq<Merge>, base: nat, i: nat) returns (q: nat)
    requires Built(leaves, ms, base) && i < |ms| - 1
    ensures 2 * i + 2 <= q < 2 * |ms| && NodeAt(ms, q) == base + i
  {
    q := Listed(leaves, ms, base, base + i, i + 1);
  }

  /** The leaves listed from position `q` on. */
  ghost function LeavesFrom(ms: seq<Merge>, base: nat, q: nat): set<nat>
    requires q <= 2 * |ms|
    decreases 2 * |ms| - q
  {
    if q == 2 * |ms| then {}
    else LeavesFrom(ms, base, q + 1) + (if NodeAt(ms, q) < base then {NodeAt(ms, q)} else {})
  }

  lemma {:induction false} LeavesFromMembers(leaves: set<nat>, ms: seq<Merge>, base: nat, q: nat)
    requires Run(leaves, ms, base) && q <= 2 * |ms|
    ensures LeavesFrom(ms, base, q) <= leaves
    ensures forall p :: q <= p < 2 * |ms| && NodeAt(ms, p) < base ==> NodeAt(ms, p) in LeavesFrom(ms, base, q)
    ensures forall p :: 0 <= p < q ==> NodeAt(ms, p) !in LeavesFrom(ms, base, q)
    decreases 2 * |ms| - q
  {
    if q < 2 * |ms| {
      LeavesFromMembers(leaves, ms, base, q + 1);
      ListedActive(leaves, ms, base, q);
      forall p | 0 <= p < q ensures NodeAt(ms, p) != NodeAt(ms, q) {
        Distinct(leaves, ms, base, p, q);
      }
    }
  }

  lemma LeavesFromStart(leaves: set<nat>, ms: seq<Merge>, base: nat)
    requires Built(leaves, ms, base)
    ensures LeavesFrom(ms, base, 0) == leaves
  {
    LeavesFromMembers(leaves, ms, base, 0);
    forall x | x in leaves ensures x in LeavesFrom(ms, base, 0) {
      var q := Listed(leaves, ms, base, x, 0);
    }
  }

  // ---------------------------------------------------------------- clipped depths

  /** The lengths of the nodes merged from `i` on: depth in the tree, but at most `max`. */
  ghost function Lengths(ms: seq<Merge>, base: nat, max: nat, i: nat): map<nat, nat>
    requires i <= |ms|
    decreases |ms| - i
  {
    if i == |ms| then map[]
    else
      var m := Lengths(ms, base, max, i + 1);
      var v := Min(max, (if base + i in m then m[base + i] else 0) + 1);
      m[ms[i].small := v][ms[i].next := v]
  }

  ghost function ClippedDepth(ms: seq<Merge>, base: nat, max: nat): nat -> nat {
    var m := Lengths(ms, base, max, 0);
    (x: nat) => if x in m then m[x] else 0
  }

  ghost predicate Clipped(ms: seq<Merge>, base: nat, max: nat, c: nat -> nat) {
    && |ms| >= 1 && c(base + |ms| - 1) == 0
    && forall i :: 0 <= i < |ms| ==>
         && c(ms[i].small) == Min(max, c(base + i) + 1)
         && c(ms[i].next) == Min(max, c(base + i) + 1)
  }

  ghost function Lookup(m: map<nat, nat>, x: nat): nat { if x in m then m[x] else 0 }

  /** Adding the merges below `i` does not change what is already recorded. */
  lemma {:induction false} LengthsKeep(leaves: set<nat>, ms: seq<Merge>, base: nat, max: nat, j: nat, i: nat, x: nat)
    requires Run(leaves, ms, base) && j <= i <= |ms|
    requires forall q :: 0 <= q < 2 * i ==> NodeAt(ms, q) != x
    ensures Lookup(Lengths(ms, base, max, j), x) == Lookup(Lengths(ms, base, max, i), x)
    decreases i - j
  {
    if j < i {
      LengthsKeep(leaves, ms, base, max, j + 1, i, x);
      assert NodeAt(ms, 2 * j) != x && NodeAt(ms, 2 * j + 1) != x;
    }
  }

  lemma NewNodeUnlisted(leaves: set<nat>, ms: seq<Merge>, base: nat, i: nat)
    requires Run(leaves, ms, base) && i < |ms|
    ensures forall q :: 0 <= q < 2 * (i + 1) ==> NodeAt(ms, q) != base + i
  {
    forall q | 0 <= q < 2 * (i + 1) ensures NodeAt(ms, q) != base + i {
      ListedActive(leaves, ms, base, q);
    }
  }

  lemma ClippedAt(leaves: set<nat>, ms: seq<Merge>, base: nat, max: nat, q: nat)
    requires Run(leaves, ms, base) && q < 2 * |ms|
    ensures var c := ClippedDepth(ms, base, max);
            c(NodeAt(ms, q)) == Min(max, c(base + q / 2) + 1)
  {
    var i, x := q / 2, NodeAt(ms, q);
    NewNodeUnlisted(leaves, ms, base, i);
    LengthsKeep(leaves, ms, base, max, 0, i + 1, base + i);
    forall p | 0 <= p < 2 * i ensures NodeAt(ms, p) != x {
      Distinct(leaves, ms, base, p, q);
    }
    LengthsKeep(leaves, ms, base, max, 0, i, x);
  }

  lemma ClippedDepthIs(leaves: set<nat>, ms: seq<Merge>, base: nat, max: nat)
    requires Built(leaves, ms, base)
    ensures Clipped(ms, base, max, ClippedDepth(ms, base, max))
  {
    hide Lengths, ClippedDepth, Active, Run;
    var c := ClippedDepth(ms, base, max);
    forall i | 0 <= i < |ms|
      ensures c(ms[i].small) == Min(max, c(base + i) + 1) && c(ms[i].next) == Min(max, c(base + i) + 1)
    {
      ClippedAt(leaves, ms, base, max, 2 * i);
      ClippedAt(leaves, ms, base, max, 2 * i + 1);
    }
    RootDepth(leaves, ms, base, max);
  }

  lemma RootDepth(leaves: set<nat>, ms: seq<Merge>, base: nat, max: nat)
    requires Built(leaves, ms, base)
    ensures ClippedDepth(ms, base, max)(base + |ms| - 1) == 0
  {
    NewNodeUnlisted(leaves, ms, base, |ms| - 1);
    LengthsKeep(leaves, ms, base, max, 0, |ms|, base + |ms| - 1);
  }

  lemma {:induction false} ClippedAtMost(ms: seq<Merge>, base: nat, max: nat, i: nat)
    requires i <= |ms|
    ensures forall x :: x in Lengths(ms, base, max, i) ==> Lengths(ms, base, max, i)[x] <= max
    decreases |ms| - i
  {
    if i < |ms| { ClippedAtMost(ms, base, max, i + 1); }
  }

  lemma ClippedBound(ms: seq<Merge>, base: nat, max: nat)
    ensures forall x: nat :: ClippedDepth(ms, base, max)(x) <= max
  {
    ClippedAtMost(ms, base, max, 0);
  }

  // ---------------------------------------------------------------- overflow

  /** How many of the nodes created from merge `i` on sit at the maximal length. */
  ghost function Full(c: nat -> nat, base: nat, i: nat, t: nat, max: nat): nat
    decreases t - i
  {
    if i >= t then 0 else (if c(base + i) == max then 1 else 0) + Full(c, base, i + 1, t, max)
  }

  ghost function AtLength(c: nat -> nat, b: nat): nat -> int { (x: nat) => if c(x) == b then 1 else 0 }

  /** Every clipped pair makes the Kraft sum one unit too large. */
  lemma {:induction false} ClippedKraft(leaves: set<nat>, ms: seq<Merge>, base: nat, max: nat, c: nat -> nat, i: nat)
    requires Built(leaves, ms, base) && Clipped(ms, base, max, c) && i <= |ms|
    requires forall x: nat :: c(x) <= max
    ensures KraftOf(Active(leaves, ms, base, i), c, max) == Pow2(max) + Full(c, base, i, |ms|, max)
    decreases |ms| - i
  {
    hide Sum, KraftTerm, Run, Clipped, Pow2;
    if i == |ms| {
      OnlyRoot(leaves, ms, base);
      var root := base + |ms| - 1;
      SumRemove({root}, KraftTerm(c, max), root);
      assert {root} - {root} == {};
      SumZero({}, KraftTerm(c, max));
      RootTerm(ms, base, max, c);
    } else {
      ClippedKraft(leaves, ms, base, max, c, i + 1);
      StepSum(leaves, ms, base, i, KraftTerm(c, max));
      ClippedTerms(ms, base, max, c, i);
    }
  }

  lemma RootTerm(ms: seq<Merge>, base: nat, max: nat, c: nat -> nat)
    requires Clipped(ms, base, max, c)
    ensures KraftTerm(c, max)(base + |ms| - 1) == Pow2(max)
  {
  }

  lemma ClippedTerms(ms: seq<Merge>, base: nat, max: nat, c: nat -> nat, i: nat)
    requires Clipped(ms, base, max, c) && i < |ms| && c(base + i) <= max
    ensures KraftTerm(c, max)(ms[i].small) + KraftTerm(c, max)(ms[i].next)
            == KraftTerm(c, max)(base + i) + (if c(base + i) == max then 1 else 0)
  {
    assert Pow2(0) == 1;
  }

  /** The leaves at maximal length outnumber the clipped pairs. */
  lemma {:induction false} ManyAtMax(leaves: set<nat>, ms: seq<Merge>, base: nat, max: nat, c: nat -> nat, i: nat)
    requires Built(leaves, ms, base) && Clipped(ms, base, max, c) && i <= |ms| && max >= 1
    requires forall x: nat :: c(x) <= max
    ensures var f := Full(c, base, i, |ms|, max);
            Sum(Active(leaves, ms, base, i), AtLength(c, max)) >= f + (if f > 0 then 1 else 0)
    decreases |ms| - i
  {
    hide Sum, Run, AtLength, Clipped;
    if i == |ms| {
      AtLengthPositive(Active(leaves, ms, base, i), c, max);
    } else {
      ManyAtMax(leaves, ms, base, max, c, i + 1);
      StepSum(leaves, ms, base, i, AtLength(c, max));
      FatherAtMax(leaves, ms, base, max, c, i);
    }
  }

  lemma AtLengthPositive(S: set<nat>, c: nat -> nat, b: nat)
    ensures Sum(S, AtLength(c, b)) >= 0
  {
    SumNonneg(S, AtLength(c, b));
  }

  lemma FatherAtMax(leaves: set<nat>, ms: seq<Merge>, base: nat, max: nat, c: nat -> nat, i: nat)
    requires Built(leaves, ms, base) && Clipped(ms, base, max, c) && i < |ms| && max >= 1
    requires forall x: nat :: c(x) <= max
    ensures var a := AtLength(c, max);
            && a(ms[i].small) + a(ms[i].next) - a(base + i) >= (if c(base + i) == max then 1 else 0)
            && (c(base + i) == max ==> Sum(Active(leaves, ms, base, i + 1), a) >= 1)
  {
    hide Sum;
    if c(base + i) == max {
      var S, a := Active(leaves, ms, base, i + 1), AtLength(c, max);
      assert base + i in S;
      SumRemove(S, a, base + i);
      AtLengthPositive(S - {base + i}, c, max);
    }
  }

  /** Without clipped pairs the lengths are the depths in the tree. */
  lemma {:induction false} NoneFull(c: nat -> nat, base: nat, i: nat, t: nat, max: nat)
    requires Full(c, base, i, t, max) == 0
    ensures forall x: nat :: base + i <= x < base + t ==> c(x) != max
    decreases t - i
  {
    if i < t { NoneFull(c, base, i + 1, t, max); }
  }

  lemma UnclippedDepths(ms: seq<Merge>, base: nat, max: nat, c: nat -> nat)
    requires Clipped(ms, base, max, c) && Full(c, base, 0, |ms|, max) == 0
    requires forall x: nat :: c(x) <= max
    ensures Depths(ms, base, c)
  {
    NoneFull(c, base, 0, |ms|, max);
    forall i | 0 <= i < |ms|
      ensures c(ms[i].small) == c(base + i) + 1 && c(ms[i].next) == c(base + i) + 1
    {
      assert c(base + i) != max;
    }
  }
}
