/** Canonical Huffman codes.

    The codes of section 3.2.2 of RFC 1951 are given here in closed form: the code of a
    symbol counts everything that comes before it in (length, symbol) order, each scaled
    to the symbol's own length.  `GenCodes` (the bl_count / next_code method) is proved to
    compute exactly these codes, and the codes are proved to be prefix-free whenever the
    lengths satisfy the Kraft inequality. */
module Canonical {
  import opened Arith
  import opened Bits

  const MAX_BITS := 15

  // ---------------------------------------------------------------- definitions

  /** Whether symbol `m` precedes (length `l`, symbol `n`). */
  predicate Precedes(lens: seq<nat>, m: nat, l: nat, n: nat)
    requires m < |lens|
  {
    0 < lens[m] && (lens[m] < l || (lens[m] == l && m < n))
  }

  /** Sum of 2^(l - length) over the symbols below `k` preceding (l, n). */
  function Before(lens: seq<nat>, k: nat, l: nat, n: nat): nat
    requires k <= |lens|
  {
    if k == 0 then 0
    else Before(lens, k - 1, l, n) + (if Precedes(lens, k - 1, l, n) then Pow2(l - lens[k - 1]) else 0)
  }

  function Code(lens: seq<nat>, n: nat): nat
    requires n < |lens|
  {
    Before(lens, |lens|, lens[n], n)
  }

  /** The code of `n` as it appears in the stream: most significant bit first. */
  function CodeBits(lens: seq<nat>, n: nat): (b: bits)
    requires n < |lens|
    ensures |b| == lens[n]
  {
    Reverse(ToBits(Code(lens, n), lens[n]))
  }

  predicate Bounded(lens: seq<nat>, max: nat) {
    forall m :: 0 <= m < |lens| ==> lens[m] <= max
  }

  /** Kraft sum of the first `k` symbols in units of 2^-max. */
  function Kraft(lens: seq<nat>, k: nat, max: nat): nat
    requires k <= |lens| && Bounded(lens, max)
  {
    if k == 0 then 0
    else Kraft(lens, k - 1, max) + (if lens[k - 1] > 0 then Pow2(max - lens[k - 1]) else 0)
  }

  predicate KraftOk(lens: seq<nat>, max: nat) {
    Bounded(lens, max) && Kraft(lens, |lens|, max) <= Pow2(max)
  }

  /** The first symbol from `k` on whose code starts `b`; |lens| when there is none. */
  function FindSymbol(lens: seq<nat>, b: bits, k: nat): (n: nat)
    requires k <= |lens|
    ensures k <= n <= |lens|
    decreases |lens| - k
  {
    if k == |lens| then k
    else if lens[k] > 0 && CodeBits(lens, k) <= b then k
    else FindSymbol(lens, b, k + 1)
  }

  function CountLen(lens: seq<nat>, k: nat, b: nat): (c: nat)
    requires k <= |lens|
    ensures c <= k
  {
    if k == 0 then 0 else CountLen(lens, k - 1, b) + (if lens[k - 1] == b then 1 else 0)
  }

  // ---------------------------------------------------------------- size of codes

  lemma {:induction false} BeforeKraft(lens: seq<nat>, k: nat, l: nat, n: nat, max: nat)
    requires k <= |lens| && Bounded(lens, max) && l <= max
    ensures Before(lens, k, l, n) * Pow2(max - l)
            + (if n < k && lens[n] == l && l > 0 then Pow2(max - l) else 0) <= Kraft(lens, k, max)
  {
    if k > 0 {
      BeforeKraft(lens, k - 1, l, n, max);
      var m := k - 1;
      if Precedes(lens, m, l, n) {
        Pow2Add(l - lens[m], max - l);
        Distribute(Before(lens, m, l, n), Pow2(l - lens[m]), Pow2(max - l));
      }
    }
  }

  /** Kraft's inequality leaves room for every code in its own length. */
  lemma CodeFits(lens: seq<nat>, n: nat, max: nat)
    requires n < |lens| && lens[n] > 0 && KraftOk(lens, max)
    ensures Code(lens, n) < Pow2(lens[n])
  {
    hide Before, Kraft, Pow2;
    var l := lens[n];
    var c, p := Code(lens, n), Pow2(max - l);
    BeforeKraft(lens, |lens|, l, n, max);
    Pow2Add(l, max - l);
    Distribute(c, 1, p);
    if c >= Pow2(l) {
      MulStrict(Pow2(l), c + 1, p);
    }
  }

  // ---------------------------------------------------------------- prefix freedom

  lemma {:induction false} BeforeGap(lens: seq<nat>, k: nat, n: nat, m: nat)
    requires k <= |lens| && n < |lens| && m < |lens|
    requires Precedes(lens, n, lens[m], m)
    ensures (Before(lens, k, lens[n], n) + (if n < k then 1 else 0)) * Pow2(lens[m] - lens[n])
            <= Before(lens, k, lens[m], m)
  {
    var p := Pow2(lens[m] - lens[n]);
    if k > 0 {
      BeforeGap(lens, k - 1, n, m);
      var j := k - 1;
      var b := Before(lens, j, lens[n], n);
      if Precedes(lens, j, lens[n], n) {
        Pow2Add(lens[n] - lens[j], lens[m] - lens[n]);
        Distribute(b + (if n < j then 1 else 0), Pow2(lens[n] - lens[j]), p);
      } else if j == n {
        Distribute(b, 1, p);
      }
    }
  }

  /** The leading bits of a code word are the code word of the quotient. */
  lemma TopBits(c: nat, l: nat, d: nat)
    ensures Reverse(ToBits(c, l + d))[..l] == Reverse(ToBits(c / Pow2(d), l))
  {
    hide ToBits, Pow2, Reverse;
    var p := Pow2(d);
    assert c == c % p + (c / p) * p;
    ToBitsSplit(c % p, d, c / p, l);
    ReverseAppend(ToBits(c % p, d), ToBits(c / p, l));
  }

  lemma ToBitsInjective(a: nat, b: nat, n: nat)
    requires a < Pow2(n) && b < Pow2(n) && ToBits(a, n) == ToBits(b, n)
    ensures a == b
  {
    FromToBits(a, n);
    FromToBits(b, n);
  }

  lemma PrefixMeans(lens: seq<nat>, n: nat, m: nat, max: nat)
    requires n < |lens| && m < |lens| && 0 < lens[n] && 0 < lens[m] && KraftOk(lens, max)
    requires CodeBits(lens, n) <= CodeBits(lens, m)
    ensures lens[n] <= lens[m] && Code(lens, n) == Code(lens, m) / Pow2(lens[m] - lens[n])
  {
    hide Code, ToBits, Reverse, Pow2, KraftOk;
    var l, d := lens[n], lens[m] - lens[n];
    var c := Code(lens, m);
    TopBits(c, l, d);
    assert Reverse(ToBits(Code(lens, n), l)) == Reverse(ToBits(c / Pow2(d), l));
    ReverseReverse(ToBits(Code(lens, n), l));
    ReverseReverse(ToBits(c / Pow2(d), l));
    CodeFits(lens, n, max);
    CodeFits(lens, m, max);
    Pow2Add(l, d);
    DivBound(c, Pow2(d), Pow2(l));
    ToBitsInjective(Code(lens, n), c / Pow2(d), l);
  }

  lemma DivAtLeast(c: nat, a: nat, p: nat)
    requires p > 0 && a * p <= c
    ensures a <= c / p
  {
    assert c == (c / p) * p + c % p;
    if c / p < a { MulMono(c / p + 1, a, p); Distribute(c / p, 1, p); }
  }

  /** No code word is a prefix of another one. */
  lemma PrefixFree(lens: seq<nat>, n: nat, m: nat, max: nat)
    requires n < |lens| && m < |lens| && n != m && 0 < lens[n] && 0 < lens[m] && KraftOk(lens, max)
    ensures !(CodeBits(lens, n) <= CodeBits(lens, m))
  {
    hide CodeBits, Before, Pow2, KraftOk;
    if CodeBits(lens, n) <= CodeBits(lens, m) {
      PrefixMeans(lens, n, m, max);
      if Precedes(lens, n, lens[m], m) {
        BeforeGap(lens, |lens|, n, m);
        DivAtLeast(Code(lens, m), Code(lens, n) + 1, Pow2(lens[m] - lens[n]));
      } else {
        BeforeGap(lens, |lens|, m, n);
        assert Pow2(0) == 1 by { Pow2Values(); }
      }
    }
  }

  lemma {:induction false} FindUnique(lens: seq<nat>, b: bits, k: nat, n: nat)
    requires k <= n < |lens| && 0 < lens[n] && CodeBits(lens, n) <= b
    requires forall m :: k <= m < n && 0 < lens[m] ==> !(CodeBits(lens, m) <= b)
    ensures FindSymbol(lens, b, k) == n
    decreases n - k
  {
    hide CodeBits;
    if k < n { FindUnique(lens, b, k + 1, n); }
  }

  lemma PrefixesNest(a: bits, b: bits, c: bits)
    requires a <= c && b <= c && |a| <= |b|
    ensures a <= b
  {
    assert a == c[..|a|] && b == c[..|b|];
  }

  /** A reader of the stream that knows the lengths recovers the symbol. */
  lemma DecodeEncode(lens: seq<nat>, n: nat, rest: bits, max: nat)
    requires n < |lens| && 0 < lens[n] && KraftOk(lens, max)
    ensures FindSymbol(lens, CodeBits(lens, n) + rest, 0) == n
  {
    hide CodeBits, KraftOk;
    var b := CodeBits(lens, n) + rest;
    forall m | 0 <= m < n && 0 < lens[m]
      ensures !(CodeBits(lens, m) <= b)
    {
      PrefixFree(lens, n, m, max);
      PrefixFree(lens, m, n, max);
      if CodeBits(lens, m) <= b {
        if |CodeBits(lens, m)| <= |CodeBits(lens, n)| {
          PrefixesNest(CodeBits(lens, m), CodeBits(lens, n), b);
        } else {
          PrefixesNest(CodeBits(lens, n), CodeBits(lens, m), b);
        }
      }
    }
    FindUnique(lens, b, 0, n);
  }

  // ---------------------------------------------------------------- bi_reverse

  lemma ToBitsSnoc(c: nat, i: nat)
    ensures ToBits(c, i + 1) == ToBits(c, i) + [(c / Pow2(i)) % 2 == 1]
  {
    hide ToBits, Pow2;
    var p := Pow2(i);
    assert c == c % p + (c / p) * p;
    ToBitsSplit(c % p, i, c / p, 1);
    ToBitsSplit(c % p, i, c / p, 0);
    OneBit(c / p);
  }

  lemma OneBit(v: nat)
    ensures ToBits(v, 1) == [v % 2 == 1] && ToBits(v, 0) == []
  {
    assert ToBits(v, 1) == [v % 2 == 1] + ToBits(v / 2, 0);
  }

  /** Bit `i` of `code` goes below the `i` bits already reversed. */
  lemma ReverseStep(code: nat, i: nat)
    ensures FromBits(Reverse(ToBits(code, i + 1)))
            == 2 * FromBits(Reverse(ToBits(code, i))) + (code / Pow2(i)) % 2
  {
    hide ToBits, Pow2;
    var b := (code / Pow2(i)) % 2 == 1;
    ToBitsSnoc(code, i);
    ReverseAppend(ToBits(code, i), [b]);
    assert Reverse([b]) == [b];
    assert ([b] + Reverse(ToBits(code, i)))[1..] == Reverse(ToBits(code, i));
  }

  lemma ShiftOnce(code: nat, i: nat)
    ensures (code / Pow2(i)) / 2 == code / Pow2(i + 1)
  {
    var p := Pow2(i);
    var q, r := code / p, code % p;
    assert code == p * q + r;
    assert q == 2 * (q / 2) + q % 2;
    assert p * q == (2 * p) * (q / 2) + p * (q % 2) by { Regroup(p, q / 2, q % 2); }
    assert p * (q % 2) <= p;
    ModUnique(code, 2 * p, q / 2, p * (q % 2) + r);
  }

  lemma Regroup(p: int, a: int, b: int)
    ensures p * (2 * a + b) == (2 * p) * a + p * b
  {
  }

  lemma EvenOr(res: nat, bit: nat)
    requires bit < 2
    ensures Or(bit, 2 * res) == 2 * res + bit
  {
    hide Or;
    Pow2Values();
    OrDisjoint(bit, res, 1);
  }

  lemma {:induction false} OrCommutes(a: nat, b: nat)
    ensures Or(a, b) == Or(b, a)
    decreases a + b
  {
    if a != 0 || b != 0 { OrCommutes(a / 2, b / 2); }
  }

  method BiReverse(code: nat, len: nat) returns (res: nat)
    requires 1 <= len <= 15
    ensures res < Pow2(len)
    ensures ToBits(res, len) == Reverse(ToBits(code, len))
  {
    hide ToBits, Pow2, Or, Reverse, FromBits;
    res := 0;
    var c, left := code, len as int;
    ghost var i := 0;
    assert FromBits(Reverse(ToBits(code, 0))) == 0 by { NoBits(code); }
    assert code / Pow2(0) == code by { Pow2Values(); }
    while true
      invariant 0 <= i < len && left == len - i
      invariant c == code / Pow2(i)
      invariant res == 2 * FromBits(Reverse(ToBits(code, i)))
      decreases left
    {
      OrCommutes(res, c % 2);
      EvenOr(res / 2, c % 2);
      ReverseStep(code, i);
      ShiftOnce(code, i);
      res := Or(res, c % 2);
      left := left - 1;
      i := i + 1;
      if left <= 0 {
        FromBitsBound(Reverse(ToBits(code, len)));
        ToFromBits(Reverse(ToBits(code, len)));
        return;
      }
      c := c / 2;
      res := 2 * res;
    }
  }

  lemma NoBits(code: nat)
    ensures FromBits(Reverse(ToBits(code, 0))) == 0
  {
  }

  // ---------------------------------------------------------------- gen_codes

  /** `(code + bl_count[b - 1]) << 1` takes the first code of length b - 1 to that of length b. */
  lemma {:induction false} StartStep(lens: seq<nat>, k: nat, b: nat)
    requires k <= |lens| && b >= 1
    ensures Before(lens, k, b, 0) == 2 * (Before(lens, k, b - 1, 0) + (if b >= 2 then CountLen(lens, k, b - 1) else 0))
  {
    if k > 0 {
      StartStep(lens, k - 1, b);
    }
  }

  /** Codes of equal length are handed out consecutively. */
  lemma {:induction false} BeforeCounts(lens: seq<nat>, k: nat, l: nat, n: nat)
    requires k <= |lens| && n <= |lens| && l > 0
    ensures Before(lens, k, l, n) == Before(lens, k, l, 0) + CountLen(lens, if k < n then k else n, l)
  {
    if k > 0 {
      BeforeCounts(lens, k - 1, l, n);
      assert Pow2(0) == 1 by { Pow2Values(); }
    }
  }

  /** The running code stays far below the 32-bit word. */
  lemma StartBound(lens: seq<nat>, b: nat, max: nat)
    requires KraftOk(lens, max) && b <= max
    ensures Before(lens, |lens|, b, 0) <= Pow2(b)
  {
    hide Before, Kraft, Pow2;
    BeforeKraft(lens, |lens|, b, |lens|, max);
    Pow2Add(b, max - b);
    var c, p := Before(lens, |lens|, b, 0), Pow2(max - b);
    assert c <= Before(lens, |lens|, b, |lens|) by { BeforeMono(lens, |lens|, b, |lens|); }
    MulMono(c, Before(lens, |lens|, b, |lens|), p);
    if c > Pow2(b) { MulStrict(Pow2(b), c, p); }
  }

  lemma {:induction false} BeforeMono(lens: seq<nat>, k: nat, l: nat, n: nat)
    requires k <= |lens|
    ensures Before(lens, k, l, 0) <= Before(lens, k, l, n)
  {
    if k > 0 { BeforeMono(lens, k - 1, l, n); }
  }

  /** What GenCodes leaves in the code field of symbol `n`. */
  ghost predicate HoldsCode(code: nat, lens: seq<nat>, n: nat)
    requires n < |lens|
  {
    code < Pow2(lens[n]) && ToBits(code, lens[n]) == CodeBits(lens, n)
  }

  predicate Counts(blCount: seq<nat>, lens: seq<nat>) {
    |blCount| == MAX_BITS + 1 && blCount[0] == 0 &&
    forall b :: 1 <= b <= MAX_BITS ==> blCount[b] == CountLen(lens, |lens|, b)
  }

  method FirstCodes(blCount: array<nat>, ghost lens: seq<nat>) returns (nextCode: array<nat>)
    requires Counts(blCount[..], lens) && KraftOk(lens, MAX_BITS)
    ensures fresh(nextCode) && nextCode.Length == MAX_BITS + 1
    ensures forall b :: 1 <= b <= MAX_BITS ==> nextCode[b] == Before(lens, |lens|, b, 0)
  {
    hide Before, KraftOk, CountLen;
    nextCode := new nat[MAX_BITS + 1](i => 0);
    var code := 0;
    ghost var n := |lens|;
    assert Before(lens, n, 0, 0) == 0 by { StartZero(lens, n); }
    for b := 1 to MAX_BITS + 1
      invariant code == Before(lens, n, b - 1, 0)
      invariant forall j :: 1 <= j < b ==> nextCode[j] == Before(lens, n, j, 0)
    {
      StartStep(lens, n, b);
      assert blCount[b - 1] == blCount[..][b - 1];
      code := 2 * (code + blCount[b - 1]);
      assert code < 0x1_0000_0000 by {
        StartBound(lens, b, MAX_BITS);
        Pow2Mono(b, MAX_BITS);
        Pow2Values();
      }
      nextCode[b] := code;
    }
  }

  lemma {:induction false} StartZero(lens: seq<nat>, k: nat)
    requires k <= |lens|
    ensures Before(lens, k, 0, 0) == 0
  {
    if k > 0 { StartZero(lens, k - 1); }
  }

  /** Assign the codes of the given lengths: fc is the Freq/Code field, dl the Dad/Len field. */
  method GenCodes(fc: array<nat>, dl: array<nat>, maxCode: nat, blCount: array<nat>)
    requires fc != dl && fc != blCount && maxCode < fc.Length && maxCode < dl.Length
    requires Counts(blCount[..], dl[..maxCode + 1]) && KraftOk(dl[..maxCode + 1], MAX_BITS)
    modifies fc
    ensures forall n :: 0 <= n <= maxCode && dl[n] > 0 ==> HoldsCode(fc[n], dl[..maxCode + 1], n)
    ensures forall n :: 0 <= n < fc.Length && (n > maxCode || dl[n] == 0) ==> fc[n] == old(fc[n])
  {
    hide Before, KraftOk, CountLen, HoldsCode, Counts;
    ghost var lens := dl[..maxCode + 1];
    var nextCode := FirstCodes(blCount, lens);
    assert forall l :: CountLen(lens, 0, l) == 0 by { NoneCounted(lens); }
    for n := 0 to maxCode + 1
      invariant forall l :: 1 <= l <= MAX_BITS ==> nextCode[l] == Before(lens, |lens|, l, 0) + CountLen(lens, n, l)
      invariant forall m :: 0 <= m < n && dl[m] > 0 ==> HoldsCode(fc[m], lens, m)
      invariant forall m :: 0 <= m < fc.Length && (m >= n || dl[m] == 0) ==> fc[m] == old(fc[m])
      invariant lens == dl[..maxCode + 1]
    {
      var len := dl[n];
      CountStep(lens, n);
      if len > 0 {
        CodeHeld(lens, n);
        assert nextCode[len] == Code(lens, n) && len <= MAX_BITS;
        var code := BiReverse(nextCode[len], len);
        assert HoldsCode(code, lens, n) by { ReversedIsHeld(code, lens, n); }
        fc[n] := code;
        nextCode[len] := nextCode[len] + 1;
      }
    }
  }

  lemma NoneCounted(lens: seq<nat>)
    ensures forall l :: CountLen(lens, 0, l) == 0
  {
  }

  lemma CountStep(lens: seq<nat>, n: nat)
    requires n < |lens|
    ensures forall l :: CountLen(lens, n + 1, l) == CountLen(lens, n, l) + (if l == lens[n] then 1 else 0)
  {
  }

  lemma CodeHeld(lens: seq<nat>, n: nat)
    requires n < |lens| && lens[n] > 0 && KraftOk(lens, MAX_BITS)
    ensures lens[n] <= MAX_BITS
    ensures Code(lens, n) == Before(lens, |lens|, lens[n], 0) + CountLen(lens, n, lens[n])
  {
    BeforeCounts(lens, |lens|, lens[n], n);
  }

  lemma ReversedIsHeld(code: nat, lens: seq<nat>, n: nat)
    requires n < |lens| && code < Pow2(lens[n])
    requires ToBits(code, lens[n]) == Reverse(ToBits(Code(lens, n), lens[n]))
    ensures HoldsCode(code, lens, n)
  {
  }
}
