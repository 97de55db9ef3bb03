/** The fixed Huffman codes of section 3.2.6 of RFC 1951, as ct_init builds them. */
module StaticTrees {
  import opened Arith
  import opened Bits
  import opened Canonical

  function StaticLen(n: nat): nat {
    if n <= 143 then 8 else if n <= 255 then 9 else if n <= 279 then 7 else 8
  }

  function StaticLens(): (s: seq<nat>)
    ensures |s| == 288 && forall n :: 0 <= n < 288 ==> s[n] == StaticLen(n)
  {
    seq(288, n requires n >= 0 => StaticLen(n))
  }

  function StaticDistLens(): (s: seq<nat>)
    ensures |s| == 30 && forall n :: 0 <= n < 30 ==> s[n] == 5
  {
    seq(30, _ => 5)
  }

  // ---------------------------------------------------------------- sums over stretches of equal length

  lemma {:induction false} KraftStretch(lens: seq<nat>, from: nat, to: nat, l: nat, max: nat)
    requires from <= to <= |lens| && Bounded(lens, max) && 0 < l <= max
    requires forall i :: from <= i < to ==> lens[i] == l
    ensures Kraft(lens, to, max) == Kraft(lens, from, max) + (to - from) * Pow2(max - l)
  {
    if from < to {
      KraftStretch(lens, from, to - 1, l, max);
      Distribute(to - 1 - from, 1, Pow2(max - l));
    }
  }

  lemma {:induction false} CountStretch(lens: seq<nat>, from: nat, to: nat, l: nat, b: nat)
    requires from <= to <= |lens| && forall i :: from <= i < to ==> lens[i] == l
    ensures CountLen(lens, to, b) == CountLen(lens, from, b) + (if b == l then to - from else 0)
  {
    if from < to { CountStretch(lens, from, to - 1, l, b); }
  }

  /** The fixed literal code fills the Kraft sum. */
  lemma StaticKraft()
    ensures KraftOk(StaticLens(), MAX_BITS) && Kraft(StaticLens(), 288, MAX_BITS) == Pow2(MAX_BITS)
  {
    hide Kraft, Pow2;
    var s := StaticLens();
    Pow2Values();
    KraftStretch(s, 0, 144, 8, MAX_BITS);
    KraftStretch(s, 144, 256, 9, MAX_BITS);
    KraftStretch(s, 256, 280, 7, MAX_BITS);
    KraftStretch(s, 280, 288, 8, MAX_BITS);
    KraftStarts(s);
  }

  lemma KraftStarts(lens: seq<nat>)
    requires Bounded(lens, MAX_BITS)
    ensures Kraft(lens, 0, MAX_BITS) == 0
  {
  }

  lemma StaticCounts(b: nat)
    ensures CountLen(StaticLens(), 288, b) == if b == 7 then 24 else if b == 8 then 152 else if b == 9 then 112 else 0
  {
    var s := StaticLens();
    CountStretch(s, 0, 144, 8, b);
    CountStretch(s, 144, 256, 9, b);
    CountStretch(s, 256, 280, 7, b);
    CountStretch(s, 280, 288, 8, b);
  }

  lemma StaticDistKraft()
    ensures KraftOk(StaticDistLens(), MAX_BITS)
  {
    hide Kraft, Pow2;
    var s := StaticDistLens();
    Pow2Values();
    KraftStretch(s, 0, 30, 5, MAX_BITS);
    KraftStarts(s);
  }

  /** Codes of one length are the symbols themselves. */
  lemma StaticDistCode(n: nat)
    requires n < 30
    ensures Code(StaticDistLens(), n) == n
  {
    var s := StaticDistLens();
    BeforeCounts(s, 30, 5, n);
    CountStretch(s, 0, n, 5, 5);
    NothingShorter(s, 30);
  }

  lemma {:induction false} NothingShorter(lens: seq<nat>, k: nat)
    requires k <= |lens| && forall i :: 0 <= i < |lens| ==> lens[i] == 5
    ensures Before(lens, k, 5, 0) == 0
  {
    if k > 0 { NothingShorter(lens, k - 1); }
  }

  // ---------------------------------------------------------------- ct_init

  method FillStaticLens(dl: array<nat>)
    requires dl.Length == 288
    modifies dl
    ensures dl[..] == StaticLens()
  {
    var n := 0;
    while n <= 143
      invariant 0 <= n <= 144 && forall i :: 0 <= i < n ==> dl[i] == StaticLen(i)
    {
      dl[n] := 8;
      n := n + 1;
    }
    while n <= 255
      invariant 144 <= n <= 256 && forall i :: 0 <= i < n ==> dl[i] == StaticLen(i)
    {
      dl[n] := 9;
      n := n + 1;
    }
    while n <= 279
      invariant 256 <= n <= 280 && forall i :: 0 <= i < n ==> dl[i] == StaticLen(i)
    {
      dl[n] := 7;
      n := n + 1;
    }
    while n <= 287
      invariant 280 <= n <= 288 && forall i :: 0 <= i < n ==> dl[i] == StaticLen(i)
    {
      dl[n] := 8;
      n := n + 1;
    }
  }

  method InitStaticLiterals(fc: array<nat>, dl: array<nat>, blCount: array<nat>)
    requires fc != dl && fc != blCount && dl != blCount && fc.Length == 288
    requires dl.Length == 288 && blCount.Length == MAX_BITS + 1
    requires forall b :: 0 <= b <= MAX_BITS ==> blCount[b] == 0
    modifies fc, dl, blCount
    ensures dl[..] == StaticLens()
    ensures forall n :: 0 <= n < 288 ==> HoldsCode(fc[n], StaticLens(), n)
  {
    hide HoldsCode, CountLen, KraftOk, Kraft, Pow2, Bounded;
    FillStaticLens(dl);
    blCount[7] := 279 - 255;
    blCount[8] := (143 + 1) + (287 - 279);
    blCount[9] := 255 - 143;
    assert dl[..287 + 1] == StaticLens();
    forall b | 1 <= b <= MAX_BITS ensures blCount[b] == CountLen(StaticLens(), 288, b) {
      StaticCounts(b);
    }
    StaticKraft();
    GenCodes(fc, dl, 287, blCount);
  }

  method InitStaticDistances(fc: array<nat>, dl: array<nat>)
    requires fc != dl && fc.Length == 30 && dl.Length == 30
    modifies fc, dl
    ensures dl[..] == StaticDistLens()
    ensures forall n :: 0 <= n < 30 ==> HoldsCode(fc[n], StaticDistLens(), n)
  {
    hide HoldsCode, Code, Pow2, ToBits, Reverse;
    for n := 0 to 30
      invariant forall i :: 0 <= i < n ==> dl[i] == 5
      invariant forall i :: 0 <= i < n ==> HoldsCode(fc[i], StaticDistLens(), i)
    {
      dl[n] := 5;
      var code := BiReverse(n, 5);
      StaticDistCode(n);
      ReversedIsHeld(code, StaticDistLens(), n);
      fc[n] := code;
    }
    assert dl[..] == StaticDistLens();
  }
}
