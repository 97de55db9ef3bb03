/** What the matcher hands to the coder: literal bytes and (distance, length) pairs. */
module Tokens {
  import opened Arith
  import opened Bits
  import opened Options
  import opened Sums
  import opened Canonical
  import opened Tables

  datatype Token = Literal(c: byte) | Match(dist: nat, len: nat)

  predicate TokenOk(t: Token) {
    t.Match? ==> 1 <= t.dist <= 32768 && 3 <= t.len <= 258
  }

  predicate TokensOk(ts: seq<Token>) { forall i :: 0 <= i < |ts| ==> TokenOk(ts[i]) }

  // ---------------------------------------------------------------- meaning of tokens

  /** Append `len` bytes, each a copy of the byte `dist` before it. */
  function CopyBack(out: seq<byte>, dist: nat, len: nat): (r: seq<byte>)
    requires 1 <= dist <= |out|
    ensures |r| == |out| + len
    decreases len
  {
    if len == 0 then out else CopyBack(out + [out[|out| - dist]], dist, len - 1)
  }

  /** Section 3.2.3 of RFC 1951: append what the tokens stand for; None when a distance reaches
      before the start of the output. */
  function Expand(ts: seq<Token>, out: seq<byte>): Option<seq<byte>>
    decreases |ts|
  {
    if ts == [] then Some(out)
    else match ts[0]
      case Literal(c) => Expand(ts[1..], out + [c])
      case Match(d, n) => if 1 <= d <= |out| then Expand(ts[1..], CopyBack(out, d, n)) else None
  }

  lemma {:induction false} ExpandAppend(a: seq<Token>, b: seq<Token>, out: seq<byte>)
    ensures Expand(a + b, out) == if Expand(a, out).None? then None else Expand(b, Expand(a, out).value)
    decreases |a|
  {
    if a == [] {
      assert a + b == b;
    } else {
      assert (a + b)[1..] == a[1..] + b;
      match a[0]
      case Literal(c) => ExpandAppend(a[1..], b, out + [c]);
      case Match(d, n) => if 1 <= d <= |out| { ExpandAppend(a[1..], b, CopyBack(out, d, n)); }
    }
  }

  /** Byte `j` equals the byte `dist` before it. */
  ghost predicate SameAt(data: seq<byte>, j: nat, dist: nat) {
    dist <= j < |data| && data[j] == data[j - dist]
  }

  /** Copying back reproduces data that repeats at that distance. */
  lemma {:induction false} CopyRepeats(data: seq<byte>, p: nat, dist: nat, len: nat)
    requires 1 <= dist <= p && p + len <= |data|
    requires forall j :: p <= j < p + len ==> SameAt(data, j, dist)
    ensures CopyBack(data[..p], dist, len) == data[..p + len]
    decreases len
  {
    if len > 0 {
      assert SameAt(data, p, dist);
      assert data[..p] + [data[..p][p - dist]] == data[..p + 1];
      CopyRepeats(data, p + 1, dist, len - 1);
    }
  }

  // ---------------------------------------------------------------- symbols

  function LSym(t: Token): (s: nat)
    requires TokenOk(t)
    ensures s < L_CODES && s != END_BLOCK
  {
    match t
    case Literal(c) => c
    case Match(_, n) => LITERALS + 1 + LengthCode(n - 3)
  }

  function DSym(t: Token): (s: nat)
    requires TokenOk(t) && t.Match?
    ensures s < D_CODES
  {
    DistCode(t.dist - 1)
  }

  /** The extra bits sent after the length code: 5 at most. */
  function LengthExtra(t: Token): bits
    requires TokenOk(t) && t.Match?
  {
    var c := LengthCode(t.len - 3);
    LengthDecodes(t.len - 3);
    if EXTRA_LBITS[c] == 0 then [] else ToBits(t.len - 3 - Start(EXTRA_LBITS, c), EXTRA_LBITS[c])
  }

  function DistExtra(t: Token): bits
    requires TokenOk(t) && t.Match?
  {
    var c := DistCode(t.dist - 1);
    DistDecodes(t.dist - 1);
    if EXTRA_DBITS[c] == 0 then [] else ToBits(t.dist - 1 - Start(EXTRA_DBITS, c), EXTRA_DBITS[c])
  }

  /** The code of symbol `n`, nothing when the table has no such symbol. */
  function CodeAt(lens: seq<nat>, n: nat): bits {
    if n < |lens| then CodeBits(lens, n) else []
  }

  /** The bits of a token under a pair of codes. */
  function TokenBits(t: Token, ll: seq<nat>, dl: seq<nat>): bits
    requires TokenOk(t)
  {
    if t.Literal? then CodeAt(ll, LSym(t))
    else CodeAt(ll, LSym(t)) + LengthExtra(t) + CodeAt(dl, DSym(t)) + DistExtra(t)
  }

  function TokensBits(ts: seq<Token>, ll: seq<nat>, dl: seq<nat>): bits
    requires TokensOk(ts)
  {
    if ts == [] then [] else TokenBits(ts[0], ll, dl) + TokensBits(ts[1..], ll, dl)
  }

  /** A compressed block after its header: the tokens, then the end-of-block code. */
  function BlockBits(ts: seq<Token>, ll: seq<nat>, dl: seq<nat>): bits
    requires TokensOk(ts)
  {
    TokensBits(ts, ll, dl) + CodeAt(ll, END_BLOCK)
  }

  /** The symbols of a block all have codes. */
  ghost predicate Codable(ts: seq<Token>, ll: seq<nat>, dl: seq<nat>) {
    && TokensOk(ts) && END_BLOCK < |ll| && ll[END_BLOCK] > 0
    && (forall i :: 0 <= i < |ts| ==> LSym(ts[i]) < |ll| && ll[LSym(ts[i])] > 0)
    && (forall i :: 0 <= i < |ts| && ts[i].Match? ==> DSym(ts[i]) < |dl| && dl[DSym(ts[i])] > 0)
  }

  lemma {:induction false} TokensBitsAppend(a: seq<Token>, b: seq<Token>, ll: seq<nat>, dl: seq<nat>)
    requires TokensOk(a) && TokensOk(b)
    ensures TokensOk(a + b) && TokensBits(a + b, ll, dl) == TokensBits(a, ll, dl) + TokensBits(b, ll, dl)
    decreases |a|
  {
    hide TokenBits;
    if a == [] {
      assert a + b == b;
    } else {
      assert (a + b)[1..] == a[1..] + b;
      TokensBitsAppend(a[1..], b, ll, dl);
    }
  }

  lemma TokensBitsSnoc(ts: seq<Token>, i: nat, ll: seq<nat>, dl: seq<nat>)
    requires TokensOk(ts) && i < |ts|
    ensures TokensBits(ts[..i + 1], ll, dl) == TokensBits(ts[..i], ll, dl) + TokenBits(ts[i], ll, dl)
  {
    hide TokenBits;
    assert ts[..i + 1] == ts[..i] + [ts[i]];
    TokensBitsAppend(ts[..i], [ts[i]], ll, dl);
    assert [ts[i]][1..] == [];
    assert TokensBits([ts[i]], ll, dl) == TokenBits(ts[i], ll, dl) + TokensBits([], ll, dl);
  }

  // ---------------------------------------------------------------- frequencies and size

  ghost function LCount(ts: seq<Token>, s: nat): nat
    requires TokensOk(ts)
  {
    if ts == [] then 0 else LCount(ts[..|ts| - 1], s) + (if LSym(ts[|ts| - 1]) == s then 1 else 0)
  }

  ghost function DCount(ts: seq<Token>, s: nat): nat
    requires TokensOk(ts)
  {
    if ts == [] then 0
    else DCount(ts[..|ts| - 1], s) + (if ts[|ts| - 1].Match? && DSym(ts[|ts| - 1]) == s then 1 else 0)
  }

  /** Extra bits that follow a literal/length symbol. */
  function LExtra(s: nat): nat {
    if LITERALS + 1 <= s < LITERALS + 1 + |EXTRA_LBITS| then EXTRA_LBITS[s - LITERALS - 1] else 0
  }

  function At(s: seq<nat>, i: nat): nat { if i < |s| then s[i] else 0 }

  /** Bits of all literal/length symbols: the tokens' and one end-of-block. */
  ghost function LTerm(ts: seq<Token>, ll: seq<nat>): nat -> int
    requires TokensOk(ts)
  {
    (s: nat) => (LCount(ts, s) + (if s == END_BLOCK then 1 else 0)) * (At(ll, s) + LExtra(s))
  }

  ghost function DTerm(ts: seq<Token>, dl: seq<nat>): nat -> int
    requires TokensOk(ts)
  {
    (s: nat) => DCount(ts, s) * (At(dl, s) + At(EXTRA_DBITS, s))
  }

  lemma CodeAtLen(lens: seq<nat>, n: nat)
    ensures |CodeAt(lens, n)| == At(lens, n)
  {
  }

  lemma TokenSize(t: Token, ll: seq<nat>, dl: seq<nat>)
    requires TokenOk(t)
    ensures |TokenBits(t, ll, dl)| == At(ll, LSym(t)) + LExtra(LSym(t))
                                      + (if t.Match? then At(dl, DSym(t)) + At(EXTRA_DBITS, DSym(t)) else 0)
  {
    CodeAtLen(ll, LSym(t));
    if t.Match? {
      CodeAtLen(dl, DSym(t));
      LengthDecodes(t.len - 3);
      DistDecodes(t.dist - 1);
    }
  }

  lemma LTermAdd(ts: seq<Token>, t: Token, ll: seq<nat>)
    requires TokensOk(ts) && TokenOk(t) && TokensOk(ts + [t])
    ensures SumTo(L_CODES, LTerm(ts + [t], ll)) == SumTo(L_CODES, LTerm(ts, ll)) + At(ll, LSym(t)) + LExtra(LSym(t))
  {
    hide SumTo, LengthCode;
    assert (ts + [t])[..|ts|] == ts;
    var k := LSym(t);
    Distribute(LCount(ts, k), 1, At(ll, k) + LExtra(k));
    SumToUpdate(L_CODES, LTerm(ts, ll), LTerm(ts + [t], ll), k);
  }

  lemma DTermAdd(ts: seq<Token>, t: Token, dl: seq<nat>)
    requires TokensOk(ts) && TokenOk(t) && TokensOk(ts + [t])
    ensures SumTo(D_CODES, DTerm(ts + [t], dl)) == SumTo(D_CODES, DTerm(ts, dl))
              + (if t.Match? then At(dl, DSym(t)) + At(EXTRA_DBITS, DSym(t)) else 0)
  {
    hide SumTo, DistCode;
    assert (ts + [t])[..|ts|] == ts;
    if t.Match? {
      var k := DSym(t);
      Distribute(DCount(ts, k), 1, At(dl, k) + At(EXTRA_DBITS, k));
      SumToUpdate(D_CODES, DTerm(ts, dl), DTerm(ts + [t], dl), k);
    } else {
      SumToExt(D_CODES, DTerm(ts, dl), DTerm(ts + [t], dl));
    }
  }

  lemma NoTokens(ll: seq<nat>, dl: seq<nat>)
    ensures SumTo(L_CODES, LTerm([], ll)) == At(ll, END_BLOCK) && SumTo(D_CODES, DTerm([], dl)) == 0
  {
    hide SumTo;
    var z: nat -> int := (s: nat) => 0;
    SumToExt(D_CODES, DTerm([], dl), z);
    SumToUpdate(L_CODES, z, LTerm([], ll), END_BLOCK);
    SumToZero(L_CODES, z);
    SumToZero(D_CODES, z);
  }

  lemma {:induction false} SumToZero(n: nat, f: nat -> int)
    requires forall x: nat :: x < n ==> f(x) == 0
    ensures SumTo(n, f) == 0
  {
    if n > 0 { SumToZero(n - 1, f); }
  }

  /** The size of a block, from the frequencies of its symbols. */
  lemma {:induction false} BlockSize(ts: seq<Token>, ll: seq<nat>, dl: seq<nat>)
    requires TokensOk(ts)
    ensures |BlockBits(ts, ll, dl)| == SumTo(L_CODES, LTerm(ts, ll)) + SumTo(D_CODES, DTerm(ts, dl))
    decreases |ts|
  {
    hide SumTo, TokenBits, LTerm, DTerm;
    CodeAtLen(ll, END_BLOCK);
    if ts == [] {
      NoTokens(ll, dl);
    } else {
      var n := |ts| - 1;
      var front, t := ts[..n], ts[n];
      assert ts == front + [t] && ts[..n + 1] == ts;
      BlockSize(front, ll, dl);
      TokensBitsSnoc(ts, n, ll, dl);
      TokenSize(t, ll, dl);
      LTermAdd(front, t, ll);
      DTermAdd(front, t, dl);
    }
  }
}
