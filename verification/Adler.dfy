/** The Adler-32 checksum of lzop, which reduces its sums only every 5552 bytes. */
module Adler {
  import opened Arith
  import opened Bits
  import opened Options

  const BASE: nat := 65521
  const NMAX: nat := 5552
  const WORD: nat := 0x1_0000_0000

  // ---------------------------------------------------------------- the definition

  datatype Sums = Sums(s1: nat, s2: nat)

  /** Section 8.2 of RFC 1950: both sums are reduced after every byte. */
  function Step(s: Sums, c: byte): Sums {
    var a := (s.s1 + c) % BASE;
    Sums(a, (s.s2 + a) % BASE)
  }

  function Fold(s: Sums, data: seq<byte>): Sums {
    if data == [] then s else Step(Fold(s, data[..|data| - 1]), data[|data| - 1])
  }

  function Unpack(adler: nat): Sums { Sums(adler % 0x1_0000, adler / 0x1_0000 % 0x1_0000) }

  function Pack(s: Sums): nat { s.s2 * 0x1_0000 + s.s1 }

  /** The checksum of more data, from that of the data before it. */
  function Checksum(adler: nat, data: seq<byte>): nat { Pack(Fold(Unpack(adler), data)) }

  predicate Small(s: Sums) { s.s1 < 0x1_0000 && s.s2 < 0x1_0000 }

  lemma {:induction false} FoldSmall(s: Sums, data: seq<byte>)
    requires Small(s)
    ensures Small(Fold(s, data)) && (data != [] ==> Fold(s, data).s1 < BASE && Fold(s, data).s2 < BASE)
    decreases |data|
  {
    if data != [] { FoldSmall(s, data[..|data| - 1]); }
  }

  lemma {:induction false} FoldAppend(s: Sums, a: seq<byte>, b: seq<byte>)
    ensures Fold(s, a + b) == Fold(Fold(s, a), b)
    decreases |b|
  {
    if b == [] {
      assert a + b == a;
    } else {
      var n := |b| - 1;
      FoldAppend(s, a, b[..n]);
      assert (a + b)[..|a + b| - 1] == a + b[..n];
    }
  }

  lemma UnpackPack(s: Sums)
    requires Small(s)
    ensures Unpack(Pack(s)) == s && Pack(s) < WORD
  {
    ModUnique(Pack(s), 0x1_0000, s.s2, s.s1);
  }

  lemma UnpackSmall(adler: nat)
    ensures Small(Unpack(adler))
  {
  }

  /** However the data is split into calls, the checksum is the same. */
  lemma ChecksumSplits(adler: nat, a: seq<byte>, b: seq<byte>)
    ensures Checksum(Checksum(adler, a), b) == Checksum(adler, a + b)
  {
    hide Fold, Unpack, Pack;
    var s := Unpack(adler);
    UnpackSmall(adler);
    FoldSmall(s, a);
    UnpackPack(Fold(s, a));
    FoldAppend(s, a, b);
  }

  // ---------------------------------------------------------------- deferred reduction

  /** The sums without any reduction. */
  function Raw(s: Sums, data: seq<byte>): Sums {
    if data == [] then s
    else
      var r, c := Raw(s, data[..|data| - 1]), data[|data| - 1];
      Sums(r.s1 + c, r.s2 + (r.s1 + c))
  }

  predicate Fits(s: Sums) { s.s1 < WORD && s.s2 < WORD }

  /** The largest sums after `n` bytes, when both were at most `top`. */
  function MaxS1(top: nat, n: nat): nat { top + 255 * n }

  function MaxS2(top: nat, n: nat): nat { if n == 0 then top else MaxS2(top, n - 1) + MaxS1(top, n) }

  lemma {:induction false} MaxS2Is(top: nat, n: nat)
    ensures 2 * MaxS2(top, n) == 2 * (top * (n + 1)) + 255 * (n * (n + 1))
  {
    if n > 0 {
      MaxS2Is(top, n - 1);
      assert n * (n + 1) == (n - 1) * n + 2 * n;
      assert top * (n + 1) == top * n + top;
    }
  }

  lemma {:induction false} RawBound(s: Sums, data: seq<byte>)
    requires Small(s)
    ensures Raw(s, data).s1 <= MaxS1(0xFFFF, |data|) && Raw(s, data).s2 <= MaxS2(0xFFFF, |data|)
    decreases |data|
  {
    if data != [] { RawBound(s, data[..|data| - 1]); }
  }

  /** `n` bytes 255. */
  function Highest(n: nat): seq<byte> { seq(n, _ => 255) }

  lemma {:induction false} RawReached(top: nat, n: nat)
    ensures Raw(Sums(top, top), Highest(n)) == Sums(MaxS1(top, n), MaxS2(top, n))
  {
    if n > 0 {
      RawReached(top, n - 1);
      assert Highest(n)[..n - 1] == Highest(n - 1);
    }
  }

  lemma MaxFits(n: nat)
    ensures n <= NMAX ==> MaxS1(0xFFFF, n) < WORD && MaxS2(0xFFFF, n) < WORD
    ensures n > NMAX ==> MaxS2(BASE - 1, n) >= WORD
  {
    hide MaxS2;
    MaxS2Is(0xFFFF, n);
    MaxS2Is(BASE - 1, n);
    if n <= NMAX {
      MulMono(n, NMAX, n + 1);
      MulMono(n + 1, NMAX + 1, NMAX);
    } else {
      MulMono(NMAX + 1, n, n + 1);
      MulMono(NMAX + 2, n + 1, NMAX + 1);
    }
  }

  /** The sums of `n` bytes always fit 32 bits if and only if there are 5552 at most.  One more is too
      many even for sums that have just been reduced. */
  lemma NoOverflow(n: nat)
    ensures (forall s: Sums, data: seq<byte> :: Small(s) && |data| == n ==> Fits(Raw(s, data))) <==> n <= NMAX
    ensures n > NMAX ==> !Fits(Raw(Sums(BASE - 1, BASE - 1), Highest(n)))
  {
    hide MaxS1, MaxS2, Raw;
    MaxFits(n);
    RawReached(BASE - 1, n);
    forall s: Sums, data: seq<byte> | Small(s) && |data| == n ensures n <= NMAX ==> Fits(Raw(s, data)) {
      RawBound(s, data);
    }
    if n > NMAX {
      assert Small(Sums(BASE - 1, BASE - 1)) && |Highest(n)| == n;
    }
  }

  /** The sums agree with the definition up to a multiple of BASE. */
  ghost predicate Congruent(s1: nat, s2: nat, s: Sums) { s1 % BASE == s.s1 % BASE && s2 % BASE == s.s2 % BASE }

  lemma CongruentStep(s1: nat, s2: nat, s: Sums, c: byte)
    requires Congruent(s1, s2, s)
    ensures Congruent(s1 + c, s2 + (s1 + c), Step(s, c))
  {
    AddMod(s1, c, BASE);
    AddMod(s.s1, c, BASE);
    var a, x := (s.s1 + c) % BASE, s1 + c;
    assert x % BASE == a;
    AddMod(s2, x, BASE);
    AddMod(x, s2 % BASE, BASE);
    AddMod(s.s2, a, BASE);
    AddMod(a, s.s2 % BASE, BASE);
  }

  lemma {:induction false} RawCongruent(r: Sums, s: Sums, data: seq<byte>)
    requires Congruent(r.s1, r.s2, s)
    ensures Congruent(Raw(r, data).s1, Raw(r, data).s2, Fold(s, data))
    decreases |data|
  {
    hide Step, Congruent;
    if data != [] {
      var front, c := data[..|data| - 1], data[|data| - 1];
      RawCongruent(r, s, front);
      CongruentStep(Raw(r, front).s1, Raw(r, front).s2, Fold(s, front), c);
    }
  }

  /** Up to NMAX bytes at once, on 32-bit words. */
  method SumBlock(data: seq<byte>, a: nat, b: nat, ghost s: Sums) returns (s1: nat, s2: nat)
    requires 0 < |data| <= NMAX && a < 0x1_0000 && b < 0x1_0000 && Congruent(a, b, s)
    ensures s1 < BASE && s2 < BASE && Congruent(s1, s2, Fold(s, data))
  {
    hide Fold, Raw, Congruent;
    s1, s2 := a, b;
    var k, i := |data|, 0;
    RawNone(Sums(a, b));
    assert data[..0] == [];
    while true
      invariant 0 <= i < |data| && k == |data| - i && Sums(s1, s2) == Raw(Sums(a, b), data[..i])
      decreases k
    {
      NoOverflow(i + 1);
      RawNext(Sums(a, b), data, i);
      s1 := (s1 + data[i]) % WORD;
      s2 := (s2 + s1) % WORD;
      i := i + 1;
      k := k - 1;
      if k == 0 { break; }
    }
    assert data[..i] == data;
    RawCongruent(Sums(a, b), s, data);
    Reduced(s1, s2, Fold(s, data));
    s1, s2 := s1 % BASE, s2 % BASE;
  }

  lemma RawNone(s: Sums)
    ensures Raw(s, []) == s
  {
  }

  lemma RawNext(s: Sums, data: seq<byte>, i: nat)
    requires i < |data|
    ensures var r := Raw(s, data[..i]); Raw(s, data[..i + 1]) == Sums(r.s1 + data[i], r.s2 + (r.s1 + data[i]))
  {
    assert data[..i + 1][..i] == data[..i];
  }

  lemma FoldNone(s: Sums)
    ensures Fold(s, []) == s
  {
  }

  lemma Reduced(s1: nat, s2: nat, s: Sums)
    requires Congruent(s1, s2, s)
    ensures Congruent(s1 % BASE, s2 % BASE, s)
  {
  }

  lemma CongruentIs(s1: nat, s2: nat, s: Sums)
    requires Congruent(s1, s2, s) && s1 < BASE && s2 < BASE && s.s1 < BASE && s.s2 < BASE
    ensures s == Sums(s1, s2)
  {
  }

  lemma CongruentStart(s: Sums)
    ensures Congruent(s.s1, s.s2, s)
  {
  }

  method LzoAdler32(adler: nat, buf: Option<seq<byte>>) returns (r: nat)
    requires adler < WORD
    ensures r == if buf.None? then 1 else Checksum(adler, buf.value)
    ensures r < WORD
  {
    hide Fold, Congruent;
    if buf.None? { return 1; }
    var data := buf.value;
    ghost var s := Unpack(adler);
    var s1: nat, s2: nat := adler % 0x1_0000, adler / 0x1_0000 % 0x1_0000;
    var p, len: nat := 0, |data|;
    CongruentStart(s);
    FoldNone(s);
    assert data[..0] == [];
    while len > 0
      invariant p + len == |data| && s1 < 0x1_0000 && s2 < 0x1_0000 && Congruent(s1, s2, Fold(s, data[..p]))
      invariant p == 0 ==> s1 == s.s1 && s2 == s.s2
      invariant p > 0 ==> s1 < BASE && s2 < BASE
    {
      var k := if len < NMAX then len else NMAX;
      len := len - k;
      FoldAppend(s, data[..p], data[p..p + k]);
      assert data[..p] + data[p..p + k] == data[..p + k];
      s1, s2 := SumBlock(data[p..p + k], s1, s2, Fold(s, data[..p]));
      p := p + k;
    }
    assert data[..p] == data;
    FoldSmall(s, data);
    if p > 0 { CongruentIs(s1, s2, Fold(s, data)); }
    r := s2 * 0x1_0000 + s1;
  }

  /** The running checksum of lzop. */
  class Running {
    var adler: nat

    constructor ()
      ensures adler == 1
    {
      adler := 1;
    }

    method AddBytes(buf: seq<byte>)
      requires adler < WORD
      modifies this
      ensures adler == Checksum(old(adler), buf) && adler < WORD
    {
      adler := LzoAdler32(adler, Some(buf));
    }
  }
}
