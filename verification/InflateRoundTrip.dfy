/** The decoder of RFC 1951 undoes each piece of the encoding. */
module InflateRoundTrip {
  import opened Bits
  import opened Options
  import opened Canonical
  import opened Tables
  import opened Tokens
  import opened StaticTrees
  import opened Inflate
  import RL = RunLength
  import BQ = BitQueues

  lemma ReadBitsOf(v: nat, n: nat, rest: bits)
    requires v < Pow2(n)
    ensures ReadBits(ToBits(v, n) + rest, n) == Some(Read(v, rest))
  {
    var b := ToBits(v, n) + rest;
    assert b[..n] == ToBits(v, n) && b[n..] == rest;
    FromToBits(v, n);
  }

  lemma ReadSymbolOf(lens: seq<nat>, n: nat, rest: bits, max: nat)
    requires n < |lens| && lens[n] > 0 && KraftOk(lens, max)
    ensures ReadSymbol(lens, CodeBits(lens, n) + rest) == Some(Read(n, rest))
  {
    hide KraftOk;
    var b := CodeBits(lens, n) + rest;
    DecodeEncode(lens, n, rest, max);
    assert b[lens[n]..] == rest;
  }

  // ---------------------------------------------------------------- tokens

  lemma ReadLengthExtra(t: Token, rest: bits)
    requires TokenOk(t) && t.Match?
    ensures LengthCode(t.len - 3) <= 28
    ensures var c := LengthCode(t.len - 3);
            var r := ReadBits(LengthExtra(t) + rest, EXTRA_LBITS[c]);
            r.Some? && r.value.rest == rest && LENGTH_BASE[c] + r.value.value == t.len
  {
    hide Pow2, Start, LengthCode, ReadBits, ToBits;
    var c := LengthCode(t.len - 3);
    LengthDecodes(t.len - 3);
    if EXTRA_LBITS[c] == 0 {
      ReadNothing(rest);
    } else {
      ReadBitsOf(t.len - 3 - Start(EXTRA_LBITS, c), EXTRA_LBITS[c], rest);
    }
  }

  lemma ReadNothing(rest: bits)
    ensures [] + rest == rest && ReadBits(rest, 0) == Some(Read(0, rest))
  {
    assert rest[..0] == [] && rest[0..] == rest;
  }

  lemma ReadDistExtra(t: Token, rest: bits)
    requires TokenOk(t) && t.Match?
    ensures DistCode(t.dist - 1) <= 29
    ensures var c := DistCode(t.dist - 1);
            var r := ReadBits(DistExtra(t) + rest, EXTRA_DBITS[c]);
            r.Some? && r.value.rest == rest && DIST_BASE[c] + r.value.value == t.dist
  {
    hide Pow2, Start, DistCode, ReadBits, ToBits;
    var c := DistCode(t.dist - 1);
    DistDecodes(t.dist - 1);
    if EXTRA_DBITS[c] == 0 {
      ReadNothing(rest);
    } else {
      ReadBitsOf(t.dist - 1 - Start(EXTRA_DBITS, c), EXTRA_DBITS[c], rest);
    }
  }

  lemma ReadMatchOf(t: Token, dl: seq<nat>, rest: bits, max: nat)
    requires TokenOk(t) && t.Match? && DSym(t) < |dl| && dl[DSym(t)] > 0 && KraftOk(dl, max)
    ensures ReadMatch(dl, LSym(t), LengthExtra(t) + (CodeBits(dl, DSym(t)) + (DistExtra(t) + rest)))
              == Some(Read(t, rest))
  {
    hide KraftOk, ReadBits, ReadSymbol, CodeBits, LengthCode, DistCode, LengthExtra, DistExtra, EXTRA_LBITS,
      EXTRA_DBITS, LENGTH_BASE, DIST_BASE;
    TableSizes();
    ReadLengthExtra(t, CodeBits(dl, DSym(t)) + (DistExtra(t) + rest));
    ReadSymbolOf(dl, DSym(t), DistExtra(t) + rest, max);
    ReadDistExtra(t, rest);
  }

  ghost predicate GoodCodes(ll: seq<nat>, dl: seq<nat>) { KraftOk(ll, MAX_BITS) && KraftOk(dl, MAX_BITS) }

  lemma ReadTokenStep(t: Token, ll: seq<nat>, dl: seq<nat>, tail: bits)
    requires TokenOk(t) && LSym(t) < |ll| && ll[LSym(t)] > 0 && (t.Match? ==> DSym(t) < |dl| && dl[DSym(t)] > 0)
    requires GoodCodes(ll, dl)
    ensures ReadTokens(ll, dl, TokenBits(t, ll, dl) + tail) ==
            var r := ReadTokens(ll, dl, tail);
            if r.None? then None else Some(Read([t] + r.value.value, r.value.rest))
  {
    hide KraftOk, ReadSymbol, CodeBits, LengthCode, DistCode, LengthExtra, DistExtra, ReadMatch;
    var s := CodeBits(ll, LSym(t));
    if t.Literal? {
      ReadSymbolOf(ll, LSym(t), tail, MAX_BITS);
    } else {
      var a, c, d := LengthExtra(t), CodeBits(dl, DSym(t)), DistExtra(t);
      assert s + a + c + d + tail == s + (a + (c + (d + tail)));
      ReadSymbolOf(ll, LSym(t), a + (c + (d + tail)), MAX_BITS);
      ReadMatchOf(t, dl, tail, MAX_BITS);
    }
  }

  /** Decoding a compressed block gives back its tokens. */
  lemma {:induction false} ReadTokensOf(ts: seq<Token>, ll: seq<nat>, dl: seq<nat>, rest: bits)
    requires Codable(ts, ll, dl) && GoodCodes(ll, dl)
    ensures ReadTokens(ll, dl, BlockBits(ts, ll, dl) + rest) == Some(Read(ts, rest))
    decreases |ts|
  {
    hide ReadTokens, BlockBits, TokenBits, GoodCodes, Codable;
    CodableTail(ts, ll, dl);
    if ts == [] {
      assert BlockBits(ts, ll, dl) + rest == CodeBits(ll, END_BLOCK) + rest by { BlockOfNone(ll, dl); }
      ReadEnd(ll, dl, rest);
    } else {
      ReadTokensOf(ts[1..], ll, dl, rest);
      BlockOfSome(ts, ll, dl, rest);
      ReadTokenStep(ts[0], ll, dl, BlockBits(ts[1..], ll, dl) + rest);
      assert [ts[0]] + ts[1..] == ts;
    }
  }

  lemma BlockOfNone(ll: seq<nat>, dl: seq<nat>)
    requires END_BLOCK < |ll|
    ensures BlockBits([], ll, dl) == CodeBits(ll, END_BLOCK)
  {
    hide CodeBits;
  }

  lemma BlockOfSome(ts: seq<Token>, ll: seq<nat>, dl: seq<nat>, rest: bits)
    requires TokensOk(ts) && ts != []
    ensures BlockBits(ts, ll, dl) + rest == TokenBits(ts[0], ll, dl) + (BlockBits(ts[1..], ll, dl) + rest)
  {
    hide TokenBits, CodeAt;
  }

  lemma ReadEnd(ll: seq<nat>, dl: seq<nat>, rest: bits)
    requires END_BLOCK < |ll| && ll[END_BLOCK] > 0 && GoodCodes(ll, dl)
    ensures ReadTokens(ll, dl, CodeBits(ll, END_BLOCK) + rest) == Some(Read([], rest))
  {
    hide KraftOk, ReadSymbol, CodeBits;
    ReadSymbolOf(ll, END_BLOCK, rest, MAX_BITS);
  }

  lemma CodableTail(ts: seq<Token>, ll: seq<nat>, dl: seq<nat>)
    requires Codable(ts, ll, dl)
    ensures TokensOk(ts) && END_BLOCK < |ll| && ll[END_BLOCK] > 0
    ensures ts != [] ==> Codable(ts[1..], ll, dl) && TokenOk(ts[0]) && LSym(ts[0]) < |ll| && ll[LSym(ts[0])] > 0
    ensures ts != [] && ts[0].Match? ==> DSym(ts[0]) < |dl| && dl[DSym(ts[0])] > 0
  {
    hide LengthCode, DistCode;
    if ts != [] {
      forall i | 0 <= i < |ts[1..]| ensures TokenOk(ts[1..][i]) { assert ts[1..][i] == ts[i + 1]; }
    }
  }

  // ---------------------------------------------------------------- code lengths

  lemma {:induction false} ExpandGrows(syms: seq<RL.RunSym>, acc: seq<nat>)
    ensures var r := RL.Expand(syms, acc); r.Some? ==> |r.value| >= |acc| + |syms|
    decreases |syms|
  {
    if syms != [] {
      var r := RL.Expand([syms[0]], acc);
      ExpandFirst(syms, acc);
      if r.Some? { ExpandGrows(syms[1..], r.value); }
    }
  }

  /** Symbols can be expanded one at a time. */
  lemma ExpandFirst(syms: seq<RL.RunSym>, acc: seq<nat>)
    requires syms != []
    ensures RL.Expand(syms, acc) ==
            var r := RL.Expand([syms[0]], acc); if r.None? then None else RL.Expand(syms[1..], r.value)
    ensures var r := RL.Expand([syms[0]], acc); r.Some? ==> |r.value| > |acc|
  {
    var s := syms[0];
    assert [s][1..] == [];
    assert forall a: seq<nat> :: RL.Expand([], a) == Some(a);
  }

  lemma {:induction false} ReadLengthsOf(bl: seq<nat>, syms: seq<RL.RunSym>, rest: bits, n: nat, acc: seq<nat>,
                                         r: seq<nat>)
    requires RL.Expand(syms, acc) == Some(r) && |r| == n && RL.SymsOk(syms)
    requires RL.AllCoded(bl, syms) && KraftOk(bl, MAX_BITS)
    ensures ReadLengths(bl, RL.RunBits(bl, syms) + rest, n, acc) == Some(Read(r, rest))
    decreases |syms|
  {
    hide KraftOk, ReadSymbol, CodeBits, ReadBits, ToBits, Pow2, RL.Expand;
    ExpandGrows(syms, acc);
    if syms == [] {
      assert RL.RunBits(bl, syms) + rest == rest;
      ExpandNone(acc);
    } else {
      var s, tail := syms[0], RL.RunBits(bl, syms[1..]) + rest;
      ExpandFirst(syms, acc);
      var more := RL.Expand([s], acc);
      ReadLengthsOf(bl, syms[1..], rest, n, more.value, r);
      var code, extra := CodeBits(bl, s.sym), ToBits(s.extra, RL.ExtraWidth(s.sym));
      assert RL.SymOk(syms[0]);
      assert RL.RunBits(bl, syms) + rest == code + (extra + tail);
      ReadSymbolOf(bl, s.sym, extra + tail, MAX_BITS);
      ReadBitsOf(s.extra, RL.ExtraWidth(s.sym), tail);
    }
  }

  lemma ExpandNone(acc: seq<nat>)
    ensures RL.Expand([], acc) == Some(acc)
  {
  }

  // ---------------------------------------------------------------- order of the code length codes

  const RANK: seq<nat> := [3, 17, 15, 13, 11, 9, 7, 5, 4, 6, 8, 10, 12, 14, 16, 18, 0, 1, 2]

  lemma RankIs(s: nat)
    requires s < 19
    ensures RANK[s] < 19 && BL_ORDER[RANK[s]] == s
  {
  }

  lemma OrderIs(i: nat)
    requires i < 19
    ensures BL_ORDER[i] < 19 && RANK[BL_ORDER[i]] == i
  {
  }

  lemma {:induction false} PlaceAt(vals: seq<nat>, k: nat, s: nat)
    requires k <= |vals| <= 19 && s < 19
    ensures RANK[s] < 19 && Place(vals, k)[s] == if RANK[s] < k then vals[RANK[s]] else 0
  {
    hide BL_ORDER, RANK;
    OrderSizes();
    RankIs(s);
    if k > 0 {
      PlaceAt(vals, k - 1, s);
      OrderIs(k - 1);
    }
  }

  lemma OrderSizes()
    ensures |BL_ORDER| == 19 && |RANK| == 19
  {
  }

  /** The three-bit lengths sent first: those of BL_ORDER[0], BL_ORDER[1], ... */
  function Threes(lens: seq<nat>, n: nat): (v: seq<nat>)
    requires |lens| == 19 && n <= 19
    ensures |v| == n && forall i :: 0 <= i < n ==> v[i] == lens[BL_ORDER[i]]
  {
    seq(n, i requires 0 <= i < n => lens[BL_ORDER[i]])
  }

  /** No code length code from rank `n` on is used. */
  ghost predicate ZeroFrom(lens: seq<nat>, n: nat) {
    |lens| == 19 && forall i :: n <= i < 19 ==> BL_ORDER[i] < 19 && lens[BL_ORDER[i]] == 0
  }

  lemma PlaceThrees(lens: seq<nat>, n: nat)
    requires |lens| == 19 && n <= 19 && ZeroFrom(lens, n)
    ensures Place(Threes(lens, n), n) == lens
  {
    hide BL_ORDER, RANK, Place;
    OrderSizes();
    var p := Place(Threes(lens, n), n);
    forall s | 0 <= s < 19 ensures p[s] == lens[s] {
      PlaceAt(Threes(lens, n), n, s);
      RankIs(s);
    }
  }

  function ThreesBits(vals: seq<nat>): bits {
    if vals == [] then [] else ToBits(vals[0], 3) + ThreesBits(vals[1..])
  }

  lemma {:induction false} ReadThreesOf(vals: seq<nat>, rest: bits)
    requires forall i :: 0 <= i < |vals| ==> vals[i] < 8
    ensures ReadThrees(ThreesBits(vals) + rest, |vals|) == Some(Read(vals, rest))
    decreases |vals|
  {
    hide ReadBits, ToBits;
    if vals == [] {
      assert ThreesBits(vals) + rest == rest;
    } else {
      var tail := ThreesBits(vals[1..]) + rest;
      assert ThreesBits(vals) + rest == ToBits(vals[0], 3) + tail;
      Pow2Values();
      ReadBitsOf(vals[0], 3, tail);
      ReadThreesOf(vals[1..], rest);
      assert [vals[0]] + vals[1..] == vals;
    }
  }

  /** The header of a dynamic block, as send_all_trees emits it. */
  function CodesBits(ll: seq<nat>, dl: seq<nat>, bl: seq<nat>, nbl: nat): bits
    requires 257 <= |ll| && 1 <= |dl| && |bl| == 19 && 4 <= nbl <= 19
  {
    ToBits(|ll| - 257, 5) + ToBits(|dl| - 1, 5) + ToBits(nbl - 4, 4) + ThreesBits(Threes(bl, nbl))
    + RL.RunBits(bl, RL.RunCode(ll)) + RL.RunBits(bl, RL.RunCode(dl))
  }

  ghost predicate HeaderOk(ll: seq<nat>, dl: seq<nat>, bl: seq<nat>, nbl: nat) {
    && 257 <= |ll| <= 286 && 1 <= |dl| <= 30 && |bl| == 19 && 4 <= nbl <= 19
    && Bounded(ll, 15) && Bounded(dl, 15) && Bounded(bl, 7) && KraftOk(bl, MAX_BITS)
    && ZeroFrom(bl, nbl)
    && RL.AllCoded(bl, RL.RunCode(ll)) && RL.AllCoded(bl, RL.RunCode(dl))
  }

  lemma ReadBothTables(ll: seq<nat>, dl: seq<nat>, bl: seq<nat>, rest: bits)
    requires Bounded(ll, 15) && Bounded(dl, 15) && KraftOk(bl, MAX_BITS)
    requires RL.AllCoded(bl, RL.RunCode(ll)) && RL.AllCoded(bl, RL.RunCode(dl))
    ensures ReadLengths(bl, RL.RunBits(bl, RL.RunCode(ll)) + RL.RunBits(bl, RL.RunCode(dl)) + rest, |ll| + |dl|, [])
            == Some(Read(ll + dl, rest))
  {
    hide RL.Expand, RL.Runs, RL.RunBits, KraftOk, ReadLengths, Bounded;
    var a, b := RL.RunCode(ll), RL.RunCode(dl);
    RL.RoundTrip(ll, [], b);
    RL.RoundTrip(dl, ll, []);
    assert b + [] == b && [] + ll == ll;
    ExpandNone(ll + dl);
    RL.RunBitsAppend(bl, a, b);
    BothOk(bl, a, b);
    ReadLengthsOf(bl, a + b, rest, |ll| + |dl|, [], ll + dl);
  }

  lemma BothOk(bl: seq<nat>, a: seq<RL.RunSym>, b: seq<RL.RunSym>)
    requires RL.SymsOk(a) && RL.SymsOk(b) && RL.AllCoded(bl, a) && RL.AllCoded(bl, b)
    ensures RL.SymsOk(a + b) && RL.AllCoded(bl, a + b)
  {
  }

  /** Decoding the header gives back both tables of code lengths. */
  lemma ReadCodesOf(ll: seq<nat>, dl: seq<nat>, bl: seq<nat>, nbl: nat, rest: bits)
    requires HeaderOk(ll, dl, bl, nbl)
    ensures ReadCodes(CodesBits(ll, dl, bl, nbl) + rest) == Some(Read(Codes(ll, dl), rest))
  {
    hide ReadBits, ReadThrees, ReadLengths, Place, ToBits, ThreesBits, Threes, RL.RunBits, RL.Runs, KraftOk, BL_ORDER;
    OrderSizes();
    var h1, h2, h3, h4 := ToBits(|ll| - 257, 5), ToBits(|dl| - 1, 5), ToBits(nbl - 4, 4), ThreesBits(Threes(bl, nbl));
    var t := RL.RunBits(bl, RL.RunCode(ll)) + RL.RunBits(bl, RL.RunCode(dl)) + rest;
    assert CodesBits(ll, dl, bl, nbl) + rest == h1 + (h2 + (h3 + (h4 + t)));
    Pow2Values();
    ReadBitsOf(|ll| - 257, 5, h2 + (h3 + (h4 + t)));
    ReadBitsOf(|dl| - 1, 5, h3 + (h4 + t));
    ReadBitsOf(nbl - 4, 4, h4 + t);
    ThreesSmall(bl, nbl);
    ReadThreesOf(Threes(bl, nbl), t);
    PlaceThrees(bl, nbl);
    ReadBothTables(ll, dl, bl, rest);
    assert (ll + dl)[..|ll|] == ll && (ll + dl)[|ll|..] == dl;
  }

  lemma ThreesSmall(bl: seq<nat>, nbl: nat)
    requires |bl| == 19 && nbl <= 19 && Bounded(bl, 7)
    ensures |Threes(bl, nbl)| == nbl && forall i :: 0 <= i < nbl ==> Threes(bl, nbl)[i] < 8
  {
  }

  // ---------------------------------------------------------------- stored blocks

  lemma {:induction false} ReadBytesOf(s: seq<byte>, rest: bits)
    ensures ReadBytes(BytesToBits(s) + rest, |s|) == Some(Read(s, rest))
    decreases |s|
  {
    hide ToBits, FromBits, Pow2;
    if s == [] {
      assert BytesToBits(s) + rest == rest;
    } else {
      var tail := BytesToBits(s[1..]) + rest;
      var b := BytesToBits(s) + rest;
      assert b == ToBits(s[0], 8) + tail;
      assert b[..8] == ToBits(s[0], 8) && b[8..] == tail;
      Pow2Values();
      FromToBits(s[0], 8);
      ReadBytesOf(s[1..], rest);
      assert [s[0]] + s[1..] == s;
    }
  }

  lemma WordsAre(len: nat)
    requires len < 0x1_0000
    ensures BQ.LengthWords(len) == ToBits(len, 16) + ToBits(0xFFFF - len, 16)
  {
    assert len % 0x1_0000 == len;
  }

  lemma ReadVerbatimOf(s: seq<byte>, rest: bits)
    requires |s| < 0x1_0000
    ensures ReadVerbatim(ToBits(|s|, 16) + (ToBits(0xFFFF - |s|, 16) + (BytesToBits(s) + rest))) == Some(Read(s, rest))
  {
    hide ReadBits, ToBits, BytesToBits, ReadBytes, Pow2;
    Sixteen(|s|);
    ReadBitsOf(|s|, 16, ToBits(0xFFFF - |s|, 16) + (BytesToBits(s) + rest));
    ReadBitsOf(0xFFFF - |s|, 16, BytesToBits(s) + rest);
    ReadBytesOf(s, rest);
  }

  lemma ReadStoredOf(s: seq<byte>, pos: nat, rest: bits)
    requires |s| < 0x1_0000
    ensures ReadStored(Zeros(BQ.Padding(pos)) + BQ.LengthWords(|s|) + BytesToBits(s) + rest, pos) == Some(Read(s, rest))
  {
    hide *;
    WordsAre(|s|);
    var a, b, c := ToBits(|s|, 16), ToBits(0xFFFF - |s|, 16), BytesToBits(s);
    ReadStoredFrom(Zeros(BQ.Padding(pos)), a + (b + (c + rest)), pos);
    Regroup(Zeros(BQ.Padding(pos)), a, b, c, rest);
    ReadVerbatimOf(s, rest);
  }

  lemma ReadStoredFrom(pad: bits, tail: bits, pos: nat)
    requires |pad| == BQ.Padding(pos)
    ensures ReadStored(pad + tail, pos) == ReadVerbatim(tail)
  {
    hide ReadVerbatim, ToBoundary, BQ.Padding;
    BoundaryIsPadding(pos);
    assert (pad + tail)[|pad|..] == tail;
  }

  lemma BoundaryIsPadding(pos: nat)
    ensures ToBoundary(pos) == BQ.Padding(pos)
  {
  }

  lemma Regroup(pad: bits, a: bits, b: bits, c: bits, rest: bits)
    ensures pad + (a + b) + c + rest == pad + (a + (b + (c + rest)))
  {
  }

  lemma Sixteen(len: nat)
    requires len < 0x1_0000
    ensures len < Pow2(16) && 0xFFFF - len < Pow2(16)
  {
    Pow2Values();
  }

  // ---------------------------------------------------------------- blocks

  /** The three header bits. */
  lemma ReadHeader(btype: nat, eof: bool, body: bits)
    requires btype <= 2
    ensures ReadBits(ToBits(2 * btype + BitValue(eof), 3) + body, 3) == Some(Read(2 * btype + BitValue(eof), body))
    ensures (2 * btype + BitValue(eof)) % 2 == BitValue(eof) && (2 * btype + BitValue(eof)) / 2 == btype
  {
    hide ReadBits, ToBits, Pow2;
    Pow2Values();
    ReadBitsOf(2 * btype + BitValue(eof), 3, body);
  }

  lemma StoredHeaderRead(eof: bool, body: bits, pos: nat, out: seq<byte>)
    ensures ReadBlock(ToBits(BitValue(eof), 3) + body, pos, out) ==
            var s := ReadStored(body, pos + 3);
            if s.None? then None else Some(Read(Block(out + s.value.value, eof), s.value.rest))
  {
    hide ReadBits, ToBits, ReadStored, ReadCodes, ReadCompressed;
    ReadHeader(0, eof, body);
  }

  lemma StoredBlockRead(s: seq<byte>, pos: nat, eof: bool, rest: bits, out: seq<byte>)
    requires |s| < 0x1_0000
    ensures ReadBlock(ToBits(BitValue(eof), 3)
                      + (Zeros(BQ.Padding(pos + 3)) + BQ.LengthWords(|s|) + BytesToBits(s) + rest), pos, out)
            == Some(Read(Block(out + s, eof), rest))
  {
    hide *;
    StoredHeaderRead(eof, Zeros(BQ.Padding(pos + 3)) + BQ.LengthWords(|s|) + BytesToBits(s) + rest, pos, out);
    ReadStoredOf(s, pos + 3, rest);
  }

  lemma StaticBlockRead(ts: seq<Token>, pos: nat, eof: bool, rest: bits, out: seq<byte>, more: seq<byte>)
    requires Codable(ts, StaticLens(), StaticDistLens()) && Expand(ts, out) == Some(more)
    ensures ReadBlock(ToBits(2 + BitValue(eof), 3) + (BlockBits(ts, StaticLens(), StaticDistLens()) + rest), pos, out)
            == Some(Read(Block(more, eof), rest))
  {
    hide ReadBits, ToBits, ReadTokens, Expand, Codable, KraftOk, BlockBits, StaticLens, StaticDistLens;
    CodableTokens(ts, StaticLens(), StaticDistLens());
    ReadHeader(1, eof, BlockBits(ts, StaticLens(), StaticDistLens()) + rest);
    StaticKraft();
    StaticDistKraft();
    ReadTokensOf(ts, StaticLens(), StaticDistLens(), rest);
  }

  lemma DynamicBlockRead(ts: seq<Token>, ll: seq<nat>, dl: seq<nat>, bl: seq<nat>, nbl: nat,
                         pos: nat, eof: bool, rest: bits, out: seq<byte>, more: seq<byte>)
    requires HeaderOk(ll, dl, bl, nbl) && GoodCodes(ll, dl) && Codable(ts, ll, dl) && Expand(ts, out) == Some(more)
    ensures ReadBlock(ToBits(4 + BitValue(eof), 3)
              + (CodesBits(ll, dl, bl, nbl) + (BlockBits(ts, ll, dl) + rest)), pos, out)
            == Some(Read(Block(more, eof), rest))
  {
    hide ReadBits, ToBits, ReadTokens, Expand, Codable, HeaderOk, GoodCodes, BlockBits, ReadCodes, CodesBits;
    HeaderSizes(ll, dl, bl, nbl);
    CodableTokens(ts, ll, dl);
    ReadHeader(2, eof, CodesBits(ll, dl, bl, nbl) + (BlockBits(ts, ll, dl) + rest));
    ReadCodesOf(ll, dl, bl, nbl, BlockBits(ts, ll, dl) + rest);
    ReadTokensOf(ts, ll, dl, rest);
  }

  lemma CodableTokens(ts: seq<Token>, ll: seq<nat>, dl: seq<nat>)
    requires Codable(ts, ll, dl)
    ensures TokensOk(ts)
  {
  }

  lemma HeaderSizes(ll: seq<nat>, dl: seq<nat>, bl: seq<nat>, nbl: nat)
    requires HeaderOk(ll, dl, bl, nbl)
    ensures 257 <= |ll| && 1 <= |dl| && |bl| == 19 && 4 <= nbl <= 19
  {
  }
}
