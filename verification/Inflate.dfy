/** A decoder for the DEFLATE format, written from RFC 1951.  It is the specification that the
    compressor's output is measured against. */
module Inflate {
  import opened Bits
  import opened Options
  import opened Canonical
  import opened Tables
  import opened Tokens
  import opened StaticTrees
  import RunLength

  /** What is left after reading a value. */
  datatype Read<+T> = Read(value: T, rest: bits)

  /** Section 3.1.1: an `n`-bit number, least significant bit first. */
  function ReadBits(b: bits, n: nat): (r: Option<Read<nat>>)
    ensures r.Some? ==> |r.value.rest| == |b| - n
  {
    if |b| < n then None else Some(Read(FromBits(b[..n]), b[n..]))
  }

  /** Section 3.2.2: the symbol whose code word comes next. */
  function ReadSymbol(lens: seq<nat>, b: bits): (r: Option<Read<nat>>)
    ensures r.Some? ==> r.value.value < |lens| && |r.value.rest| < |b|
  {
    var n := FindSymbol(lens, b, 0);
    FindMeans(lens, b, 0);
    if n == |lens| then None else Some(Read(n, b[lens[n]..]))
  }

  lemma {:induction false} FindMeans(lens: seq<nat>, b: bits, k: nat)
    requires k <= |lens|
    ensures var n := FindSymbol(lens, b, k); n < |lens| ==> 0 < lens[n] <= |b| && CodeBits(lens, n) <= b
    decreases |lens| - k
  {
    if k < |lens| { FindMeans(lens, b, k + 1); }
  }

  /** Section 3.2.5: a length symbol with its extra bits, then a distance. */
  function ReadMatch(dl: seq<nat>, s: nat, b: bits): (r: Option<Read<Token>>)
    requires 257 <= s <= 285
    ensures r.Some? ==> |r.value.rest| < |b|
  {
    var x := ReadBits(b, EXTRA_LBITS[s - 257]);
    if x.None? then None else
    var d := ReadSymbol(dl, x.value.rest);
    if d.None? || d.value.value > 29 then None else
    var y := ReadBits(d.value.rest, EXTRA_DBITS[d.value.value]);
    if y.None? then None else
    Some(Read(Match(DIST_BASE[d.value.value] + y.value.value, LENGTH_BASE[s - 257] + x.value.value), y.value.rest))
  }

  /** Section 3.2.3: literals and matches up to the end-of-block symbol. */
  function ReadTokens(ll: seq<nat>, dl: seq<nat>, b: bits): (r: Option<Read<seq<Token>>>)
    ensures r.Some? ==> |r.value.rest| <= |b|
    decreases |b|
  {
    var s := ReadSymbol(ll, b);
    if s.None? then None
    else if s.value.value == END_BLOCK then Some(Read([], s.value.rest))
    else if s.value.value < 256 then
      var r := ReadTokens(ll, dl, s.value.rest);
      if r.None? then None else Some(Read([Literal(s.value.value)] + r.value.value, r.value.rest))
    else if s.value.value > 285 then None
    else
      var m := ReadMatch(dl, s.value.value, s.value.rest);
      if m.None? then None else
      var r := ReadTokens(ll, dl, m.value.rest);
      if r.None? then None else Some(Read([m.value.value] + r.value.value, r.value.rest))
  }

  /** Section 3.2.7: the lengths of the code length codes, three bits each. */
  function ReadThrees(b: bits, n: nat): (r: Option<Read<seq<nat>>>)
    ensures r.Some? ==> |r.value.value| == n && |r.value.rest| <= |b|
    decreases n
  {
    if n == 0 then Some(Read([], b)) else
    var x := ReadBits(b, 3);
    if x.None? then None else
    var r := ReadThrees(x.value.rest, n - 1);
    if r.None? then None else Some(Read([x.value.value] + r.value.value, r.value.rest))
  }

  /** ... in the order 16, 17, 18, 0, 8, ...; the ones not given are zero. */
  function Place(vals: seq<nat>, k: nat): (lens: seq<nat>)
    requires k <= |vals| <= 19
    ensures |lens| == 19
  {
    if k == 0 then seq(19, _ => 0) else Place(vals, k - 1)[BL_ORDER[k - 1] := vals[k - 1]]
  }

  /** ... and the run-length coded code lengths, until there are `n` of them. */
  function ReadLengths(bl: seq<nat>, b: bits, n: nat, acc: seq<nat>): (r: Option<Read<seq<nat>>>)
    ensures r.Some? ==> |r.value.value| == n && |r.value.rest| <= |b|
    decreases |b|
  {
    if |acc| > n then None
    else if |acc| == n then Some(Read(acc, b))
    else
      var s := ReadSymbol(bl, b);
      if s.None? then None else
      var x := ReadBits(s.value.rest, RunLength.ExtraWidth(s.value.value));
      if x.None? then None else
      var more := RunLength.Expand([RunLength.RunSym(s.value.value, x.value.value)], acc);
      if more.None? then None else ReadLengths(bl, x.value.rest, n, more.value)
  }

  datatype Codes = Codes(ll: seq<nat>, dl: seq<nat>)

  function ReadCodes(b: bits): (r: Option<Read<Codes>>)
    ensures r.Some? ==> |r.value.rest| <= |b|
  {
    var hlit := ReadBits(b, 5);
    if hlit.None? then None else
    var hdist := ReadBits(hlit.value.rest, 5);
    if hdist.None? then None else
    var hclen := ReadBits(hdist.value.rest, 4);
    if hclen.None? || hclen.value.value > 15 then None else
    var threes := ReadThrees(hclen.value.rest, hclen.value.value + 4);
    if threes.None? then None else
    var nl, nd := hlit.value.value + 257, hdist.value.value + 1;
    var lens := ReadLengths(Place(threes.value.value, |threes.value.value|), threes.value.rest, nl + nd, []);
    if lens.None? then None else
    Some(Read(Codes(lens.value.value[..nl], lens.value.value[nl..]), lens.value.rest))
  }

  function ReadBytes(b: bits, n: nat): (r: Option<Read<seq<byte>>>)
    ensures r.Some? ==> |r.value.rest| <= |b|
    decreases n
  {
    if n == 0 then Some(Read([], b))
    else if |b| < 8 then None
    else
      FromBitsBound(b[..8]);
      Pow2Values();
      var r := ReadBytes(b[8..], n - 1);
      if r.None? then None else Some(Read([FromBits(b[..8])] + r.value.value, r.value.rest))
  }

  /** Section 3.2.4: LEN, NLEN and LEN bytes, from a byte boundary on. */
  function ReadVerbatim(b: bits): (r: Option<Read<seq<byte>>>)
    ensures r.Some? ==> |r.value.rest| <= |b|
  {
    var len := ReadBits(b, 16);
    if len.None? then None else
    var nlen := ReadBits(len.value.rest, 16);
    if nlen.None? || nlen.value.value != 0xFFFF - len.value.value then None else
    ReadBytes(nlen.value.rest, len.value.value)
  }

  /** Bits from position `pos` to the next byte boundary. */
  function ToBoundary(pos: nat): nat { (8 - pos % 8) % 8 }

  /** Skip to a byte boundary first.  `b` starts at bit `pos`. */
  function ReadStored(b: bits, pos: nat): (r: Option<Read<seq<byte>>>)
    ensures r.Some? ==> |r.value.rest| <= |b|
  {
    if |b| < ToBoundary(pos) then None else ReadVerbatim(b[ToBoundary(pos)..])
  }

  /** The output after one block, and whether it was the last. */
  datatype Block = Block(out: seq<byte>, final: bool)

  function ReadBlock(b: bits, pos: nat, out: seq<byte>): (r: Option<Read<Block>>)
    ensures r.Some? ==> |r.value.rest| < |b|
  {
    var header := ReadBits(b, 3);
    if header.None? then None else
    var final, btype, body := header.value.value % 2 == 1, header.value.value / 2, header.value.rest;
    if btype == 0 then
      var s := ReadStored(body, pos + 3);
      if s.None? then None else Some(Read(Block(out + s.value.value, final), s.value.rest))
    else if btype == 1 then ReadCompressed(StaticLens(), StaticDistLens(), body, out, final)
    else if btype == 2 then
      var c := ReadCodes(body);
      if c.None? then None else ReadCompressed(c.value.value.ll, c.value.value.dl, c.value.rest, out, final)
    else None
  }

  function ReadCompressed(ll: seq<nat>, dl: seq<nat>, b: bits, out: seq<byte>, final: bool): (r: Option<Read<Block>>)
    ensures r.Some? ==> |r.value.rest| <= |b|
  {
    var ts := ReadTokens(ll, dl, b);
    if ts.None? then None else
    var more := Expand(ts.value.value, out);
    if more.None? then None else Some(Read(Block(more.value, final), ts.value.rest))
  }

  /** A whole stream: blocks up to the final one.  `b` starts at bit `pos`. */
  function InflateFrom(b: bits, pos: nat, out: seq<byte>): (r: Option<Read<seq<byte>>>)
    decreases |b|
  {
    var k := ReadBlock(b, pos, out);
    if k.None? then None
    else if k.value.value.final then Some(Read(k.value.value.out, k.value.rest))
    else InflateFrom(k.value.rest, pos + |b| - |k.value.rest|, k.value.value.out)
  }
}
