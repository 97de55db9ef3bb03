/** The three encodings of a block, bit by bit, and what flush_block promises about its choice. */
module BlockEncodings {
  import opened Bits
  import opened Options
  import opened BitQueues
  import opened Canonical
  import opened Tables
  import opened Tokens
  import opened StaticTrees
  import opened BlockTrees
  import opened InflateRoundTrip
  import opened BlockChoice
  import RL = RunLength
  import I = Inflate

  // ---------------------------------------------------------------- the encodings

  function StoredBits(eof: bool, pos: nat, data: seq<byte>): bits {
    ToBits(BitValue(eof), 3) + Zeros(Padding(pos + 3)) + LengthWords(|data|) + BytesToBits(data)
  }

  /** A decoder at bit `pos` that has produced `out` gets to `more` by reading `block`. */
  ghost predicate Decodes(block: bits, pos: nat, out: seq<byte>, more: seq<byte>, eof: bool) {
    forall rest: bits :: I.ReadBlock(block + rest, pos, out) == Some(I.Read(I.Block(more, eof), rest))
  }

  lemma StoredDecodes(data: seq<byte>, pos: nat, eof: bool, out: seq<byte>)
    requires |data| < 0x1_0000
    ensures Decodes(StoredBits(eof, pos, data), pos, out, out + data, eof)
    ensures |StoredBits(eof, pos, data)| == SizeOf(Stored, pos, |data|, 0, 0)
  {
    hide ToBits, I.ReadBlock, Zeros, Padding;
    var a, z, w, s := ToBits(BitValue(eof), 3), Zeros(Padding(pos + 3)), LengthWords(|data|), BytesToBits(data);
    forall rest: bits
      ensures I.ReadBlock(StoredBits(eof, pos, data) + rest, pos, out) == Some(I.Read(I.Block(out + data, eof), rest))
    {
      assert StoredBits(eof, pos, data) + rest == a + (z + w + s + rest);
      StoredBlockRead(data, pos, eof, rest, out);
    }
  }

  lemma StaticDecodes(ts: seq<Token>, pos: nat, eof: bool, out: seq<byte>, more: seq<byte>)
    requires TokensOk(ts) && Expand(ts, out) == Some(more)
    ensures Decodes(ToBits(2 + BitValue(eof), 3) + BlockBits(ts, StaticLens(), StaticDistLens()), pos, out, more, eof)
  {
    hide ToBits, I.ReadBlock, BlockBits, StaticLens, StaticDistLens, Codable, Expand;
    StaticCodable(ts);
    var a, b := ToBits(2 + BitValue(eof), 3), BlockBits(ts, StaticLens(), StaticDistLens());
    forall rest: bits ensures I.ReadBlock(a + b + rest, pos, out) == Some(I.Read(I.Block(more, eof), rest)) {
      assert a + b + rest == a + (b + rest);
      StaticBlockRead(ts, pos, eof, rest, out, more);
    }
  }

  lemma DynamicDecodes(ts: seq<Token>, ll: seq<nat>, dl: seq<nat>, bl: seq<nat>, nbl: nat,
                       pos: nat, eof: bool, out: seq<byte>, more: seq<byte>)
    requires HeaderOk(ll, dl, bl, nbl) && GoodCodes(ll, dl) && Codable(ts, ll, dl) && Expand(ts, out) == Some(more)
    ensures Decodes(ToBits(4 + BitValue(eof), 3)
              + (CodesBits(ll, dl, bl, nbl) + BlockBits(ts, ll, dl)), pos, out, more, eof)
  {
    hide ToBits, I.ReadBlock, BlockBits, CodesBits, HeaderOk, GoodCodes, Codable, Expand;
    HeaderFacts(ll, dl, bl, nbl);
    TokensAreOk(ts, ll, dl);
    var a, c, b := ToBits(4 + BitValue(eof), 3), CodesBits(ll, dl, bl, nbl), BlockBits(ts, ll, dl);
    forall rest: bits ensures I.ReadBlock(a + (c + b) + rest, pos, out) == Some(I.Read(I.Block(more, eof), rest)) {
      assert a + (c + b) + rest == a + (c + (b + rest));
      DynamicBlockRead(ts, ll, dl, bl, nbl, pos, eof, rest, out, more);
    }
  }

  lemma TokensAreOk(ts: seq<Token>, ll: seq<nat>, dl: seq<nat>)
    requires Codable(ts, ll, dl)
    ensures TokensOk(ts)
  {
  }

  lemma StaticCodable(ts: seq<Token>)
    requires TokensOk(ts)
    ensures Codable(ts, StaticLens(), StaticDistLens())
  {
    hide LengthCode, DistCode;
  }

  lemma HeaderFacts(ll: seq<nat>, dl: seq<nat>, bl: seq<nat>, nbl: nat)
    requires HeaderOk(ll, dl, bl, nbl)
    ensures 257 <= |ll| <= 286 && 1 <= |dl| <= 30 && |bl| == 19 && 4 <= nbl <= 19
    ensures Bounded(ll, 15) && Bounded(dl, 15) && Bounded(bl, 7)
    ensures RL.AllCoded(bl, RL.RunCode(ll)) && RL.AllCoded(bl, RL.RunCode(dl))
  {
    hide RL.Runs, Bounded, RL.AllCoded;
  }

  lemma CodesSize(ll: seq<nat>, dl: seq<nat>, bl: seq<nat>, nbl: nat)
    requires 257 <= |ll| && 1 <= |dl| && |bl| == 19 && 4 <= nbl <= 19
    ensures |CodesBits(ll, dl, bl, nbl)|
            == 14 + 3 * nbl + |RL.RunBits(bl, RL.RunCode(ll))| + |RL.RunBits(bl, RL.RunCode(dl))|
  {
    hide RL.RunBits, RL.Runs, Threes, ThreesBits, ToBits;
    ThreesSize(Threes(bl, nbl));
  }

  lemma {:induction false} ThreesSize(vals: seq<nat>)
    ensures |ThreesBits(vals)| == 3 * |vals|
    decreases |vals|
  {
    if vals != [] { ThreesSize(vals[1..]); }
  }

  // ---------------------------------------------------------------- the trees of a block

  /** The lengths of both codes, those of the code length codes, and how many of these are sent. */
  datatype Trees = Trees(ll: seq<nat>, dl: seq<nat>, bl: seq<nat>, nbl: nat)

  /** Trees that can encode `ts`, with codes for no other symbols but the forced ones. */
  ghost predicate TreesOk(ts: seq<Token>, t: Trees) {
    && Codable(ts, t.ll, t.dl) && GoodCodes(t.ll, t.dl) && HeaderOk(t.ll, t.dl, t.bl, t.nbl)
    && ExactCode(t.ll, LSyms(ts)) && ExactCode(t.dl, DSyms(ts))
  }

  /** Bits of a dynamic block after the 3 bits of its header. */
  ghost function DynamicBits(ts: seq<Token>, t: Trees): bits
    requires TreesOk(ts, t)
  {
    CodesBits(t.ll, t.dl, t.bl, t.nbl) + BlockBits(ts, t.ll, t.dl)
  }

  /** The whole block. */
  ghost function Encoding(kind: BlockKind, eof: bool, pos: nat, data: seq<byte>, ts: seq<Token>, t: Trees): bits
    requires TreesOk(ts, t)
  {
    match kind
    case Stored => StoredBits(eof, pos, data)
    case Static => ToBits(2 + BitValue(eof), 3) + BlockBits(ts, StaticLens(), StaticDistLens())
    case Dynamic => ToBits(4 + BitValue(eof), 3) + DynamicBits(ts, t)
  }

  /** The sizes that the choice works with are the sizes of the encodings. */
  lemma EncodingSize(kind: BlockKind, eof: bool, pos: nat, data: seq<byte>, ts: seq<Token>, t: Trees)
    requires TreesOk(ts, t)
    ensures |Encoding(kind, eof, pos, data, ts, t)| == SizeOf(kind, pos, |data|, |DynamicBits(ts, t)|, StaticSize(ts))
  {
    hide TreesOk, DynamicBits, BlockBits, StaticLens, StaticDistLens, Padding, Zeros;
  }

  lemma EncodingDecodes(kind: BlockKind, eof: bool, pos: nat, data: seq<byte>, ts: seq<Token>, t: Trees,
                        out: seq<byte>, more: seq<byte>)
    requires TreesOk(ts, t) && Expand(ts, out) == Some(more)
    requires kind.Stored? ==> more == out + data && |data| < 0x1_0000
    ensures Decodes(Encoding(kind, eof, pos, data, ts, t), pos, out, more, eof)
  {
    hide Decodes, ToBits, StoredBits, BlockBits, CodesBits, StaticLens, StaticDistLens, Expand, HeaderOk, GoodCodes,
      Codable, ExactCode;
    match kind
    case Stored => StoredDecodes(data, pos, eof, out);
    case Static =>
      TokensAreOk(ts, t.ll, t.dl);
      StaticDecodes(ts, pos, eof, out, more);
    case Dynamic => DynamicDecodes(ts, t.ll, t.dl, t.bl, t.nbl, pos, eof, out, more);
  }

  /** What flush_block sends for the tokens `ts` of a block of `storedLen` bytes. */
  ghost predicate Flushed(kind: BlockKind, block: bits, eof: bool, pos: nat, data: Option<seq<byte>>, storedLen: nat,
                          ts: seq<Token>, t: Trees) {
    && TreesOk(ts, t) && (data.Some? ==> |data.value| == storedLen)
    && kind == Choice(data.Some?, storedLen, |DynamicBits(ts, t)|, StaticSize(ts))
    && block == Encoding(kind, eof, pos, data.GetOr([]), ts, t)
  }
}
