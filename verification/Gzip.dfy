/** zip: a whole gzip member, and the theorem that reading it by RFC 1952 gives the file back. */
module Gzip {
  import opened Bits
  import opened Options
  import opened BitQueues
  import opened BlockCoding
  import opened Windows
  import opened Matching
  import opened Deflating
  import C = Crc32
  import I = Inflate

  // ---------------------------------------------------------------- the format

  const MAGIC: nat := 0x0008_8b1f

  /** Bits of the fixed part of the header. */
  const HEADER: nat := 80

  /** Section 2.3 of RFC 1952: a member without optional parts.  The identification, the compression
      method and the flags come first; time, extra flags and system are ignored.  The blocks follow, and
      on a byte boundary CRC and size, which must be right. */
  ghost function ReadMember(b: bits): Option<I.Read<seq<byte>>> {
    if |b| < HEADER || b[..32] != ToBits(MAGIC, 32) then None
    else
      var r := I.InflateFrom(b[HEADER..], HEADER, []);
      if r.None? then None else ReadTrailer(r.value.value, r.value.rest, |b| - |r.value.rest|)
  }

  /** The end of a member, where `b` starts at bit `pos`. */
  ghost function ReadTrailer(out: seq<byte>, b: bits, pos: int): Option<I.Read<seq<byte>>> {
    var pad := (-pos) % 8;
    if |b| < pad then None else ReadSums(out, b[pad..])
  }

  ghost function ReadSums(out: seq<byte>, b: bits): Option<I.Read<seq<byte>>> {
    if |b| < 64 || b[..32] != ToBits(C.Crc(out), 32) || b[32..64] != ToBits(|out| % C.WORD, 32) then None
    else Some(I.Read(out, b[64..]))
  }

  lemma StreamRead(sent: bits, header: bits, end: nat, out: seq<byte>, t: bits)
    requires |header| == HEADER && Complete(sent, header, end, out)
    ensures I.InflateFrom((sent + t)[HEADER..], HEADER, []) == Some(I.Read(out, Zeros(Padding(end)) + t))
    ensures |sent + t| - |Zeros(Padding(end)) + t| == end && |sent| >= HEADER && (sent + t)[..32] == header[..32]
  {
    hide I.InflateFrom, Padding, Zeros;
    assert sent == sent[..end] + Zeros(Padding(end));
    assert (sent + t)[HEADER..] == sent[HEADER..end] + (Zeros(Padding(end)) + t);
  }

  /** Blocks between a header and a trailer that belongs to them are a member. */
  lemma MemberRead(sent: bits, header: bits, end: nat, out: seq<byte>, rest: bits)
    requires |header| == HEADER && header[..32] == ToBits(MAGIC, 32) && Complete(sent, header, end, out)
    ensures ReadMember(sent + ToBits(C.Crc(out), 32) + ToBits(|out| % C.WORD, 32) + rest) == Some(I.Read(out, rest))
  {
    hide ToBits, I.InflateFrom, C.Crc, Padding, ReadTrailer, Zeros, Complete;
    var crc, size := ToBits(C.Crc(out), 32), ToBits(|out| % C.WORD, 32);
    var t := crc + size + rest;
    assert sent + crc + size + rest == sent + t;
    StreamRead(sent, header, end, out, t);
    TrailerRead(out, end, rest);
  }

  lemma TrailerRead(out: seq<byte>, pos: nat, rest: bits)
    ensures ReadTrailer(out, Zeros(Padding(pos))
              + (ToBits(C.Crc(out), 32) + ToBits(|out| % C.WORD, 32) + rest), pos) == Some(I.Read(out, rest))
  {
    hide ToBits, C.Crc, Padding, Zeros, ReadSums;
    var t := ToBits(C.Crc(out), 32) + ToBits(|out| % C.WORD, 32) + rest;
    PadIs(pos);
    assert (Zeros(Padding(pos)) + t)[Padding(pos)..] == t;
    SumsRead(out, rest);
  }

  lemma PadIs(pos: nat)
    ensures Padding(pos) == -(pos as int) % 8
  {
  }

  lemma SumsRead(out: seq<byte>, rest: bits)
    ensures ReadSums(out, ToBits(C.Crc(out), 32) + ToBits(|out| % C.WORD, 32) + rest) == Some(I.Read(out, rest))
  {
    hide ToBits, C.Crc;
    var a, b := ToBits(C.Crc(out), 32), ToBits(|out| % C.WORD, 32);
    assert (a + b + rest)[..32] == a && (a + b + rest)[32..64] == b && (a + b + rest)[64..] == rest;
  }

  // ---------------------------------------------------------------- the compressor

  /** Compress one file.  `level9` asks for the flag of the slowest level. */
  method Zip(outbufSize: nat, wideStores: bool, litSize: nat, distSize: nat, hashBits: nat, maxChain: nat, maxLazy: nat,
             goodMatch: nat, niceMatch: nat, level9: bool, chunks: seq<seq<byte>>)
    returns (output: seq<byte>)
    requires outbufSize >= 8 && litSize % 8 == 0 && 8 <= litSize <= 0x8000 && 1 <= distSize
    requires 8 <= hashBits <= 15 && 4 <= maxChain && maxLazy <= MAX_COMMON && niceMatch <= MAX_COMMON
    ensures forall rest: bits :: ReadMember(BytesToBits(output) + rest) == Some(I.Read(Content(chunks), rest))
  {
    hide BlockCoder.Ok, BlockCoder.Aligned, BlockCoder.Room, BlockCoder.Pending, BlockCoder.SentBits, Complete,
      SentAsOne, ToBits, BytesToBits, Content, C.TableOk, C.Register, C.Crc, ReadMember;
    var table := new nat[256];
    C.FillTable(table);
    var c := NewCoder(outbufSize, wideStores, litSize, distSize);
    WriteHeader(c, level9);
    ghost var header := c.SentBits();
    ghost var end;
    var crc, isize;
    crc, isize, end := Compress(c, hashBits, maxChain, maxLazy, goodMatch, niceMatch, chunks, table);
    ghost var sent, out := c.SentBits(), Content(chunks);
    C.RegisterFits(C.ONES, out);
    C.CrcIs(out);
    c.PutWord(0xFFFF_FFFF - crc);
    c.PutWord(isize);
    output := c.FlushOut();
    forall rest: bits ensures ReadMember(BytesToBits(output) + rest) == Some(I.Read(out, rest)) {
      MemberRead(sent, header, end, out, rest);
    }
  }

  method WriteHeader(c: BlockCoder, level9: bool)
    requires c.Ok() && c.Aligned() && c.Room() && c.SentBits() == []
    modifies c.region
    ensures c.Ok() && c.Aligned() && c.Room() && c.Pending() == old(c.Pending())
    ensures |c.SentBits()| == HEADER && c.SentBits()[..32] == ToBits(MAGIC, 32)
  {
    hide BlockCoder.Ok, BlockCoder.Aligned, BlockCoder.Room, BlockCoder.Pending, BlockCoder.SentBits, ToBits;
    c.PutWord(0x0008_8b1f);
    c.PutWord(0);
    c.PutHalf(if level9 then 0x302 else 0x300);
  }
}
