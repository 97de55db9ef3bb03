/** The output side of the compressor: a byte buffer flushed to the output file, and the
    32-bit queue of bits that have not filled a word yet. */
module BitQueues {
  import opened Arith
  import opened Bits

  lemma BytesOf16(w: nat)
    requires w < 0x1_0000
    ensures BytesToBits([w % 256, w / 256]) == ToBits(w, 16)
  {
    Pow2Values();
    ToBitsSplit(w % 256, 8, w / 256, 8);
    BytesToBitsOne(w % 256);
    BytesToBitsOne(w / 256);
    BytesToBitsAppend([w % 256], [w / 256]);
    assert [w % 256] + [w / 256] == [w % 256, w / 256];
  }

  lemma BitsOf32(n: nat)
    requires n < 0x1_0000_0000
    ensures ToBits(n, 32) == ToBits(n % 0x1_0000, 16) + ToBits(n / 0x1_0000, 16)
  {
    Pow2Values();
    ToBitsSplit(n % 0x1_0000, 16, n / 0x1_0000, 16);
  }

  /** `v << k` on 32 bits keeps the low `32 - k` bits of `v`. */
  lemma Shl32Keeps(v: nat, k: nat)
    requires k < 32
    ensures Shl32(v, k) == (v % Pow2(32 - k)) * Pow2(k)
  {
    Pow2At32();
    Pow2Add(32 - k, k);
    ModScale(v, Pow2(k), Pow2(32 - k));
  }

  /** Adding `len` bits above `k` queued bits when they fit ... */
  lemma QueueStep(buf: nat, k: nat, v: nat, len: nat)
    requires k + len < 32 && buf < Pow2(k) && v < Pow2(len)
    ensures Or(buf, Shl32(v, k)) < Pow2(k + len)
    ensures ToBits(Or(buf, Shl32(v, k)), k + len) == ToBits(buf, k) + ToBits(v, len)
  {
    hide *;
    Shl32Keeps(v, k);
    Pow2Mono(len, 32 - k);
    SmallMod(v, Pow2(32 - k));
    OrDisjoint(buf, v, k);
    QueueFits(buf, k, v, len);
  }

  /** ... and when they fill the 32-bit word: what is cut off is what the shift down leaves. */
  lemma QueueFull(buf: nat, k: nat, v: nat, len: nat)
    requires k < 32 <= k + len && buf < Pow2(k) && v < Pow2(len)
    ensures Or(buf, Shl32(v, k)) < 0x1_0000_0000
    ensures Shr(v, 32 - k) < Pow2(k + len - 32)
    ensures ToBits(Or(buf, Shl32(v, k)), 32) + ToBits(Shr(v, 32 - k), k + len - 32) == ToBits(buf, k) + ToBits(v, len)
  {
    hide ToBits, Pow2, Or, Shl32;
    var q := Pow2(32 - k);
    Shl32Keeps(v, k);
    OrDisjoint(buf, v % q, k);
    QueueFits(buf, k, v % q, 32 - k);
    Pow2At32();
    Pow2Add(32 - k, k + len - 32);
    DivBound(v, q, Pow2(k + len - 32));
    assert v == v % q + (v / q) * q;
    ToBitsSplit(v % q, 32 - k, v / q, k + len - 32);
  }

  lemma QueueFits(buf: nat, k: nat, v: nat, len: nat)
    requires buf < Pow2(k) && v < Pow2(len)
    ensures buf + v * Pow2(k) < Pow2(k + len)
    ensures ToBits(buf + v * Pow2(k), k + len) == ToBits(buf, k) + ToBits(v, len)
  {
    hide ToBits, Pow2;
    Pow2Add(k, len);
    Distribute(v, 1, Pow2(k));
    MulMono(v + 1, Pow2(len), Pow2(k));
    ToBitsSplit(buf, k, v, len);
  }

  /** Number of zero bits that complete `n` bits to whole bytes. */
  function Padding(n: nat): nat { (8 - n % 8) % 8 }

  lemma PaddingIs(n: nat, taken: nat)
    requires 8 * taken - 8 < n <= 8 * taken
    ensures Padding(n) == 8 * taken - n
  {
  }

  /** One round of the windup loop: the low byte is taken off the queued word. */
  lemma WindupStep(v: nat, n: nat)
    requires 0 < n <= 32 && v < Pow2(n)
    ensures n <= 8 ==> v / 256 == 0 && v % 256 == v && ToBits(v, 8) == ToBits(v, n) + Zeros(8 - n)
    ensures n > 8 ==> v / 256 < Pow2(n - 8) && ToBits(v, n) == ToBits(v % 256, 8) + ToBits(v / 256, n - 8)
  {
    hide ToBits, Pow2, Zeros;
    Pow2Values();
    if n <= 8 {
      Pow2Mono(n, 8);
      ToBitsSplit(v, n, 0, 8 - n);
      ZerosToBits(8 - n);
    } else {
      Pow2Add(8, n - 8);
      DivBound(v, 256, Pow2(n - 8));
      ToBitsSplit(v % 256, 8, v / 256, n - 8);
    }
  }

  /** LEN and NLEN of section 3.2.4 of RFC 1951. */
  function LengthWords(len: nat): bits {
    ToBits(len % 0x1_0000, 16) + ToBits(0xFFFF - len % 0x1_0000, 16)
  }

  lemma StoredHeader(len: nat)
    ensures var v := Or(len % 0x1_0000, Shl32(0xFFFF_FFFF - len % 0x1_0000_0000, 16));
            v < 0x1_0000_0000 && ToBits(v, 32) == LengthWords(len)
  {
    hide Or, Shl32, ToBits;
    var lo, c := len % 0x1_0000, 0xFFFF_FFFF - len % 0x1_0000_0000;
    var hi := 0xFFFF - lo;
    Pow2Values();
    Shl32Keeps(c, 16);
    assert c % 0x1_0000 == hi;
    OrDisjoint(lo, hi, 16);
    assert (lo + hi * 0x1_0000) % 0x1_0000 == lo && (lo + hi * 0x1_0000) / 0x1_0000 == hi;
    BitsOf32(lo + hi * 0x1_0000);
  }

  class BitQueue {
    const outbuf: array<byte>
    const wideStores: bool         // OPTIMIZED_PUT_32BIT
    var outcnt: nat                // bytes in outbuf
    var written: seq<byte>         // bytes handed to the output file
    var biBuf: nat                 // queued bits, unsigned 32-bit
    var biValid: nat               // how many of them

    ghost predicate BufferOk()
      reads this
    {
      outcnt < outbuf.Length && outbuf.Length >= 8
    }

    ghost predicate Valid()
      reads this
    {
      BufferOk() && biValid < 32 && biBuf < Pow2(biValid)
    }

    ghost function Bytes(): seq<byte>
      requires outcnt <= outbuf.Length
      reads this, outbuf
    {
      written + outbuf[..outcnt]
    }

    /** Every bit sent so far. */
    ghost function Sent(): bits
      requires outcnt <= outbuf.Length
      reads this, outbuf
    {
      BytesToBits(Bytes()) + ToBits(biBuf, biValid)
    }

    constructor (outbufSize: nat, wide: bool)
      requires outbufSize >= 8
      ensures Valid() && Sent() == [] && biValid == 0 && fresh(outbuf)
    {
      outbuf := new byte[outbufSize](i => 0);
      wideStores := wide;
      outcnt, written, biBuf, biValid := 0, [], 0, 0;
    }

    method FlushOutbuf()
      requires outcnt <= outbuf.Length && outbuf.Length >= 8
      modifies this`outcnt, this`written
      ensures BufferOk() && outcnt == 0 && Bytes() == old(Bytes())
    {
      if outcnt == 0 {
        assert outbuf[..0] == [];
        return;
      }
      written := written + outbuf[..outcnt];
      outcnt := 0;
    }

    method Put8(c: byte)
      requires BufferOk()
      modifies this`outcnt, this`written, outbuf
      ensures BufferOk() && Bytes() == old(Bytes()) + [c]
    {
      outbuf[outcnt] := c;
      outcnt := outcnt + 1;
      assert outbuf[..outcnt] == old(outbuf[..outcnt]) + [c];
      if outcnt == outbuf.Length {
        FlushOutbuf();
      }
    }

    method Put16(w: nat)
      requires w < 0x1_0000
      requires BufferOk()
      modifies this`outcnt, this`written, outbuf
      ensures BufferOk() && Bytes() == old(Bytes()) + [w % 256, w / 256]
    {
      outbuf[outcnt] := w % 256;
      if outcnt < outbuf.Length - 2 {
        outbuf[outcnt + 1] := w / 256;
        outcnt := outcnt + 2;
        assert outbuf[..outcnt] == old(outbuf[..outcnt]) + [w % 256, w / 256];
        return;
      }
      outcnt := outcnt + 1;
      assert outbuf[..outcnt] == old(outbuf[..outcnt]) + [w % 256];
      if outcnt == outbuf.Length {
        FlushOutbuf();
      }
      Put8(w / 256);
    }

    method Put32(n: nat)
      requires n < 0x1_0000_0000
      requires BufferOk()
      modifies this`outcnt, this`written, outbuf
      ensures BufferOk()
      ensures BytesToBits(Bytes()) == old(BytesToBits(Bytes())) + ToBits(n, 32)
    {
      hide ToBits, BytesToBits;
      BitsOf32(n);
      var lo, hi := n % 0x1_0000, n / 0x1_0000;
      BytesOf16(lo);
      BytesOf16(hi);
      ghost var before := Bytes();
      BytesToBitsAppend(before, [lo % 256, lo / 256]);
      BytesToBitsAppend(before + [lo % 256, lo / 256], [hi % 256, hi / 256]);
      if wideStores && outcnt < outbuf.Length - 4 {
        outbuf[outcnt], outbuf[outcnt + 1] := lo % 256, lo / 256;
        outbuf[outcnt + 2], outbuf[outcnt + 3] := hi % 256, hi / 256;
        outcnt := outcnt + 4;
        assert outbuf[..outcnt] == old(outbuf[..outcnt]) + [lo % 256, lo / 256] + [hi % 256, hi / 256];
        assert Bytes() == before + [lo % 256, lo / 256] + [hi % 256, hi / 256];
        return;
      }
      Put16(lo);
      Put16(hi);
    }

    method SendBits(value: nat, length: nat)
      requires Valid() && length <= 16 && value < Pow2(length)
      modifies this, outbuf
      ensures Valid() && Sent() == old(Sent()) + ToBits(value, length)
    {
      hide ToBits, BytesToBits, Pow2, Or, Shl32, Shr;
      var newBuf := Or(biBuf, Shl32(value, biValid));
      var newLength := length + biValid;
      ghost var bytes, queued := BytesToBits(Bytes()), ToBits(biBuf, biValid);
      assert old(Sent()) + ToBits(value, length) == bytes + (queued + ToBits(value, length));
      if newLength < 32 {
        QueueStep(biBuf, biValid, value, length);
      } else {
        QueueFull(biBuf, biValid, value, length);
        var rest := Shr(value, 32 - biValid);
        Put32(newBuf);
        assert bytes + ToBits(newBuf, 32) + ToBits(rest, newLength - 32)
            == bytes + (ToBits(newBuf, 32) + ToBits(rest, newLength - 32));
        newBuf := rest;
        newLength := newLength - 32;
      }
      biBuf := newBuf;
      biValid := newLength;
    }

    method BiWindup()
      requires Valid()
      modifies this, outbuf
      ensures Valid() && biValid == 0
      ensures Sent() == old(Sent()) + Zeros(Padding(old(biValid)))
      ensures |Sent()| % 8 == 0
    {
      hide ToBits, BytesToBits, Pow2;
      var word: nat, cnt := biBuf, biValid as int;
      ghost var all, taken := Sent(), 0;
      while cnt > 0
        invariant BufferOk() && cnt == old(biValid) - 8 * taken && -8 < cnt <= 32
        invariant cnt > 0 ==> word < Pow2(cnt) && BytesToBits(Bytes()) + ToBits(word, cnt) == all
        invariant cnt <= 0 ==> BytesToBits(Bytes()) == all + Zeros(-cnt)
      {
        ghost var before := BytesToBits(Bytes());
        WindupStep(word, cnt);
        BytesToBitsAppend(Bytes(), [word % 256]);
        BytesToBitsOne(word % 256);
        Put8(word % 256);
        assert cnt > 8 ==> before + ToBits(word, cnt) == before + ToBits(word % 256, 8) + ToBits(word / 256, cnt - 8);
        assert cnt <= 8 ==> before + ToBits(word, cnt) + Zeros(8 - cnt) == before + ToBits(word, 8);
        word := word / 256;
        cnt := cnt - 8;
        taken := taken + 1;
      }
      PaddingIs(old(biValid), taken);
      biBuf, biValid := 0, 0;
    }

    /** Store bytes one by one on a byte boundary. */
    method PutBytes(buf: seq<byte>)
      requires Valid() && biValid == 0
      modifies this`outcnt, this`written, outbuf
      ensures Valid()
      ensures Sent() == old(Sent()) + BytesToBits(buf)
    {
      hide BytesToBits, Pow2;
      var i := 0;
      assert Bytes() == old(Bytes()) + buf[..0];
      while i < |buf|
        invariant 0 <= i <= |buf|
        invariant Valid() && biValid == 0
        invariant Bytes() == old(Bytes()) + buf[..i]
      {
        Put8(buf[i]);
        assert buf[..i + 1] == buf[..i] + [buf[i]];
        i := i + 1;
      }
      assert buf[..|buf|] == buf;
      BytesToBitsAppend(old(Bytes()), buf);
    }

    method PutLengths(len: nat)
      requires Valid() && biValid == 0
      modifies this`outcnt, this`written, outbuf
      ensures Valid()
      ensures Sent() == old(Sent()) + LengthWords(len)
    {
      hide BytesToBits, Pow2, LengthWords, Or, Shl32;
      StoredHeader(len);
      var v := Or(len % 0x1_0000, Shl32(0xFFFF_FFFF - len % 0x1_0000_0000, 16));
      Put32(v);
    }

    /** Send a block of bytes verbatim, after its length and one's complement when `header`. */
    method CopyBlock(buf: seq<byte>, header: bool)
      requires Valid()
      modifies this, outbuf
      ensures Valid() && biValid == 0
      ensures Sent() == old(Sent()) + Zeros(Padding(old(biValid)))
                        + (if header then LengthWords(|buf|) else [])
                        + BytesToBits(buf)
    {
      hide BytesToBits, Pow2, LengthWords, ToBits;
      BiWindup();
      if header {
        PutLengths(|buf|);
      }
      PutBytes(buf);
      if outcnt % 4 != 0 && wideStores {
        FlushOutbuf();
      }
    }
  }
}
