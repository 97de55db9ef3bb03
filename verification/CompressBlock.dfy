/** compress_block: the tokens of a block under a pair of Huffman codes. */
module CompressedBlocks {
  import opened Bits
  import opened BitQueues
  import opened Canonical
  import opened Tables
  import opened Tokens
  import opened Tally
  import opened RunLength

  /** A code tree in its finished state: codes in fc, lengths in dl. */
  class CodeTree {
    const fc: array<nat>
    const dl: array<nat>

    constructor (fc: array<nat>, dl: array<nat>)
      ensures this.fc == fc && this.dl == dl
    {
      this.fc, this.dl := fc, dl;
    }

    ghost predicate Holds(lens: seq<nat>)
      reads fc, dl
    {
      fc != dl && |lens| <= dl.Length && dl[..|lens|] == lens && Coded(fc[..], lens)
    }
  }

  /** Send the code of a symbol that has one. */
  method SendSymbol(bq: BitQueue, tree: CodeTree, ghost lens: seq<nat>, n: nat)
    requires bq.Valid() && tree.Holds(lens) && n < |lens| && lens[n] > 0
    modifies bq, bq.outbuf
    ensures bq.Valid() && bq.Sent() == old(bq.Sent()) + CodeAt(lens, n)
  {
    hide CodeBits, Coded;
    SendCode(bq, tree.fc, tree.dl, lens, n);
  }

  lemma LengthExtraIs(t: Token)
    requires TokenOk(t) && t.Match?
    ensures var c := LengthCode(t.len - 3);
            && c <= 28 && |EXTRA_LBITS| == 29 && EXTRA_LBITS[c] <= 5
            && (if EXTRA_LBITS[c] == 0 then LengthExtra(t) == []
                else c < 28 && 0 <= t.len - 3 - Start(EXTRA_LBITS, c) < Pow2(EXTRA_LBITS[c])
                     && LengthExtra(t) == ToBits(t.len - 3 - Start(EXTRA_LBITS, c), EXTRA_LBITS[c]))
  {
    hide Pow2, Start, ToBits, LengthCode, EXTRA_LBITS;
    TableSizes();
    LengthDecodes(t.len - 3);
    ExtraSmall(LengthCode(t.len - 3));
  }

  lemma DistExtraIs(t: Token)
    requires TokenOk(t) && t.Match?
    ensures var c := DistCode(t.dist - 1);
            && c <= 29 && |EXTRA_DBITS| == 30 && EXTRA_DBITS[c] <= 13
            && (if EXTRA_DBITS[c] == 0 then DistExtra(t) == []
                else 0 <= t.dist - 1 - Start(EXTRA_DBITS, c) < Pow2(EXTRA_DBITS[c])
                     && DistExtra(t) == ToBits(t.dist - 1 - Start(EXTRA_DBITS, c), EXTRA_DBITS[c]))
  {
    hide Pow2, Start, ToBits, DistCode, EXTRA_DBITS;
    TableSizes();
    DistDecodes(t.dist - 1);
    ExtraSmall(DistCode(t.dist - 1));
  }

  /** Length code and extra length bits. */
  method SendLength(bq: BitQueue, tables: CodeTables, ltree: CodeTree, length: nat, ghost t: Token, ghost ll: seq<nat>)
    requires bq.Valid() && tables.Valid() && ltree.Holds(ll)
    requires TokenOk(t) && t.Match? && length == t.len - 3 && LSym(t) < |ll| && ll[LSym(t)] > 0
    modifies bq, bq.outbuf
    ensures bq.Valid() && bq.Sent() == old(bq.Sent()) + CodeAt(ll, LSym(t)) + LengthExtra(t)
  {
    hide Pow2, Start, ToBits, LengthCode, CodeAt, Coded, LengthExtra, EXTRA_LBITS, EXTRA_DBITS, FarDone, DistCode;
    LengthExtraIs(t);
    var lc := length;
    var code := tables.lengthCode[lc];
    SendSymbol(bq, ltree, ll, code + LITERALS + 1);
    var extra := EXTRA_LBITS[code];
    if extra != 0 {
      lc := lc - tables.baseLength[code];
      bq.SendBits(lc, extra);
    }
  }

  /** Distance code and extra distance bits. */
  method SendDistance(bq: BitQueue, tables: CodeTables, dtree: CodeTree, distance: nat, ghost t: Token,
                      ghost dl: seq<nat>)
    requires bq.Valid() && tables.Valid() && dtree.Holds(dl)
    requires TokenOk(t) && t.Match? && distance == t.dist - 1 && DSym(t) < |dl| && dl[DSym(t)] > 0
    modifies bq, bq.outbuf
    ensures bq.Valid() && bq.Sent() == old(bq.Sent()) + CodeAt(dl, DSym(t)) + DistExtra(t)
  {
    hide Pow2, Start, ToBits, DistCode, CodeAt, Coded, DistExtra, EXTRA_DBITS, EXTRA_LBITS, FarDone, LengthCode;
    DistExtraIs(t);
    var dist := distance;
    var code := tables.DCode(dist);
    SendSymbol(bq, dtree, dl, code);
    var extra := EXTRA_DBITS[code];
    if extra != 0 {
      dist := dist - tables.baseDist[code];
      bq.SendBits(dist, extra);
    }
  }

  lemma MatchBits(t: Token, ll: seq<nat>, dl: seq<nat>, sent: bits)
    requires TokenOk(t) && t.Match?
    ensures sent + CodeAt(ll, LSym(t)) + LengthExtra(t) + CodeAt(dl, DSym(t)) + DistExtra(t)
            == sent + TokenBits(t, ll, dl)
  {
    hide CodeAt, LengthExtra, DistExtra, LengthCode, DistCode;
    var a, b, c, d := CodeAt(ll, LSym(t)), LengthExtra(t), CodeAt(dl, DSym(t)), DistExtra(t);
    assert sent + a + b + c + d == sent + (a + b + c + d);
  }

  // ---------------------------------------------------------------- reading the flags back

  /** The flags from token `i` to the end of its group of eight. */
  ghost predicate FlagAt(flag: nat, ts: seq<Token>, i: nat) {
    i <= |ts| && flag == FromBits(Flags(ts, i, if i % 8 == 0 then i else Upto(i / 8, |ts|)))
  }

  lemma FlagLoad(fl: seq<nat>, groups: nat, ts: seq<Token>, i: nat)
    requires FlagsStored(fl, groups, ts) && i < |ts| && i % 8 == 0 && i / 8 < groups
    ensures i / 8 < |fl| && fl[i / 8] == FromBits(Flags(ts, i, Upto(i / 8, |ts|)))
  {
    hide FromBits;
    assert 8 * (i / 8) == i;
  }

  lemma FlagTake(ts: seq<Token>, i: nat, flag: nat)
    requires i < |ts| && flag == FromBits(Flags(ts, i, Upto(i / 8, |ts|)))
    ensures (flag % 2 == 1) == ts[i].Match? && FlagAt(flag / 2, ts, i + 1)
  {
    var end := Upto(i / 8, |ts|);
    var b := Flags(ts, i, end);
    assert i < end;
    assert b[0] == ts[i].Match?;
    assert b[1..] == Flags(ts, i + 1, end);
    assert flag == BitValue(b[0]) + 2 * FromBits(b[1..]);
    if (i + 1) % 8 == 0 {
      assert end == i + 1;
    } else {
      assert (i + 1) / 8 == i / 8;
    }
  }

  /** One item of the buffers. */
  method SendItem(bq: BitQueue, tables: CodeTables, ltree: CodeTree, dtree: CodeTree, isMatch: bool, lc: nat, dist: nat,
                  ghost t: Token, ghost ll: seq<nat>, ghost dl: seq<nat>)
    requires bq.Valid() && tables.Valid() && ltree.Holds(ll) && dtree.Holds(dl)
    requires TokenOk(t) && isMatch == t.Match? && lc == Lc(t) && (t.Match? ==> dist == t.dist - 1)
    requires LSym(t) < |ll| && ll[LSym(t)] > 0 && (t.Match? ==> DSym(t) < |dl| && dl[DSym(t)] > 0)
    modifies bq, bq.outbuf
    ensures bq.Valid() && bq.Sent() == old(bq.Sent()) + TokenBits(t, ll, dl)
  {
    hide Pow2, Coded, CodeAt, TokenBits, LengthCode, DistCode, CodeTables.Valid;
    if !isMatch {
      LiteralBits(t, ll, dl);
      SendSymbol(bq, ltree, ll, lc);
    } else {
      MatchBits(t, ll, dl, bq.Sent());
      SendLength(bq, tables, ltree, lc, t, ll);
      SendDistance(bq, tables, dtree, dist, t, dl);
    }
  }

  /** The flags of the item at `lx`, fetching a new flag byte at the start of a group. */
  method FetchFlag(buf: TokenBuffer, lx: nat, fx0: nat, flag0: nat) returns (fx: nat, flag: nat)
    requires buf.Valid() && FlagsStored(buf.flagBuf[..], (buf.lastLit + 7) / 8, buf.tokens)
    requires lx < buf.lastLit && fx0 == (lx + 7) / 8 && FlagAt(flag0, buf.tokens, lx)
    ensures fx == (lx + 8) / 8 && (flag % 2 == 1) == buf.tokens[lx].Match? && FlagAt(flag / 2, buf.tokens, lx + 1)
  {
    hide FromBits, FlagsStored, FlagAt, DistsStored, LitsStored;
    fx, flag := fx0, flag0;
    if lx % 8 == 0 {
      FlagLoad(buf.flagBuf[..], (buf.lastLit + 7) / 8, buf.tokens, lx);
      flag := buf.flagBuf[fx];
      fx := fx + 1;
    } else {
      FlagMeans(flag, buf.tokens, lx);
    }
    FlagTake(buf.tokens, lx, flag);
  }

  /** Send the block data, then the end-of-block code. */
  method CompressBlock(bq: BitQueue, buf: TokenBuffer, tables: CodeTables, ltree: CodeTree, dtree: CodeTree,
                       ghost ll: seq<nat>, ghost dl: seq<nat>)
    requires bq.Valid() && buf.Valid() && tables.Valid() && ltree.Holds(ll) && dtree.Holds(dl)
    requires FlagsStored(buf.flagBuf[..], (buf.lastLit + 7) / 8, buf.tokens) && Codable(buf.tokens, ll, dl)
    modifies bq, bq.outbuf
    ensures bq.Valid() && bq.Sent() == old(bq.Sent()) + BlockBits(buf.tokens, ll, dl)
  {
    hide Pow2, Coded, CodeAt, TokenBits, FromBits, FlagsStored, LengthCode, DistCode, DistsStored, LitsStored, Codable,
      TokensBits, FlagAt, CodeTables.Valid, CodeTree.Holds, TokenBuffer.FlagsOf;
    ghost var ts := buf.tokens;
    var lx, dx, fx, flag := 0, 0, 0, 0;
    FlagNone(ts);
    NothingYet(ts, ll, dl);
    while lx < buf.lastLit
      invariant 0 <= lx <= |ts| && dx == Matches(ts, lx) && fx == (lx + 7) / 8 && FlagAt(flag, ts, lx)
      invariant bq.Valid() && bq.Sent() == old(bq.Sent()) + TokensBits(ts[..lx], ll, dl)
    {
      fx, flag := FetchFlag(buf, lx, fx, flag);
      ItemAt(buf.lBuf[..], buf.dBuf[..], ts, lx);
      TokensBitsSnoc(ts, lx, ll, dl);
      CodableAt(ts, ll, dl, lx);
      var lc, dist := buf.lBuf[lx], 0;
      if flag % 2 == 1 {
        dist := buf.dBuf[dx];
        dx := dx + 1;
      }
      SendItem(bq, tables, ltree, dtree, flag % 2 == 1, lc, dist, ts[lx], ll, dl);
      flag := flag / 2;
      lx := lx + 1;
    }
    assert ts[..lx] == ts;
    EndCodable(ts, ll, dl);
    SendSymbol(bq, ltree, ll, END_BLOCK);
  }

  lemma NothingYet(ts: seq<Token>, ll: seq<nat>, dl: seq<nat>)
    ensures TokensBits(ts[..0], ll, dl) == []
  {
  }

  lemma FlagMeans(flag: nat, ts: seq<Token>, i: nat)
    requires FlagAt(flag, ts, i) && i % 8 != 0 && i < |ts|
    ensures flag == FromBits(Flags(ts, i, Upto(i / 8, |ts|)))
  {
  }

  lemma CodableAt(ts: seq<Token>, ll: seq<nat>, dl: seq<nat>, i: nat)
    requires Codable(ts, ll, dl) && i < |ts|
    ensures TokenOk(ts[i]) && LSym(ts[i]) < |ll| && ll[LSym(ts[i])] > 0
    ensures ts[i].Match? ==> DSym(ts[i]) < |dl| && dl[DSym(ts[i])] > 0
    ensures ts[i].Literal? ==> LSym(ts[i]) == ts[i].c
  {
  }

  lemma EndCodable(ts: seq<Token>, ll: seq<nat>, dl: seq<nat>)
    requires Codable(ts, ll, dl)
    ensures END_BLOCK < |ll| && ll[END_BLOCK] > 0
  {
  }

  lemma FlagNone(ts: seq<Token>)
    ensures FlagAt(0, ts, 0)
  {
  }

  lemma ItemAt(l: seq<nat>, d: seq<nat>, ts: seq<Token>, i: nat)
    requires LitsStored(l, ts) && DistsStored(d, ts) && i < |ts|
    ensures TokenOk(ts[i]) && i < |l| && l[i] == Lc(ts[i])
    ensures ts[i].Match? ==> Matches(ts, i) < |d| && d[Matches(ts, i)] == ts[i].dist - 1
  {
  }

  lemma LiteralBits(t: Token, ll: seq<nat>, dl: seq<nat>)
    requires TokenOk(t) && t.Literal?
    ensures TokenBits(t, ll, dl) == CodeAt(ll, t.c)
  {
  }
}
