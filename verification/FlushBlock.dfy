/** flush_block: choose the encoding of the current block and send it. */
module BlockCoding {
  import opened Bits
  import opened Options
  import opened Sums
  import opened BitQueues
  import opened Canonical
  import opened Tables
  import opened Tokens
  import opened Tally
  import opened Huffman
  import opened Levels
  import opened BitLengths
  import opened TreeBuilding
  import opened StaticTrees
  import opened CompressedBlocks
  import opened BlockTrees
  import opened InflateRoundTrip
  import opened BlockChoice
  import opened BlockEncodings
  import RL = RunLength

  /** The descriptors have the parameters that pack_gzip gives them. */
  ghost predicate DescsOk(tb: TreeBuilder, ld: TreeDesc, dd: TreeDesc, bd: TreeDesc) {
    && ld.Shape() && ld.elems == L_CODES && ld.maxLength == MAX_BITS && ld.staticLens == StaticLens()
    && ld.extraBits == EXTRA_LBITS && ld.extraBase == LITERALS + 1
    && dd.Shape() && dd.elems == D_CODES && dd.maxLength == MAX_BITS && dd.staticLens == StaticDistLens()
    && dd.extraBits == EXTRA_DBITS && dd.extraBase == 0
    && bd.Shape() && bd.elems == BL_CODES && bd.maxLength == 7 && bd.staticLens == []
    && bd.extraBits == EXTRA_BLBITS && bd.extraBase == 0
    && ld != dd && ld != bd && dd != bd
    && tb.Shape() && tb.Apart(ld) && tb.Apart(dd) && tb.Apart(bd)
    && {ld.fc, ld.dl} !! {dd.fc, dd.dl} && {ld.fc, ld.dl} !! {bd.fc, bd.dl} && {dd.fc, dd.dl} !! {bd.fc, bd.dl}
  }

  ghost function TreeArrays(tb: TreeBuilder, ld: TreeDesc, dd: TreeDesc, bd: TreeDesc): set<array<nat>> {
    {tb.heap, tb.depth, tb.blCount, ld.fc, ld.dl, dd.fc, dd.dl, bd.fc, bd.dl}
  }

  ghost function FixedArrays(tables: CodeTables, sl: CodeTree, sd: CodeTree): set<array<nat>> {
    {tables.lengthCode, tables.baseLength, tables.distCode, tables.baseDist, sl.fc, sl.dl, sd.fc, sd.dl}
  }

  method NewTrees() returns (tb: TreeBuilder, ld: TreeDesc, dd: TreeDesc, bd: TreeDesc)
    ensures DescsOk(tb, ld, dd, bd) && fresh(TreeArrays(tb, ld, dd, bd)) && fresh({tb}) && fresh({ld, dd, bd})
    ensures fresh(tb.blCount) && fresh(ld.fc) && fresh(dd.fc) && fresh(bd.fc)
    ensures forall b :: 0 <= b <= MAX_BITS ==> tb.blCount[b] == 0
  {
    hide StaticLens, StaticDistLens, EXTRA_LBITS, EXTRA_DBITS, EXTRA_BLBITS, Pow2;
    tb := new TreeBuilder();
    ld := new TreeDesc(HEAP_SIZE, StaticLens(), EXTRA_LBITS, LITERALS + 1, L_CODES, MAX_BITS);
    dd := new TreeDesc(2 * D_CODES + 1, StaticDistLens(), EXTRA_DBITS, 0, D_CODES, MAX_BITS);
    bd := new TreeDesc(2 * BL_CODES + 1, [], EXTRA_BLBITS, 0, BL_CODES, 7);
    LiteralShape(ld);
    DistanceShape(dd);
    LengthShape(bd);
  }

  method NewStaticTrees() returns (sl: CodeTree, sd: CodeTree)
    ensures sl.fc != sl.dl && sd.fc != sd.dl && {sl.fc, sl.dl} !! {sd.fc, sd.dl}
    ensures sl.fc.Length == 288 && sl.dl.Length == 288 && sd.fc.Length == 30 && sd.dl.Length == 30
    ensures fresh({sl.fc, sl.dl, sd.fc, sd.dl})
  {
    var lfc := new nat[L_CODES + 2](_ => 0);
    var ldl := new nat[L_CODES + 2](_ => 0);
    var dfc := new nat[D_CODES](_ => 0);
    var ddl := new nat[D_CODES](_ => 0);
    sl := new CodeTree(lfc, ldl);
    sd := new CodeTree(dfc, ddl);
  }

  /** Sizes of the static encoding, from the static lengths. */
  lemma StaticBitsAre(ld: TreeDesc, dd: TreeDesc, ts: seq<Token>, lf: seq<nat>, df: seq<nat>)
    requires FreqsOk(lf, df, ts)
    requires ld.elems == L_CODES && ld.extraBase == LITERALS + 1
    requires ld.extraBits == EXTRA_LBITS && ld.staticLens == StaticLens()
    requires dd.elems == D_CODES && dd.extraBase == 0
    requires dd.extraBits == EXTRA_DBITS && dd.staticLens == StaticDistLens()
    ensures ld.BitsOf(Used(lf, L_CODES), lf, Of(ld.staticLens)) + dd.BitsOf(Used(df, D_CODES), df, Of(dd.staticLens))
            == |BlockBits(ts, StaticLens(), StaticDistLens())|
  {
    hide FreqsOk, SumTo, Used, TreeDesc.BitsOf, StaticLens, StaticDistLens, LTerm, DTerm, BlockBits, EXTRA_LBITS,
      EXTRA_DBITS;
    FreqsBounds(lf, df, ts);
    LBitsAre(ld, ts, lf, df, StaticLens(), Of(ld.staticLens));
    DBitsAre(dd, ts, lf, df, StaticDistLens(), Of(dd.staticLens));
    BlockSize(ts, StaticLens(), StaticDistLens());
  }

  lemma DynamicBitsAre(ld: TreeDesc, dd: TreeDesc, ts: seq<Token>, lf: seq<nat>, df: seq<nat>,
                       lfc: seq<nat>, ldl: seq<nat>, lmax: int, dfc: seq<nat>, ddl: seq<nat>, dmax: int)
    requires FreqsOk(lf, df, ts)
    requires ld.elems == L_CODES && ld.extraBase == LITERALS + 1 && ld.extraBits == EXTRA_LBITS
    requires dd.elems == D_CODES && dd.extraBase == 0 && dd.extraBits == EXTRA_DBITS
    requires Finished(lfc, ldl, lmax, lf, L_CODES, MAX_BITS) && Finished(dfc, ddl, dmax, df, D_CODES, MAX_BITS)
    ensures ld.BitsOf(Used(lf, L_CODES), lf, Of(ldl)) + dd.BitsOf(Used(df, D_CODES), df, Of(ddl))
            == |BlockBits(ts, ldl[..lmax + 1], ddl[..dmax + 1])|
  {
    hide FreqsOk, SumTo, Used, TreeDesc.BitsOf, LTerm, DTerm, BlockBits, EXTRA_LBITS, EXTRA_DBITS, KraftOk, Bounded,
      RL.Coded;
    FreqsBounds(lf, df, ts);
    LBitsAre(ld, ts, lf, df, ldl[..lmax + 1], Of(ldl));
    DBitsAre(dd, ts, lf, df, ddl[..dmax + 1], Of(ddl));
    BlockSize(ts, ldl[..lmax + 1], ddl[..dmax + 1]);
  }

  // ---------------------------------------------------------------- the bit length tree

  /** The frequencies that two scans leave in the bit length tree. */
  ghost predicate BlFreqs(f0: seq<nat>, ll: seq<nat>, dl: seq<nat>) {
    |f0| >= BL_CODES && forall s :: 0 <= s < BL_CODES ==>
      f0[s] == RL.CountSym(RL.RunCode(ll), s) + RL.CountSym(RL.RunCode(dl), s)
  }

  lemma BlCounts(f0: seq<nat>, ll: seq<nat>, dl: seq<nat>)
    requires BlFreqs(f0, ll, dl)
    ensures forall s :: 0 <= s < BL_CODES ==> f0[s] == RL.CountSym(RL.RunCode(ll) + RL.RunCode(dl), s)
  {
    hide RL.CountSym, RL.Runs;
    forall s | 0 <= s < BL_CODES { RL.CountSymAppend(RL.RunCode(ll), RL.RunCode(dl), s); }
  }

  lemma RunCodeShort(lens: seq<nat>)
    requires Bounded(lens, 15)
    ensures |RL.RunCode(lens)| <= |lens| && RL.SymsOk(RL.RunCode(lens))
  {
    hide RL.Expand, RL.Runs, Bounded;
    RL.RoundTrip(lens, [], []);
    assert RL.RunCode(lens) + [] == RL.RunCode(lens) && [] + lens == lens;
    ExpandNone(lens);
    ExpandGrows(RL.RunCode(lens), []);
  }

  lemma BlFits(f0: seq<nat>, ll: seq<nat>, dl: seq<nat>)
    requires BlFreqs(f0, ll, dl) && Bounded(ll, 15) && Bounded(dl, 15) && |ll| + |dl| <= 316
    ensures SumTo(BL_CODES, Itself(Of(f0))) < 0x1_0000 - 2
  {
    hide RL.CountSym, RL.Runs, SumTo, Bounded;
    BlCounts(f0, ll, dl);
    RunCodeShort(ll);
    RunCodeShort(dl);
    var syms := RL.RunCode(ll) + RL.RunCode(dl);
    SymTotal(syms);
    SumToExt(BL_CODES, SymCount(syms), Itself(Of(f0)));
  }

  lemma BlExtra(bd: TreeDesc, s: nat)
    requires bd.extraBits == EXTRA_BLBITS && bd.extraBase == 0 && s < BL_CODES
    ensures bd.Extra(s) == RL.ExtraWidth(s)
  {
  }

  lemma BlBits(bd: TreeDesc, f0: seq<nat>, bdl: seq<nat>, ll: seq<nat>, dl: seq<nat>)
    requires bd.elems == BL_CODES && bd.extraBits == EXTRA_BLBITS && bd.extraBase == 0 && |bdl| >= BL_CODES
    requires BlFreqs(f0, ll, dl) && Bounded(ll, 15) && Bounded(dl, 15)
    ensures bd.BitsOf(Used(f0, BL_CODES), f0, Of(bdl))
            == |RL.RunBits(bdl[..BL_CODES], RL.RunCode(ll))| + |RL.RunBits(bdl[..BL_CODES], RL.RunCode(dl))|
  {
    hide RL.CountSym, RL.Runs, SumTo, Bounded, RL.RunBits, Used, RL.ExtraWidth, TreeDesc.Extra, EXTRA_BLBITS,
      TreeDesc.BitsOf;
    var bl, syms := bdl[..BL_CODES], RL.RunCode(ll) + RL.RunCode(dl);
    BlCounts(f0, ll, dl);
    RunCodeShort(ll);
    RunCodeShort(dl);
    forall s: nat | s < BL_CODES { BlExtra(bd, s); }
    BitsAreSum(bd, f0, Of(bdl), RunTerm(syms, bl));
    RunSize(bl, syms);
    RL.RunBitsAppend(bl, RL.RunCode(ll), RL.RunCode(dl));
  }

  /** The tree built for those frequencies has a code for every symbol of both tables. */
  lemma BlCoded(bfc: seq<nat>, bdl: seq<nat>, bmax: int, f0: seq<nat>, ll: seq<nat>, dl: seq<nat>)
    requires Finished(bfc, bdl, bmax, f0, BL_CODES, 7) && BlFreqs(f0, ll, dl) && Bounded(ll, 15) && Bounded(dl, 15)
    ensures var bl := bdl[..BL_CODES];
            && RL.Coded(bfc, bl) && Bounded(bl, 7) && KraftOk(bl, MAX_BITS)
            && RL.AllCoded(bl, RL.RunCode(ll)) && RL.AllCoded(bl, RL.RunCode(dl))
  {
    hide RL.CountSym, RL.Runs, Bounded, KraftOk, RL.Coded;
    var bl := bdl[..BL_CODES];
    var a, b := RL.RunCode(ll), RL.RunCode(dl);
    RunCodeShort(ll);
    RunCodeShort(dl);
    forall i | 0 <= i < |a| ensures a[i].sym < BL_CODES && bl[a[i].sym] > 0 {
      CountPositive(a, i);
      assert RL.SymOk(a[i]);
    }
    forall i | 0 <= i < |b| ensures b[i].sym < BL_CODES && bl[b[i].sym] > 0 {
      CountPositive(b, i);
      assert RL.SymOk(b[i]);
    }
    PaddedTree(bfc, bdl[..bmax + 1], bl, 7);
  }

  /** Some code length from 1 to 15 is used, so at least four code lengths are sent. */
  lemma BlEnough(bl: seq<nat>, ll: seq<nat>, n: nat) returns (rank: nat)
    requires |bl| == BL_CODES && Bounded(ll, 15) && n < |ll| && ll[n] > 0 && RL.AllCoded(bl, RL.RunCode(ll))
    ensures 3 <= rank < 19 && BL_ORDER[rank] < 19 && bl[BL_ORDER[rank]] > 0
  {
    hide RL.Runs, Bounded;
    var i := SomeLength(ll, n);
    var s := RL.RunCode(ll)[i].sym;
    RankIs(s);
    rank := RANK[s];
  }

  class BlockCoder {
    const bq: BitQueue
    const tb: TreeBuilder
    const ld: TreeDesc          // l_desc
    const dd: TreeDesc          // d_desc
    const bd: TreeDesc          // bl_desc
    const tables: CodeTables
    const buf: TokenBuffer
    const sl: CodeTree          // static_ltree
    const sd: CodeTree          // static_dtree
    ghost const region: set<object>   // every object that the coder reads or writes

    ghost predicate Descs() { DescsOk(tb, ld, dd, bd) }

    /** Construct the literal and distance trees. */
    method BuildDataTrees(ghost ts: seq<Token>)
      requires Descs() && FreqsOk(ld.fc[..], dd.fc[..], ts) && |ts| < 0x8000
      requires tb.optLen == 0 && tb.staticLen == 0
      modifies tb, tb.heap, tb.depth, tb.blCount, ld`maxCode, ld.fc, ld.dl, dd`maxCode, dd.fc, dd.dl
      ensures Finished(ld.fc[..], ld.dl[..], ld.maxCode, old(ld.fc[..]), L_CODES, MAX_BITS)
      ensures Finished(dd.fc[..], dd.dl[..], dd.maxCode, old(dd.fc[..]), D_CODES, MAX_BITS)
      ensures tb.optLen == Word(|BlockBits(ts, ld.dl[..ld.maxCode + 1], dd.dl[..dd.maxCode + 1])|)
      ensures tb.staticLen == Word(|BlockBits(ts, StaticLens(), StaticDistLens())|)
    {
      hide FreqsOk, Finished, Pow2, SumTo, CodedSymbols, GoodLengths, CodesHeld, ZeroAbove, LeastCost, TreeDesc.BitsOf,
        Word, Used, BlockBits, StaticLens, StaticDistLens, EXTRA_LBITS, EXTRA_DBITS, EXTRA_BLBITS;
      ghost var lf: seq<nat>, df: seq<nat> := ld.fc[..], dd.fc[..];
      FrequenciesFit(ts, lf, df);
      WordSmall(0);
      var overflow;
      ghost var leaves;
      overflow, leaves := BuildTree(tb, ld);
      FinishedFrom(ld.fc[..], ld.dl[..], ld.maxCode, lf, L_CODES, MAX_BITS, tb.blCount[..], leaves);
      WordSmall(tb.optLen);
      WordSmall(tb.staticLen);
      ghost var opt1, stat1 := ld.BitsOf(Used(lf, L_CODES), lf, Of(ld.dl[..])),
        ld.BitsOf(Used(lf, L_CODES), lf, Of(ld.staticLens));
      assert tb.optLen == Word(opt1) && tb.staticLen == Word(stat1);
      WordBound(opt1);
      WordBound(stat1);
      overflow, leaves := BuildTree(tb, dd);
      FinishedFrom(dd.fc[..], dd.dl[..], dd.maxCode, df, D_CODES, MAX_BITS, tb.blCount[..], leaves);
      WordAdd(opt1, dd.BitsOf(Used(df, D_CODES), df, Of(dd.dl[..])));
      WordAdd(stat1, dd.BitsOf(Used(df, D_CODES), df, Of(dd.staticLens)));
      DynamicBitsAre(ld, dd, ts, lf, df, ld.fc[..], ld.dl[..], ld.maxCode, dd.fc[..], dd.dl[..], dd.maxCode);
      StaticBitsAre(ld, dd, ts, lf, df);
    }

    /** The frequencies of the code length symbols of both trees. */
    method ScanTrees(ghost ll: seq<nat>, ghost dl: seq<nat>)
      requires Descs() && 0 <= ld.maxCode < L_CODES && 0 <= dd.maxCode < D_CODES
      requires ll == ld.dl[..ld.maxCode + 1] && dl == dd.dl[..dd.maxCode + 1] && Bounded(ll, 15) && Bounded(dl, 15)
      requires forall s :: 0 <= s < BL_CODES ==> bd.fc[s] == 0
      modifies ld.dl, dd.dl, bd.fc
      ensures BlFreqs(bd.fc[..], ll, dl)
      ensures ld.dl[..] == old(ld.dl[..])[ld.maxCode + 1 := RL.GUARD]
      ensures dd.dl[..] == old(dd.dl[..])[dd.maxCode + 1 := RL.GUARD]
    {
      hide RL.CountSym, RL.Runs, Bounded, StaticLens, StaticDistLens, EXTRA_LBITS, EXTRA_DBITS, EXTRA_BLBITS, Pow2;
      RL.ScanTree(ld.dl, ld.maxCode, bd.fc);
      RL.ScanTree(dd.dl, dd.maxCode, bd.fc);
    }

    /** The last rank whose code length code is used. */
    method LastRank(ghost ll: seq<nat>, ghost n: nat) returns (maxBlIndex: nat)
      requires Descs() && Bounded(ll, 15) && n < |ll| && ll[n] > 0 && RL.AllCoded(bd.dl[..BL_CODES], RL.RunCode(ll))
      ensures 3 <= maxBlIndex <= 18 && ZeroFrom(bd.dl[..BL_CODES], maxBlIndex + 1)
    {
      hide RL.Runs, Bounded, BL_ORDER, StaticLens, StaticDistLens, EXTRA_LBITS, EXTRA_DBITS, EXTRA_BLBITS, Pow2;
      OrderSizes();
      ghost var rank := BlEnough(bd.dl[..BL_CODES], ll, n);
      maxBlIndex := 18;
      while maxBlIndex >= 3
        invariant rank <= maxBlIndex <= 18
        invariant ZeroFrom(bd.dl[..BL_CODES], maxBlIndex + 1)
      {
        OrderIs(maxBlIndex);
        if bd.dl[BL_ORDER[maxBlIndex]] != 0 { break; }
        maxBlIndex := maxBlIndex - 1;
      }
    }

    /** Construct the tree of the code lengths; returns the rank of the last length to send. */
    method BuildBlTree(ghost ll: seq<nat>, ghost dl: seq<nat>) returns (maxBlIndex: nat)
      requires Descs() && 256 <= ld.maxCode < L_CODES && 0 <= dd.maxCode < D_CODES && |ll| > 256 && ll[256] > 0
      requires ll == ld.dl[..ld.maxCode + 1] && dl == dd.dl[..dd.maxCode + 1] && Bounded(ll, 15) && Bounded(dl, 15)
      requires forall s :: 0 <= s < BL_CODES ==> bd.fc[s] == 0
      requires tb.optLen < 0x1_0000_0000 && tb.staticLen < 0x1_0000_0000
      modifies tb, tb.heap, tb.depth, tb.blCount, ld.dl, dd.dl, bd`maxCode, bd.fc, bd.dl
      ensures HeaderOk(ll, dl, bd.dl[..BL_CODES], maxBlIndex + 1) && RL.Coded(bd.fc[..], bd.dl[..BL_CODES])
      ensures tb.optLen == Word(old(tb.optLen) + |CodesBits(ll, dl, bd.dl[..BL_CODES], maxBlIndex + 1)|)
      ensures tb.staticLen == old(tb.staticLen)
      ensures ld.dl[..] == old(ld.dl[..])[ld.maxCode + 1 := RL.GUARD]
      ensures dd.dl[..] == old(dd.dl[..])[dd.maxCode + 1 := RL.GUARD]
    {
      hide RL.Runs, Bounded, StaticLens, StaticDistLens, EXTRA_LBITS, EXTRA_DBITS, EXTRA_BLBITS, Pow2, RL.Coded,
        BlFreqs, RL.RunBits, Finished, CodedSymbols, GoodLengths, CodesHeld, ZeroAbove, LeastCost, TreeDesc.BitsOf,
        Used, CodesBits, Word, SumTo, KraftOk, RL.AllCoded, ZeroFrom;
      ScanTrees(ll, dl);
      ghost var f0: seq<nat> := bd.fc[..];
      BlFits(f0, ll, dl);
      var overflow;
      ghost var leaves;
      overflow, leaves := BuildTree(tb, bd);
      FinishedFrom(bd.fc[..], bd.dl[..], bd.maxCode, f0, BL_CODES, 7, tb.blCount[..], leaves);
      BlCoded(bd.fc[..], bd.dl[..], bd.maxCode, f0, ll, dl);
      BlBits(bd, f0, bd.dl[..], ll, dl);
      maxBlIndex := LastRank(ll, 256);
      ghost var bl := bd.dl[..BL_CODES];
      CodesSize(ll, dl, bl, maxBlIndex + 1);
      ghost var runs := |RL.RunBits(bl, RL.RunCode(ll))| + |RL.RunBits(bl, RL.RunCode(dl))|;
      WordAdd(old(tb.optLen) + runs, 3 * (maxBlIndex + 1) + 14);
      tb.optLen := Word(tb.optLen + 3 * (maxBlIndex + 1) + 5 + 5 + 4);
    }

    /** Three bits for each of the first `n` code length codes. */
    method SendRanks(n: nat)
      requires Descs() && bq.Valid() && n <= 19 && Bounded(bd.dl[..BL_CODES], 7)
      modifies bq, bq.outbuf
      ensures bq.Valid() && bq.Sent() == old(bq.Sent()) + ThreesBits(Threes(bd.dl[..BL_CODES], n))
    {
      hide ToBits, Pow2, BL_ORDER, ThreesBits, StaticLens, StaticDistLens, EXTRA_LBITS, EXTRA_DBITS, EXTRA_BLBITS,
        Threes;
      OrderSizes();
      ghost var bl := bd.dl[..BL_CODES];
      NoThrees(bl);
      for rank := 0 to n
        invariant bq.Valid() && bl == bd.dl[..BL_CODES]
        invariant bq.Sent() == old(bq.Sent()) + ThreesBits(Threes(bl, rank))
      {
        OrderIs(rank);
        ThreesStep(bl, rank);
        EightIsEnough();
        assert bd.dl[BL_ORDER[rank]] == bl[BL_ORDER[rank]];
        bq.SendBits(bd.dl[BL_ORDER[rank]], 3);
      }
    }

    /** The header of a dynamic block. */
    method SendAllTrees(lcodes: nat, dcodes: nat, blcodes: nat, ghost ll: seq<nat>, ghost dl: seq<nat>)
      requires Descs() && bq.Valid() && lcodes == |ll| && dcodes == |dl|
      requires HeaderOk(ll, dl, bd.dl[..BL_CODES], blcodes) && RL.Coded(bd.fc[..], bd.dl[..BL_CODES])
      requires ld.dl[..lcodes] == ll && ld.dl[lcodes] == RL.GUARD && dd.dl[..dcodes] == dl && dd.dl[dcodes] == RL.GUARD
      modifies bq, bq.outbuf
      ensures bq.Valid() && bq.Sent() == old(bq.Sent()) + CodesBits(ll, dl, bd.dl[..BL_CODES], blcodes)
    {
      hide RL.Runs, Bounded, StaticLens, StaticDistLens, EXTRA_LBITS, EXTRA_DBITS, EXTRA_BLBITS, RL.Coded, RL.RunBits,
        HeaderOk, RL.AllCoded, ThreesBits, Threes, ToBits, Pow2, CodesBits;
      ghost var bl := bd.dl[..BL_CODES];
      HeaderFacts(ll, dl, bl, blcodes);
      SendCounts(lcodes, dcodes, blcodes);
      SendRanks(blcodes);
      RL.SendTree(bq, ld.dl, lcodes - 1, bd.fc, bd.dl, bl);
      RL.SendTree(bq, dd.dl, dcodes - 1, bd.fc, bd.dl, bl);
      CodesBitsAre(old(bq.Sent()), ll, dl, bl, blcodes);
    }

    method SendCounts(lcodes: nat, dcodes: nat, blcodes: nat)
      requires bq.Valid() && 257 <= lcodes <= 286 && 1 <= dcodes <= 30 && 4 <= blcodes <= 19
      modifies bq, bq.outbuf
      ensures bq.Valid()
      ensures bq.Sent() == old(bq.Sent()) + ToBits(lcodes - 257, 5) + ToBits(dcodes - 1, 5) + ToBits(blcodes - 4, 4)
    {
      hide ToBits, Pow2;
      SmallFields(lcodes, dcodes, blcodes);
      bq.SendBits(lcodes - 257, 5);
      bq.SendBits(dcodes - 1, 5);
      bq.SendBits(blcodes - 4, 4);
    }

    // -------------------------------------------------------------- a block

    /** The arrays that hold trees, the ones that never change, and the token buffers. */
    ghost predicate Separate() {
      && TreeArrays(tb, ld, dd, bd) !! FixedArrays(tables, sl, sd)
      && TreeArrays(tb, ld, dd, bd) !! {buf.lBuf, buf.dBuf, buf.flagBuf}
      && FixedArrays(tables, sl, sd) !! {buf.lBuf, buf.dBuf, buf.flagBuf}
    }

    /** What does not change from block to block. */
    ghost predicate Fixed()
      reads tables.lengthCode, tables.baseLength, tables.distCode, tables.baseDist, sl.fc, sl.dl, sd.fc, sd.dl
    {
      Descs() && Separate() && tables.Valid() && sl.Holds(StaticLens()) && sd.Holds(StaticDistLens())
    }

    /** Frequencies count the buffered tokens; the other totals are clear. */
    ghost predicate Counting()
      reads this, tb, ld.fc, dd.fc, bd.fc, buf
    {
      && FreqsOk(ld.fc[..], dd.fc[..], buf.tokens) && BlClear(bd.fc[..])
      && tb.optLen == 0 && tb.staticLen == 0
    }

    ghost predicate Valid()
      reads this, bq, tb, ld.fc, dd.fc, bd.fc, buf, buf.lBuf, buf.dBuf, buf.flagBuf,
            tables.lengthCode, tables.baseLength, tables.distCode, tables.baseDist, sl.fc, sl.dl, sd.fc, sd.dl
    {
      Fixed() && bq.Valid() && buf.Valid() && Counting()
    }

    /** Empty frequencies and buffers for a new block. */
    method InitBlock()
      requires Fixed() && buf.Shape() && bq.Valid()
      modifies tb`optLen, tb`staticLen, ld.fc, dd.fc, bd.fc, buf
      ensures Valid() && buf.tokens == [] && buf.HasRoom()
    {
      hide CodeTables.Valid, CodeTree.Holds, FlagsStored, DistsStored, LitsStored, Pow2, StaticLens, StaticDistLens,
        FreqsOk, DescsOk, BlClear, TokenBuffer.FlagsOf;
      DescsShape(tb, ld, dd, bd);
      ClearAll(ld.fc, dd.fc, bd.fc);
      tb.optLen, tb.staticLen := 0, 0;
      buf.Clear();
    }

    /** The trees of the block are built and their sizes known. */
    ghost predicate Prepared(ts: seq<Token>, t: Trees)
      reads tb, ld, dd, ld.fc, ld.dl, dd.fc, dd.dl, bd.fc, bd.dl
    {
      && Descs() && TreesOk(ts, t) && Held(t)
      && tb.optLen == |DynamicBits(ts, t)| && tb.staticLen == StaticSize(ts)
    }

    /** The descriptors hold these trees, ready to be sent. */
    ghost predicate Held(t: Trees)
      requires Descs()
      reads ld, dd, ld.fc, ld.dl, dd.fc, dd.dl, bd.fc, bd.dl
    {
      && bd.dl[..BL_CODES] == t.bl && RL.Coded(bd.fc[..], t.bl) && 1 <= |t.ll| <= L_CODES && 1 <= |t.dl| <= D_CODES
      && ld.maxCode == |t.ll| - 1 && ld.dl[..|t.ll|] == t.ll && ld.dl[|t.ll|] == RL.GUARD && RL.Coded(ld.fc[..], t.ll)
      && dd.maxCode == |t.dl| - 1 && dd.dl[..|t.dl|] == t.dl && dd.dl[|t.dl|] == RL.GUARD && RL.Coded(dd.fc[..], t.dl)
    }

    /** Build the three trees. */
    method Prepare(ghost ts: seq<Token>) returns (maxBlIndex: nat, ghost t: Trees)
      requires Descs() && Counting() && ts == buf.tokens && |ts| < 0x8000
      modifies tb, tb.heap, tb.depth, tb.blCount, ld, ld.fc, ld.dl, dd, dd.fc, dd.dl, bd, bd.fc, bd.dl
      ensures Prepared(ts, t) && t.nbl == maxBlIndex + 1
    {
      hide FreqsOk, Finished, Pow2, BlockBits, StaticLens, StaticDistLens, EXTRA_LBITS, EXTRA_DBITS, EXTRA_BLBITS, Word,
        Bounded, HeaderOk, RL.Coded, CodesBits, Codable, GoodCodes, ExactCode, LSyms, DSyms;
      ghost var lf: seq<nat>, df: seq<nat> := ld.fc[..], dd.fc[..];
      FreqsBounds(lf, df, ts);
      BuildDataTrees(ts);
      DataTreeFacts(ts, ld.fc[..], ld.dl[..], ld.maxCode, dd.fc[..], dd.dl[..], dd.maxCode, lf, df);
      ghost var ll: seq<nat>, dl: seq<nat> := ld.dl[..ld.maxCode + 1], dd.dl[..dd.maxCode + 1];
      WordBound(|BlockBits(ts, ll, dl)|);
      WordBound(|BlockBits(ts, StaticLens(), StaticDistLens())|);
      maxBlIndex := BuildBlTree(ll, dl);
      t := Trees(ll, dl, bd.dl[..BL_CODES], maxBlIndex + 1);
      HeaderFacts(ll, dl, t.bl, t.nbl);
      SizesFit(ts, ll, dl, t.bl, t.nbl);
      WordSmall(|BlockBits(ts, StaticLens(), StaticDistLens())|);
      WordSmall(|BlockBits(ts, ll, dl)| + |CodesBits(ll, dl, t.bl, t.nbl)|);
      WordAdd(|BlockBits(ts, ll, dl)|, |CodesBits(ll, dl, t.bl, t.nbl)|);
      assert ld.dl[..|ll|] == ll && dd.dl[..|dl|] == dl;
    }

    method SendStored(data: seq<byte>, eof: bool)
      requires bq.Valid()
      modifies bq, bq.outbuf
      ensures bq.Valid() && bq.Sent() == old(bq.Sent()) + StoredBits(eof, |old(bq.Sent())|, data)
    {
      hide ToBits, BytesToBits, LengthWords, Pow2, Zeros;
      HeaderFits(0, eof);
      bq.SendBits(BitValue(eof), 3);
      assert Padding(bq.biValid) == Padding(|old(bq.Sent())| + 3) by { SameBoundary(|bq.Bytes()|, bq.biValid); }
      bq.CopyBlock(data, true);
    }

    method SendStatic(eof: bool, ghost ts: seq<Token>)
      requires Fixed() && bq.Valid() && buf.Valid() && ts == buf.tokens
      requires FlagsStored(buf.flagBuf[..], (buf.lastLit + 7) / 8, ts)
      modifies bq, bq.outbuf
      ensures bq.Valid()
      ensures bq.Sent() == old(bq.Sent()) + (ToBits(2 + BitValue(eof), 3)
                + BlockBits(ts, StaticLens(), StaticDistLens()))
    {
      hide ToBits, Pow2, BlockBits, FlagsStored, StaticLens, StaticDistLens, CodeTables.Valid, CodeTree.Holds, DescsOk;
      HeaderFits(1, eof);
      StaticCodable(ts);
      bq.SendBits(2 + BitValue(eof), 3);
      CompressBlock(bq, buf, tables, sl, sd, StaticLens(), StaticDistLens());
    }

    method SendDynamic(eof: bool, maxBlIndex: nat, ghost ts: seq<Token>, ghost t: Trees)
      requires Prepared(ts, t) && t.nbl == maxBlIndex + 1 && tables.Valid()
      requires bq.Valid() && buf.Valid() && ts == buf.tokens
      requires FlagsStored(buf.flagBuf[..], (buf.lastLit + 7) / 8, ts)
      modifies bq, bq.outbuf
      ensures bq.Valid() && bq.Sent() == old(bq.Sent()) + (ToBits(4 + BitValue(eof), 3) + DynamicBits(ts, t))
    {
      hide ToBits, Pow2, BlockBits, FlagsStored, CodesBits, CodeTables.Valid, RL.Coded, HeaderOk, Codable, GoodCodes,
        DescsOk, ExactCode, LitsStored, DistsStored, TokenBuffer.FlagsOf, StaticLens, StaticDistLens, BytesToBits;
      DescsShape(tb, ld, dd, bd);
      HeaderFacts(t.ll, t.dl, t.bl, t.nbl);
      SendTrees(eof, maxBlIndex, t);
      CompressDynamic(ts, t.ll, t.dl);
    }

    /** The block header and the trees just built. */
    method SendTrees(eof: bool, maxBlIndex: nat, ghost t: Trees)
      requires Descs() && Held(t) && HeaderOk(t.ll, t.dl, t.bl, t.nbl) && t.nbl == maxBlIndex + 1 && bq.Valid()
      modifies bq, bq.outbuf
      ensures bq.Valid()
      ensures bq.Sent() == old(bq.Sent()) + ToBits(4 + BitValue(eof), 3) + CodesBits(t.ll, t.dl, t.bl, t.nbl)
    {
      hide ToBits, Pow2, CodesBits, RL.Coded, HeaderOk, DescsOk, Bounded, RL.AllCoded, RL.Runs, BytesToBits;
      DescsShape(tb, ld, dd, bd);
      HeaderFacts(t.ll, t.dl, t.bl, t.nbl);
      HeaderFits(2, eof);
      bq.SendBits(4 + BitValue(eof), 3);
      SendAllTrees(ld.maxCode + 1, dd.maxCode + 1, maxBlIndex + 1, t.ll, t.dl);
    }

    /** The block data under the trees just built. */
    method CompressDynamic(ghost ts: seq<Token>, ghost ll: seq<nat>, ghost dl: seq<nat>)
      requires Descs() && tables.Valid() && bq.Valid() && buf.Valid() && ts == buf.tokens && Codable(ts, ll, dl)
      requires FlagsStored(buf.flagBuf[..], (buf.lastLit + 7) / 8, ts)
      requires |ll| <= ld.dl.Length && |dl| <= dd.dl.Length
      requires ld.dl[..|ll|] == ll && RL.Coded(ld.fc[..], ll) && dd.dl[..|dl|] == dl && RL.Coded(dd.fc[..], dl)
      modifies bq, bq.outbuf
      ensures bq.Valid() && bq.Sent() == old(bq.Sent()) + BlockBits(ts, ll, dl)
    {
      hide ToBits, Pow2, BlockBits, FlagsStored, CodeTables.Valid, RL.Coded, Codable, DescsOk, LitsStored, DistsStored,
        TokenBuffer.FlagsOf, BytesToBits;
      DescsShape(tb, ld, dd, bd);
      var ltree := new CodeTree(ld.fc, ld.dl);
      var dtree := new CodeTree(dd.fc, dd.dl);
      CompressBlock(bq, buf, tables, ltree, dtree, ll, dl);
    }

    /** Send the block in one of the three encodings. */
    method SendBlock(kind: BlockKind, data: seq<byte>, eof: bool, maxBlIndex: nat, ghost ts: seq<Token>, ghost t: Trees)
      requires Fixed() && Prepared(ts, t) && t.nbl == maxBlIndex + 1 && bq.Valid() && buf.Valid() && ts == buf.tokens
      requires FlagsStored(buf.flagBuf[..], (buf.lastLit + 7) / 8, ts)
      modifies bq, bq.outbuf
      ensures bq.Valid() && bq.Sent() == old(bq.Sent()) + Encoding(kind, eof, |old(bq.Sent())|, data, ts, t)
    {
      hide ToBits, Pow2, BlockBits, FlagsStored, CodeTables.Valid, CodeTree.Holds, TreesOk, DynamicBits, DescsOk,
        LitsStored, DistsStored, TokenBuffer.FlagsOf, StaticLens, StaticDistLens, StoredBits, BytesToBits;
      match kind
      case Stored => SendStored(data, eof);
      case Static => SendStatic(eof, ts);
      case Dynamic => SendDynamic(eof, maxBlIndex, ts, t);
    }

    /** Send the current block, which takes the output from `out` to `more`, in the encoding that
        looks smallest.  `data` is the block's input, when it is still in the window. */
    method FlushBlock(data: Option<seq<byte>>, storedLen: nat, eof: bool, ghost out: seq<byte>, ghost more: seq<byte>)
      returns (kind: BlockKind, ghost block: bits, ghost t: Trees)
      requires Valid() && AllNear(buf.tokens) && Expand(buf.tokens, out) == Some(more)
      requires |more| == |out| + storedLen && (data.Some? ==> more == out + data.value)
      modifies bq, bq.outbuf, tb, tb.heap, tb.depth, tb.blCount, ld, ld.fc, ld.dl, dd, dd.fc, dd.dl, bd, bd.fc,
        bd.dl, buf, buf.flagBuf
      ensures Valid() && buf.tokens == [] && buf.HasRoom()
      ensures Flushed(kind, block, eof, |old(bq.Sent())|, data, storedLen, old(buf.tokens), t)
      ensures Decodes(block, |old(bq.Sent())|, out, more, eof)
      ensures bq.Sent() == old(bq.Sent()) + block + (if eof then Zeros(Padding(|old(bq.Sent())| + |block|)) else [])
      ensures eof ==> bq.biValid == 0
    {
      hide ToBits, Pow2, FlagsStored, CodeTables.Valid, CodeTree.Holds, RL.Coded, Flushed, DescsOk, LitsStored,
        DistsStored, TokenBuffer.FlagsOf, StaticLens, StaticDistLens, Decodes, Expand, BytesToBits, FreqsOk, BlClear,
        BlockCoder.Fixed, AllNear, TokensOk;
      FixedApart();
      kind, block, t := EncodeBlock(data, storedLen, eof, out, more);
      FinishBlock(eof);
    }

    /** Make ready for the next block; after the last one, fill the last byte. */
    method FinishBlock(eof: bool)
      requires Fixed() && buf.Shape() && bq.Valid()
      modifies bq, bq.outbuf, tb`optLen, tb`staticLen, ld.fc, dd.fc, bd.fc, buf
      ensures Valid() && buf.tokens == [] && buf.HasRoom()
      ensures bq.Sent() == old(bq.Sent()) + (if eof then Zeros(Padding(|old(bq.Sent())|)) else [])
      ensures eof ==> bq.biValid == 0
    {
      hide ToBits, BytesToBits, Pow2, DescsOk, CodeTables.Valid, CodeTree.Holds, FlagsStored, LitsStored, DistsStored,
        FreqsOk, BlClear, TokenBuffer.FlagsOf, StaticLens, StaticDistLens, Zeros;
      InitBlock();
      if eof {
        SameBoundary(|bq.Bytes()|, bq.biValid);
        bq.BiWindup();
      }
    }

    lemma FixedApart()
      requires Fixed()
      ensures TreeArrays(tb, ld, dd, bd) !! FixedArrays(tables, sl, sd)
      ensures TreeArrays(tb, ld, dd, bd) !! {buf.lBuf, buf.dBuf, buf.flagBuf}
      ensures FixedArrays(tables, sl, sd) !! {buf.lBuf, buf.dBuf, buf.flagBuf}
    {
    }

    /** Build the trees, choose and send. */
    method EncodeBlock(data: Option<seq<byte>>, storedLen: nat, eof: bool, ghost out: seq<byte>, ghost more: seq<byte>)
      returns (kind: BlockKind, ghost block: bits, ghost t: Trees)
      requires Valid() && AllNear(buf.tokens) && Expand(buf.tokens, out) == Some(more)
      requires |more| == |out| + storedLen && (data.Some? ==> more == out + data.value)
      modifies bq, bq.outbuf, tb, tb.heap, tb.depth, tb.blCount, ld, ld.fc, ld.dl, dd, dd.fc, dd.dl, bd, bd.fc,
        bd.dl, buf.flagBuf
      ensures Fixed() && buf.Shape() && bq.Valid() && bq.Sent() == old(bq.Sent()) + block
      ensures Flushed(kind, block, eof, |old(bq.Sent())|, data, storedLen, old(buf.tokens), t)
      ensures Decodes(block, |old(bq.Sent())|, out, more, eof)
    {
      hide ToBits, Pow2, BlockBits, FlagsStored, CodeTables.Valid, CodeTree.Holds, RL.Coded, TreesOk, DynamicBits,
        Encoding, DescsOk, LitsStored, DistsStored, TokenBuffer.FlagsOf, StaticLens, StaticDistLens, Decodes, Expand,
        BytesToBits, FreqsOk, BlClear, StaticSize, Choice, AllNear, BlockCoder.Held;
      ghost var ts, pos := buf.tokens, |bq.Sent()|;
      var maxBlIndex;
      maxBlIndex, t := PrepareBlock();
      kind := Choose(data.Some?, storedLen);
      ExpandSpans(ts, out);
      if kind.Stored? { StoredFits(ts, storedLen, data.Some?, tb.optLen); }
      SendBlock(kind, data.GetOr([]), eof, maxBlIndex, ts, t);
      block := Encoding(kind, eof, pos, data.GetOr([]), ts, t);
      EncodingDecodes(kind, eof, pos, data.GetOr([]), ts, t, out, more);
    }

    method PrepareBlock() returns (maxBlIndex: nat, ghost t: Trees)
      requires Valid()
      modifies tb, tb.heap, tb.depth, tb.blCount, ld, ld.fc, ld.dl, dd, dd.fc, dd.dl, bd, bd.fc, bd.dl, buf.flagBuf
      ensures Prepared(buf.tokens, t) && t.nbl == maxBlIndex + 1 && Fixed() && buf.Valid()
      ensures FlagsStored(buf.flagBuf[..], (buf.lastLit + 7) / 8, buf.tokens)
    {
      hide Pow2, FlagsStored, CodeTables.Valid, CodeTree.Holds, DescsOk, LitsStored, DistsStored, TokenBuffer.FlagsOf,
        StaticLens, StaticDistLens, FreqsOk, BlClear, BlockCoder.Prepared;
      buf.SaveFlags();
      maxBlIndex, t := Prepare(buf.tokens);
    }

    method Choose(haveData: bool, storedLen: nat) returns (kind: BlockKind)
      ensures kind == Choice(haveData, storedLen, tb.optLen, tb.staticLen) && (kind.Stored? ==> haveData)
    {
      var optLenb, staticLenb := (tb.optLen + 3 + 7) / 8, (tb.staticLen + 3 + 7) / 8;
      if staticLenb <= optLenb { optLenb := staticLenb; }
      if storedLen + 4 <= optLenb && haveData {
        kind := Stored;
      } else if staticLenb == optLenb {
        kind := Static;
      } else {
        kind := Dynamic;
      }
    }

    // -------------------------------------------------------------- for the string matcher

    ghost function Region(): set<object> {
      {this, bq, bq.outbuf, tb, ld, dd, bd, buf, buf.lBuf, buf.dBuf, buf.flagBuf} + TreeArrays(tb, ld, dd, bd)
        + FixedArrays(tables, sl, sd)
    }

    ghost predicate Ok()
      reads region
    {
      region == Region() && Valid()
    }

    /** Ready to take one more token. */
    ghost predicate Room()
      reads region
    {
      region == Region() && Valid() && buf.HasRoom()
    }

    /** The tokens of the current block. */
    ghost function Pending(): seq<Token>
      requires Ok()
      reads region
    {
      buf.tokens
    }

    ghost function SentBits(): bits
      requires Ok()
      reads region
    {
      bq.Sent()
    }

    /** No bits are queued. */
    ghost predicate Aligned()
      reads region
    {
      Ok() && bq.biValid == 0
    }

    /** Start the first block. */
    method FirstBlock()
      requires Fixed() && buf.Shape() && bq.Valid() && region == Region()
      requires bq.Sent() == [] && bq.biValid == 0
      modifies tb`optLen, tb`staticLen, ld.fc, dd.fc, bd.fc, buf
      ensures Ok() && Room() && SentBits() == [] && Pending() == [] && Aligned()
    {
      hide TokenBuffer.Valid, BlockCoder.Counting, ToBits, BytesToBits, BlockCoder.Fixed, TokenBuffer.HasRoom, Pow2;
      InitBlock();
    }

    /** Output a 16-bit or 32-bit value between streams. */
    method PutHalf(w: nat)
      requires Ok() && Aligned() && w < 0x1_0000
      modifies region
      ensures Ok() && Aligned() && (old(Room()) ==> Room()) && Pending() == old(Pending())
      ensures SentBits() == old(SentBits()) + ToBits(w, 16)
    {
      hide CodeTables.Valid, CodeTree.Holds, FlagsStored, DistsStored, LitsStored, Pow2, StaticLens, StaticDistLens,
        FreqsOk, DescsOk, BlClear, TokenBuffer.FlagsOf, ToBits, BytesToBits;
      NothingQueued(bq.biBuf);
      BytesOf16(w);
      BytesToBitsAppend(bq.Bytes(), [w % 256, w / 256]);
      bq.Put16(w);
    }

    method PutWord(n: nat)
      requires Ok() && Aligned() && n < 0x1_0000_0000
      modifies region
      ensures Ok() && Aligned() && (old(Room()) ==> Room()) && Pending() == old(Pending())
      ensures SentBits() == old(SentBits()) + ToBits(n, 32)
    {
      hide CodeTables.Valid, CodeTree.Holds, FlagsStored, DistsStored, LitsStored, Pow2, StaticLens, StaticDistLens,
        FreqsOk, DescsOk, BlClear, TokenBuffer.FlagsOf, ToBits, BytesToBits;
      NothingQueued(bq.biBuf);
      bq.Put32(n);
    }

    /** Hand everything to the output file. */
    method FlushOut() returns (output: seq<byte>)
      requires Ok() && Aligned()
      modifies region
      ensures Ok() && SentBits() == old(SentBits()) && BytesToBits(output) == SentBits()
    {
      hide CodeTables.Valid, CodeTree.Holds, FlagsStored, DistsStored, LitsStored, Pow2, StaticLens, StaticDistLens,
        FreqsOk, DescsOk, BlClear, TokenBuffer.FlagsOf, ToBits, BytesToBits;
      NothingQueued(bq.biBuf);
      bq.FlushOutbuf();
      output := bq.written;
      assert bq.Bytes() == output;
    }

    /** Add a token to the block; says whether the block must be flushed. */
    method Tally(dist: nat, lc: nat, inLength: nat) returns (flush: bool)
      requires Ok() && Room() && lc < 256 && dist <= 32768
      modifies region
      ensures Ok() && Pending() == old(Pending()) + [TokenFor(dist, lc)] && SentBits() == old(SentBits())
      ensures if flush then |Pending()| >= Least() else Room()
    {
      hide CodeTables.Valid, CodeTree.Holds, FlagsStored, DistsStored, LitsStored, Pow2, StaticLens, StaticDistLens,
        FreqsOk, DescsOk, BlClear, TokenBuffer.FlagsOf, StopEarly, ToBits, BytesToBits;
      DescsShape(tb, ld, dd, bd);
      flush := buf.CtTally(ld, dd, tables, dist, lc, inLength);
      if flush { StopsLate(dd.fc[..], buf.lastLit, buf.lastDist, inLength); }
    }

    /** A block is not ended with fewer tokens than these, except at the end of the input. */
    ghost function Least(): int { LeastTokens(buf.litSize, buf.distSize) }

    /** FLUSH_BLOCK */
    method Flush(data: Option<seq<byte>>, storedLen: nat, eof: bool, ghost out: seq<byte>, ghost more: seq<byte>)
      returns (kind: BlockKind, ghost block: bits, ghost t: Trees)
      requires Ok() && AllNear(Pending()) && Expand(Pending(), out) == Some(more)
      requires |more| == |out| + storedLen && (data.Some? ==> more == out + data.value)
      modifies region
      ensures Ok() && Room() && Pending() == [] && Decodes(block, |old(SentBits())|, out, more, eof)
      ensures Flushed(kind, block, eof, |old(SentBits())|, data, storedLen, old(Pending()), t)
      ensures SentBits() == old(SentBits()) + block + (if eof then Zeros(Padding(|old(SentBits())| + |block|)) else [])
      ensures eof ==> Aligned()
    {
      hide CodeTables.Valid, CodeTree.Holds, FlagsStored, DistsStored, LitsStored, Pow2, StaticLens, StaticDistLens,
        FreqsOk, DescsOk, BlClear, TokenBuffer.FlagsOf, ToBits, BytesToBits, Expand, Decodes, AllNear, Zeros,
        BlockCoder.Valid, TokenBuffer.HasRoom, Flushed, BitQueue.Valid, BitQueue.Sent, TokenBuffer.Valid;
      kind, block, t := FlushBlock(data, storedLen, eof, out, more);
    }

    constructor (bq: BitQueue, tb: TreeBuilder, ld: TreeDesc, dd: TreeDesc, bd: TreeDesc,
                 tables: CodeTables, buf: TokenBuffer, sl: CodeTree, sd: CodeTree)
      ensures this.bq == bq && this.tb == tb && this.ld == ld && this.dd == dd && this.bd == bd
      ensures this.tables == tables && this.buf == buf && this.sl == sl && this.sd == sd && region == Region()
    {
      this.bq, this.tb, this.ld, this.dd, this.bd := bq, tb, ld, dd, bd;
      this.tables, this.buf, this.sl, this.sd := tables, buf, sl, sd;
      region := {this, bq, bq.outbuf, tb, ld, dd, bd, buf, buf.lBuf, buf.dBuf, buf.flagBuf}
        + TreeArrays(tb, ld, dd, bd) + FixedArrays(tables, sl, sd);
    }
  }

  function LeastTokens(litSize: nat, distSize: nat): int {
    var lits := if litSize <= 0x1000 then litSize - 1 else 0x1000;
    if distSize <= lits then distSize else lits
  }

  lemma NothingQueued(v: nat)
    ensures ToBits(v, 0) == []
  {
  }

  lemma StopsLate(df: seq<nat>, lastLit: nat, lastDist: nat, inLength: nat)
    ensures StopEarly(df, lastLit, lastDist, inLength) ==> lastLit >= 0x1000
  {
    hide SumTo;
  }

  method WireCoder(bq: BitQueue, buf: TokenBuffer) returns (c: BlockCoder)
    requires bq.Valid() && buf.Shape()
    ensures fresh(c) && c.bq == bq && c.buf == buf && c.Fixed() && c.region == c.Region()
    ensures fresh(FixedArrays(c.tables, c.sl, c.sd)) && fresh(c.ld.fc) && fresh(c.dd.fc) && fresh(c.bd.fc)
    ensures fresh(c.tb) && fresh({c.ld, c.dd, c.bd}) && fresh(TreeArrays(c.tb, c.ld, c.dd, c.bd))
    ensures fresh(c.region - {bq, bq.outbuf, buf, buf.lBuf, buf.dBuf, buf.flagBuf})
  {
    hide StaticLens, StaticDistLens, Pow2, DescsOk, CodeTables.Valid, CodeTree.Holds, TreeArrays, FixedArrays,
      BitQueue.Valid;
    var tb, ld, dd, bd := NewTrees();
    DescsShape(tb, ld, dd, bd);
    var tables, sl, sd := NewFixed(tb, TreeArrays(tb, ld, dd, bd));
    c := new BlockCoder(bq, tb, ld, dd, bd, tables, buf, sl, sd);
  }

  /** Allocate and initialise everything for a new file. */
  method NewCoder(outbufSize: nat, wideStores: bool, litSize: nat, distSize: nat) returns (c: BlockCoder)
    requires outbufSize >= 8 && litSize % 8 == 0 && 8 <= litSize <= 0x8000 && 1 <= distSize
    ensures c.Ok() && c.Room() && c.SentBits() == [] && c.Pending() == [] && c.Aligned() && fresh(c.region)
    ensures c.Least() == LeastTokens(litSize, distSize)
  {
    hide TokenBuffer.Valid, ToBits, BytesToBits, BlockCoder.Fixed, TreeArrays, FixedArrays, BlockCoder.Ok,
      BlockCoder.Room, BlockCoder.SentBits, BlockCoder.Pending, BlockCoder.Aligned, BlockCoder.Region, Pow2;
    var bq := new BitQueue(outbufSize, wideStores);
    var buf := new TokenBuffer(litSize, distSize);
    ValidShape(buf);
    c := WireCoder(bq, buf);
    c.FirstBlock();
  }

  lemma ValidShape(buf: TokenBuffer)
    requires buf.Valid()
    ensures buf.Shape()
  {
  }

  /** The tables and trees that ct_init computes once. */
  method NewFixed(tb: TreeBuilder, ghost others: set<array<nat>>)
    returns (tables: CodeTables, sl: CodeTree, sd: CodeTree)
    requires tb.Shape() && forall b :: 0 <= b <= MAX_BITS ==> tb.blCount[b] == 0
    modifies tb.blCount
    ensures tables.Valid() && sl.Holds(StaticLens()) && sd.Holds(StaticDistLens()) && fresh(FixedArrays(tables, sl, sd))
    ensures others !! FixedArrays(tables, sl, sd)
  {
    hide CodeTables.Valid, CodeTree.Holds, StaticLens, StaticDistLens;
    tables := new CodeTables();
    sl, sd := NewStaticTrees();
    InitStaticTrees(tb, sl, sd);
  }

  lemma DescsShape(tb: TreeBuilder, ld: TreeDesc, dd: TreeDesc, bd: TreeDesc)
    requires DescsOk(tb, ld, dd, bd)
    ensures tb.Shape() && ld.fc != dd.fc && ld.fc != bd.fc && dd.fc != bd.fc
    ensures ld.fc.Length >= L_CODES && dd.fc.Length >= D_CODES && bd.fc.Length >= BL_CODES
    ensures ld.fc.Length == ld.dl.Length && dd.fc.Length == dd.dl.Length && bd.fc.Length == bd.dl.Length
    ensures ld.fc != ld.dl && dd.fc != dd.dl && bd.fc != bd.dl
  {
  }

  lemma LiteralShape(d: TreeDesc)
    requires d.fc != d.dl && d.fc.Length == d.dl.Length == HEAP_SIZE
    requires d.elems == L_CODES && d.maxLength == MAX_BITS && d.staticLens == StaticLens()
    requires d.extraBits == EXTRA_LBITS && d.extraBase == LITERALS + 1
    ensures d.Shape()
  {
    Pow2Values();
  }

  lemma DistanceShape(d: TreeDesc)
    requires d.fc != d.dl && d.fc.Length == d.dl.Length == 2 * D_CODES + 1
    requires d.elems == D_CODES && d.maxLength == MAX_BITS && d.staticLens == StaticDistLens()
    requires d.extraBits == EXTRA_DBITS && d.extraBase == 0
    ensures d.Shape()
  {
    Pow2Values();
  }

  lemma LengthShape(d: TreeDesc)
    requires d.fc != d.dl && d.fc.Length == d.dl.Length == 2 * BL_CODES + 1
    requires d.elems == BL_CODES && d.maxLength == 7 && d.staticLens == []
    requires d.extraBits == EXTRA_BLBITS && d.extraBase == 0
    ensures d.Shape()
  {
    Pow2Values();
  }

  ghost predicate BlClear(f: seq<nat>) { |f| >= BL_CODES && forall s :: 0 <= s < BL_CODES ==> f[s] == 0 }

  method ClearFreqs(fc: array<nat>, n: nat)
    requires n <= fc.Length
    modifies fc
    ensures forall s :: 0 <= s < n ==> fc[s] == 0
  {
    for i := 0 to n
      invariant forall s :: 0 <= s < i ==> fc[s] == 0
    {
      fc[i] := 0;
    }
  }

  method ClearAll(lf: array<nat>, df: array<nat>, bf: array<nat>)
    requires lf != df && lf != bf && df != bf && lf.Length >= L_CODES && df.Length >= D_CODES && bf.Length >= BL_CODES
    modifies lf, df, bf
    ensures FreqsOk(lf[..], df[..], []) && BlClear(bf[..])
  {
    hide FreqsOk;
    ClearFreqs(lf, L_CODES);
    ClearFreqs(df, D_CODES);
    ClearFreqs(bf, BL_CODES);
    lf[END_BLOCK] := 1;
    NoFreqs(lf[..], df[..]);
  }

  lemma NoFreqs(lf: seq<nat>, df: seq<nat>)
    requires |lf| >= L_CODES && |df| >= D_CODES && lf[END_BLOCK] == 1
    requires forall s :: 0 <= s < L_CODES && s != END_BLOCK ==> lf[s] == 0
    requires forall s :: 0 <= s < D_CODES ==> df[s] == 0
    ensures FreqsOk(lf, df, [])
  {
  }

  /** The trees of ct_init. */
  method InitStaticTrees(tb: TreeBuilder, sl: CodeTree, sd: CodeTree)
    requires tb.Shape() && sl.fc != sl.dl && sd.fc != sd.dl && tb.blCount !in {sl.fc, sl.dl, sd.fc, sd.dl}
    requires {sl.fc, sl.dl} !! {sd.fc, sd.dl}
    requires sl.fc.Length == 288 && sl.dl.Length == 288 && sd.fc.Length == 30 && sd.dl.Length == 30
    requires forall b :: 0 <= b <= MAX_BITS ==> tb.blCount[b] == 0
    modifies sl.fc, sl.dl, sd.fc, sd.dl, tb.blCount
    ensures sl.Holds(StaticLens()) && sd.Holds(StaticDistLens())
  {
    hide HoldsCode;
    InitStaticLiterals(sl.fc, sl.dl, tb.blCount);
    InitStaticDistances(sd.fc, sd.dl);
  }

  // ---------------------------------------------------------------- small facts

  lemma HeaderFits(btype: nat, eof: bool)
    requires btype <= 2
    ensures 2 * btype + BitValue(eof) < Pow2(3)
  {
    Pow2Values();
  }

  lemma SameBoundary(bytes: nat, n: nat)
    ensures Padding(8 * bytes + n) == Padding(n)
  {
  }

  // ---------------------------------------------------------------- sizes

  lemma DataTreeFacts(ts: seq<Token>, lfc: seq<nat>, ldl: seq<nat>, lmax: int, dfc: seq<nat>, ddl: seq<nat>, dmax: int,
                      lf: seq<nat>, df: seq<nat>)
    requires FreqsOk(lf, df, ts)
    requires Finished(lfc, ldl, lmax, lf, L_CODES, MAX_BITS) && Finished(dfc, ddl, dmax, df, D_CODES, MAX_BITS)
    ensures 256 <= lmax < L_CODES && 0 <= dmax < D_CODES && |ldl| >= L_CODES && |ddl| >= D_CODES && ldl[256] > 0
    ensures Codable(ts, ldl[..lmax + 1], ddl[..dmax + 1]) && GoodCodes(ldl[..lmax + 1], ddl[..dmax + 1])
    ensures Bounded(ldl[..lmax + 1], 15) && Bounded(ddl[..dmax + 1], 15)
    ensures RL.Coded(lfc, ldl[..lmax + 1]) && RL.Coded(dfc, ddl[..dmax + 1])
    ensures ExactCode(ldl[..lmax + 1], LSyms(ts)) && ExactCode(ddl[..dmax + 1], DSyms(ts))
  {
    hide KraftOk, RL.Coded, Codable, LCount, DCount, ExactCode, Used, LSyms, DSyms;
    UsedAre(lf, df, ts);
    TokensCodable(ts, lfc, ldl, lmax, dfc, ddl, dmax, lf, df);
    assert lf[END_BLOCK] > 0;
  }

  lemma ExtrasSmall(s: nat)
    ensures LExtra(s) <= 5 && At(EXTRA_DBITS, s) <= 13
  {
    hide EXTRA_LBITS, EXTRA_DBITS;
    TableSizes();
    ExtraSmall(s);
    if s >= 257 { ExtraSmall(s - 257); }
  }

  lemma TokenSmall(t: Token, ll: seq<nat>, dl: seq<nat>)
    requires TokenOk(t) && Bounded(ll, 15) && Bounded(dl, 15)
    ensures |TokenBits(t, ll, dl)| <= 48
  {
    hide TokenBits, LengthCode, DistCode, EXTRA_DBITS, LExtra;
    TokenSize(t, ll, dl);
    ExtrasSmall(LSym(t));
    if t.Match? { ExtrasSmall(DSym(t)); }
  }

  lemma {:induction false} TokensSmall(ts: seq<Token>, ll: seq<nat>, dl: seq<nat>)
    requires TokensOk(ts) && Bounded(ll, 15) && Bounded(dl, 15)
    ensures |TokensBits(ts, ll, dl)| <= 48 * |ts|
    decreases |ts|
  {
    hide TokenBits;
    if ts != [] {
      TokenSmall(ts[0], ll, dl);
      TokensSmall(ts[1..], ll, dl);
    }
  }

  lemma BlockSmall(ts: seq<Token>, ll: seq<nat>, dl: seq<nat>)
    requires TokensOk(ts) && Bounded(ll, 15) && Bounded(dl, 15)
    ensures |BlockBits(ts, ll, dl)| <= 48 * |ts| + 15
  {
    hide TokensBits, CodeAt;
    TokensSmall(ts, ll, dl);
    CodeAtLen(ll, END_BLOCK);
  }

  lemma {:induction false} RunsSmall(bl: seq<nat>, syms: seq<RL.RunSym>)
    requires Bounded(bl, 7)
    ensures |RL.RunBits(bl, syms)| <= 14 * |syms|
    decreases |syms|
  {
    hide RL.SymBits;
    if syms != [] {
      SymSize(bl, syms[0]);
      RunsSmall(bl, syms[1..]);
    }
  }

  /** No size comes near the 32-bit limit. */
  lemma SizesFit(ts: seq<Token>, ll: seq<nat>, dl: seq<nat>, bl: seq<nat>, nbl: nat)
    requires Codable(ts, ll, dl) && |ts| < 0x8000 && HeaderOk(ll, dl, bl, nbl)
    ensures |BlockBits(ts, ll, dl)| <= 2_000_000 && |CodesBits(ll, dl, bl, nbl)| <= 10_000
    ensures |BlockBits(ts, StaticLens(), StaticDistLens())| <= 2_000_000
  {
    hide BlockBits, CodesBits, RL.RunBits, RL.Runs, KraftOk, RL.AllCoded, ZeroFrom;
    BlockSmall(ts, ll, dl);
    BlockSmall(ts, StaticLens(), StaticDistLens());
    CodesSize(ll, dl, bl, nbl);
    RunCodeShort(ll);
    RunCodeShort(dl);
    RunsSmall(bl, RL.RunCode(ll));
    RunsSmall(bl, RL.RunCode(dl));
  }

  lemma NoThrees(bl: seq<nat>)
    requires |bl| == 19
    ensures ThreesBits(Threes(bl, 0)) == []
  {
  }

  lemma {:induction false} ThreesAppend(a: seq<nat>, b: seq<nat>)
    ensures ThreesBits(a + b) == ThreesBits(a) + ThreesBits(b)
    decreases |a|
  {
    if a == [] {
      assert a + b == b;
    } else {
      assert (a + b)[1..] == a[1..] + b;
      ThreesAppend(a[1..], b);
    }
  }

  lemma ThreesStep(bl: seq<nat>, n: nat)
    requires |bl| == 19 && n < 19
    ensures BL_ORDER[n] < 19 && ThreesBits(Threes(bl, n + 1)) == ThreesBits(Threes(bl, n)) + ToBits(bl[BL_ORDER[n]], 3)
  {
    hide BL_ORDER, ToBits;
    OrderSizes();
    OrderIs(n);
    var v := bl[BL_ORDER[n]];
    assert Threes(bl, n + 1) == Threes(bl, n) + [v];
    ThreesAppend(Threes(bl, n), [v]);
    assert [v][1..] == [];
    assert ThreesBits([v]) == ToBits(v, 3) + ThreesBits([]);
  }

  lemma EightIsEnough()
    ensures Pow2(3) == 8
  {
    Pow2Values();
  }

  lemma SmallFields(lcodes: nat, dcodes: nat, blcodes: nat)
    requires 257 <= lcodes <= 286 && 1 <= dcodes <= 30 && 4 <= blcodes <= 19
    ensures lcodes - 257 < Pow2(5) && dcodes - 1 < Pow2(5) && blcodes - 4 < Pow2(4)
  {
    Pow2Values();
  }

  lemma CodesBitsAre(s: bits, ll: seq<nat>, dl: seq<nat>, bl: seq<nat>, nbl: nat)
    requires 257 <= |ll| && 1 <= |dl| && |bl| == 19 && 4 <= nbl <= 19
    ensures s + ToBits(|ll| - 257, 5) + ToBits(|dl| - 1, 5) + ToBits(nbl - 4, 4) + ThreesBits(Threes(bl, nbl))
            + RL.RunBits(bl, RL.RunCode(ll)) + RL.RunBits(bl, RL.RunCode(dl)) == s + CodesBits(ll, dl, bl, nbl)
  {
    hide ToBits, ThreesBits, Threes, RL.RunBits, RL.Runs;
  }

  lemma WordBound(x: int)
    ensures Word(x) < 0x1_0000_0000
  {
  }

  lemma WordSmall(x: int)
    ensures 0 <= x < 0x1_0000_0000 ==> Word(x) == x
    ensures Word(x) < 0x1_0000_0000
  {
  }
}
