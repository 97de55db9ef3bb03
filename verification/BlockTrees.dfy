/** What the three trees of a block mean for its tokens: every symbol that occurs has a code,
    and the totals kept while building are the sizes of what will be sent. */
module BlockTrees {
  import opened Arith
  import opened Bits
  import opened Sums
  import opened Canonical
  import opened Tables
  import opened Tokens
  import opened Tally
  import opened Huffman
  import opened Levels
  import opened BitLengths
  import opened TreeBuilding
  import RL = RunLength

  // ---------------------------------------------------------------- a finished tree

  /** Symbols that have a code. */
  ghost function CodedBy(lens: seq<nat>): set<nat> { set n | 0 <= n < |lens| && lens[n] > 0 }

  /** Exactly the symbols in `used` have codes, and two symbols when there are fewer; no code is wasted. */
  ghost predicate ExactCode(lens: seq<nat>, used: set<nat>) {
    && Bounded(lens, MAX_BITS) && Kraft(lens, |lens|, MAX_BITS) == Pow2(MAX_BITS)
    && used <= CodedBy(lens) && (|used| >= 2 ==> CodedBy(lens) == used) && (|used| < 2 ==> |CodedBy(lens)| == 2)
  }

  /** Literal/length symbols of a block. */
  ghost function LSyms(ts: seq<Token>): set<nat>
    requires TokensOk(ts)
  {
    {END_BLOCK} + set i | 0 <= i < |ts| :: LSym(ts[i])
  }

  ghost function DSyms(ts: seq<Token>): set<nat>
    requires TokensOk(ts)
  {
    set i | 0 <= i < |ts| && ts[i].Match? :: DSym(ts[i])
  }

  /** The codes that build_tree leaves behind for the frequencies `f0`. */
  ghost predicate Finished(fc: seq<nat>, dl: seq<nat>, maxCode: int, f0: seq<nat>, elems: nat, max: nat) {
    && 1 <= maxCode < elems <= |f0| && elems <= |fc| && elems <= |dl| && max <= MAX_BITS
    && (forall s :: 0 <= s < elems && f0[s] != 0 ==> s <= maxCode && dl[s] > 0)
    && (forall n :: maxCode < n < elems ==> dl[n] == 0)
    && Bounded(dl[..maxCode + 1], max) && KraftOk(dl[..maxCode + 1], MAX_BITS)
    && RL.Coded(fc, dl[..maxCode + 1]) && ExactCode(dl[..maxCode + 1], Used(f0, elems))
  }

  lemma FinishedFrom(fc: seq<nat>, dl: seq<nat>, maxCode: int, f0: seq<nat>, elems: nat, max: nat, bl: seq<nat>,
                     leaves: set<nat>)
    requires elems <= |f0| && elems <= |fc| && elems <= |dl| && max <= MAX_BITS
    requires CodedSymbols(f0, elems, leaves, maxCode) && GoodLengths(bl, leaves, dl[..maxCode + 1], max)
    requires CodesHeld(fc, dl[..maxCode + 1], leaves) && ZeroAbove(dl, maxCode, elems)
    ensures Finished(fc, dl, maxCode, f0, elems, max)
  {
    hide Kraft, KraftOk, HoldsCode, Pow2, Used, Counts;
    var lens := dl[..maxCode + 1];
    UsedMembers(f0, elems);
    GoodKraft(bl, leaves, lens, max);
    TwoLeaves(f0, elems, leaves, maxCode);
    forall s | 0 <= s < elems && f0[s] != 0 ensures s <= maxCode && dl[s] > 0 {
      assert s in leaves;
      assert lens[s] == dl[s];
    }
    assert CodedBy(lens) == leaves;
    FullIsOk(lens);
  }

  lemma FullIsOk(lens: seq<nat>)
    requires Bounded(lens, MAX_BITS) && Kraft(lens, |lens|, MAX_BITS) == Pow2(MAX_BITS)
    ensures KraftOk(lens, MAX_BITS)
  {
  }

  lemma TwoLeaves(f0: seq<nat>, elems: nat, leaves: set<nat>, maxCode: int)
    requires elems <= |f0| && CodedSymbols(f0, elems, leaves, maxCode)
    ensures maxCode >= 1
  {
    SubsetSize(leaves, maxCode + 1);
  }

  /** The total kept by gen_bitlen, symbol by symbol. */
  lemma BitsAreSum(desc: TreeDesc, f0: seq<nat>, l: nat -> nat, g: nat -> int)
    requires desc.elems <= |f0|
    requires forall s: nat :: s < desc.elems && f0[s] != 0 ==> g(s) == f0[s] * (l(s) + desc.Extra(s))
    requires forall s: nat :: s < desc.elems && f0[s] == 0 ==> g(s) == 0
    ensures desc.BitsOf(Used(f0, desc.elems), f0, l) == SumTo(desc.elems, g)
  {
    hide Sum, SumTo, Used;
    var used := Used(f0, desc.elems);
    UsedMembers(f0, desc.elems);
    SumExt(used, BitTerm(Of(f0), l, desc.ExtraOf()), g);
    SumWiden(used, Below(desc.elems), g);
    SumRange(desc.elems, g);
  }

  // ---------------------------------------------------------------- tokens

  lemma {:induction false} CountsPositive(ts: seq<Token>, i: nat)
    requires TokensOk(ts) && i < |ts|
    ensures LCount(ts, LSym(ts[i])) > 0 && (ts[i].Match? ==> DCount(ts, DSym(ts[i])) > 0)
  {
    hide LengthCode, DistCode;
    if i < |ts| - 1 {
      CountsPositive(ts[..|ts| - 1], i);
      assert ts[..|ts| - 1][i] == ts[i];
    }
  }

  /** Every token of the block has codes in its trees. */
  lemma TokensCodable(ts: seq<Token>, lfc: seq<nat>, ldl: seq<nat>, lmax: int, dfc: seq<nat>, ddl: seq<nat>, dmax: int,
                      lf: seq<nat>, df: seq<nat>)
    requires FreqsOk(lf, df, ts)
    requires Finished(lfc, ldl, lmax, lf, L_CODES, MAX_BITS) && Finished(dfc, ddl, dmax, df, D_CODES, MAX_BITS)
    ensures Codable(ts, ldl[..lmax + 1], ddl[..dmax + 1]) && lmax >= 256
  {
    hide KraftOk, RL.Coded, LengthCode, DistCode, LCount, DCount;
    assert lf[END_BLOCK] > 0;
    forall i | 0 <= i < |ts|
      ensures LSym(ts[i]) <= lmax && ldl[LSym(ts[i])] > 0
      ensures ts[i].Match? ==> DSym(ts[i]) <= dmax && ddl[DSym(ts[i])] > 0
    {
      CountsPositive(ts, i);
    }
  }

  /** The literal/length part of opt_len or static_len. */
  lemma LBitsAre(desc: TreeDesc, ts: seq<Token>, lf: seq<nat>, df: seq<nat>, lens: seq<nat>, l: nat -> nat)
    requires FreqsOk(lf, df, ts) && desc.elems == L_CODES
    requires desc.extraBase == LITERALS + 1 && desc.extraBits == EXTRA_LBITS
    requires forall s: nat :: s < L_CODES && lf[s] != 0 ==> l(s) == At(lens, s)
    ensures desc.BitsOf(Used(lf, L_CODES), lf, l) == SumTo(L_CODES, LTerm(ts, lens))
  {
    hide Sum, SumTo, Used, LCount, DCount, EXTRA_LBITS;
    BitsAreSum(desc, lf, l, LTerm(ts, lens));
  }

  lemma DBitsAre(desc: TreeDesc, ts: seq<Token>, lf: seq<nat>, df: seq<nat>, lens: seq<nat>, l: nat -> nat)
    requires FreqsOk(lf, df, ts) && desc.elems == D_CODES && desc.extraBase == 0 && desc.extraBits == EXTRA_DBITS
    requires forall s: nat :: s < D_CODES && df[s] != 0 ==> l(s) == At(lens, s)
    ensures desc.BitsOf(Used(df, D_CODES), df, l) == SumTo(D_CODES, DTerm(ts, lens))
  {
    hide Sum, SumTo, Used, LCount, DCount, EXTRA_DBITS;
    TableSizes();
    BitsAreSum(desc, df, l, DTerm(ts, lens));
  }

  lemma {:induction false} CountsFrom(ts: seq<Token>, s: nat)
    requires TokensOk(ts)
    ensures LCount(ts, s) > 0 ==> exists i :: 0 <= i < |ts| && LSym(ts[i]) == s
    ensures DCount(ts, s) > 0 ==> exists i :: 0 <= i < |ts| && ts[i].Match? && DSym(ts[i]) == s
    decreases |ts|
  {
    hide LengthCode, DistCode;
    if ts != [] {
      var front := ts[..|ts| - 1];
      CountsFrom(front, s);
      assert forall i :: 0 <= i < |front| ==> front[i] == ts[i];
    }
  }

  /** The symbols with a frequency are those of the tokens, and the end of the block. */
  lemma UsedAre(lf: seq<nat>, df: seq<nat>, ts: seq<Token>)
    requires FreqsOk(lf, df, ts)
    ensures Used(lf, L_CODES) == LSyms(ts) && Used(df, D_CODES) == DSyms(ts)
  {
    hide LengthCode, DistCode, LCount, DCount, LSyms, DSyms, Used;
    UsedMembers(lf, L_CODES);
    UsedMembers(df, D_CODES);
    forall s: nat ensures s in Used(lf, L_CODES) <==> s in LSyms(ts) {
      InLSyms(ts, s);
    }
    forall s: nat ensures s in Used(df, D_CODES) <==> s in DSyms(ts) {
      InDSyms(ts, s);
    }
  }

  lemma InLSyms(ts: seq<Token>, s: nat)
    requires TokensOk(ts)
    ensures s in LSyms(ts) <==> s < L_CODES && (s == END_BLOCK || LCount(ts, s) > 0)
  {
    hide LengthCode, DistCode, LCount, DCount;
    CountsFrom(ts, s);
    if i :| 0 <= i < |ts| && LSym(ts[i]) == s { CountsPositive(ts, i); }
  }

  lemma InDSyms(ts: seq<Token>, s: nat)
    requires TokensOk(ts)
    ensures s in DSyms(ts) <==> s < D_CODES && DCount(ts, s) > 0
  {
    hide LengthCode, DistCode, LCount, DCount;
    CountsFrom(ts, s);
    if i :| 0 <= i < |ts| && ts[i].Match? && DSym(ts[i]) == s { CountsPositive(ts, i); }
  }

  // ---------------------------------------------------------------- totals of frequencies

  ghost function LOnly(ts: seq<Token>): nat -> int
    requires TokensOk(ts)
  {
    (s: nat) => LCount(ts, s)
  }

  ghost function DOnly(ts: seq<Token>): nat -> int
    requires TokensOk(ts)
  {
    (s: nat) => DCount(ts, s)
  }

  lemma {:induction false} TokenTotals(ts: seq<Token>)
    requires TokensOk(ts)
    ensures SumTo(L_CODES, LOnly(ts)) == |ts| && SumTo(D_CODES, DOnly(ts)) <= |ts|
    decreases |ts|
  {
    hide SumTo, LengthCode, DistCode;
    if ts == [] {
      SumToZero(L_CODES, LOnly(ts));
      SumToZero(D_CODES, DOnly(ts));
    } else {
      var front, t := ts[..|ts| - 1], ts[|ts| - 1];
      TokenTotals(front);
      SumToUpdate(L_CODES, LOnly(front), LOnly(ts), LSym(t));
      if t.Match? {
        SumToUpdate(D_CODES, DOnly(front), DOnly(ts), DSym(t));
      } else {
        SumToExt(D_CODES, DOnly(front), DOnly(ts));
      }
    }
  }

  lemma FrequenciesFit(ts: seq<Token>, lf: seq<nat>, df: seq<nat>)
    requires FreqsOk(lf, df, ts) && |ts| < 0x8000
    ensures SumTo(L_CODES, Itself(Of(lf))) < 0x1_0000 - 2 && SumTo(D_CODES, Itself(Of(df))) < 0x1_0000 - 2
  {
    hide SumTo, LCount, DCount;
    TokenTotals(ts);
    SumToUpdate(L_CODES, LOnly(ts), Itself(Of(lf)), END_BLOCK);
    SumToExt(D_CODES, DOnly(ts), Itself(Of(df)));
  }

  // ---------------------------------------------------------------- symbols without a code at the end

  /** `long` continues `lens` with zero lengths. */
  ghost predicate Padded(lens: seq<nat>, long: seq<nat>) {
    lens <= long && forall n :: |lens| <= n < |long| ==> long[n] == 0
  }

  lemma {:induction false} BeforePadded(lens: seq<nat>, long: seq<nat>, k: nat, l: nat, n: nat)
    requires Padded(lens, long) && k <= |long|
    ensures Before(long, k, l, n) == Before(lens, if k <= |lens| then k else |lens|, l, n)
  {
    if k > 0 { BeforePadded(lens, long, k - 1, l, n); }
  }

  lemma CodePadded(lens: seq<nat>, long: seq<nat>, n: nat)
    requires Padded(lens, long) && n < |lens|
    ensures CodeBits(long, n) == CodeBits(lens, n)
  {
    BeforePadded(lens, long, |long|, lens[n], n);
  }

  lemma {:induction false} KraftPadded(lens: seq<nat>, long: seq<nat>, k: nat, max: nat)
    requires Padded(lens, long) && k <= |long| && Bounded(lens, max) && Bounded(long, max)
    ensures Kraft(long, k, max) == Kraft(lens, if k <= |lens| then k else |lens|, max)
  {
    if k > 0 { KraftPadded(lens, long, k - 1, max); }
  }

  lemma PaddedTree(fc: seq<nat>, lens: seq<nat>, long: seq<nat>, max: nat)
    requires Padded(lens, long) && RL.Coded(fc, lens) && |long| <= |fc| && Bounded(lens, max) && KraftOk(lens, MAX_BITS)
    ensures RL.Coded(fc, long) && Bounded(long, max) && KraftOk(long, MAX_BITS)
  {
    hide CodeBits, Kraft, Pow2, ToBits;
    forall n | 0 <= n < |long| ensures long[n] == (if n < |lens| then lens[n] else 0) {}
    forall n | 0 <= n < |long| && long[n] > 0 ensures HoldsCode(fc[n], long, n) {
      CodePadded(lens, long, n);
      assert HoldsCode(fc[n], lens, n);
    }
    KraftPadded(lens, long, |long|, MAX_BITS);
  }

  // ---------------------------------------------------------------- code length symbols

  /** Bits of the symbols `syms`, symbol by symbol. */
  function RunTerm(syms: seq<RL.RunSym>, bl: seq<nat>): nat -> int {
    (s: nat) => RL.CountSym(syms, s) * (At(bl, s) + RL.ExtraWidth(s))
  }

  lemma SymSize(bl: seq<nat>, s: RL.RunSym)
    ensures |RL.SymBits(bl, s)| == At(bl, s.sym) + RL.ExtraWidth(s.sym)
  {
  }

  lemma {:induction false} RunSize(bl: seq<nat>, syms: seq<RL.RunSym>)
    requires RL.SymsOk(syms)
    ensures |RL.RunBits(bl, syms)| == SumTo(BL_CODES, RunTerm(syms, bl))
    decreases |syms|
  {
    hide SumTo, RL.SymBits, RL.ExtraWidth;
    if syms == [] {
      SumToZero(BL_CODES, RunTerm(syms, bl));
    } else {
      var s := syms[0];
      assert RL.SymOk(s);
      RunSize(bl, syms[1..]);
      SymSize(bl, s);
      Distribute(RL.CountSym(syms[1..], s.sym), 1, At(bl, s.sym) + RL.ExtraWidth(s.sym));
      SumToUpdate(BL_CODES, RunTerm(syms[1..], bl), RunTerm(syms, bl), s.sym);
    }
  }

  lemma {:induction false} CountPositive(syms: seq<RL.RunSym>, i: nat)
    requires i < |syms|
    ensures RL.CountSym(syms, syms[i].sym) > 0
  {
    if i > 0 { CountPositive(syms[1..], i - 1); }
  }

  function SymCount(syms: seq<RL.RunSym>): nat -> int { (s: nat) => RL.CountSym(syms, s) }

  lemma {:induction false} SymTotal(syms: seq<RL.RunSym>)
    requires RL.SymsOk(syms)
    ensures SumTo(BL_CODES, SymCount(syms)) == |syms|
    decreases |syms|
  {
    hide SumTo;
    if syms == [] {
      SumToZero(BL_CODES, SymCount(syms));
    } else {
      assert RL.SymOk(syms[0]);
      SymTotal(syms[1..]);
      SumToUpdate(BL_CODES, SymCount(syms[1..]), SymCount(syms), syms[0].sym);
    }
  }

  // ---------------------------------------------------------------- at least four code length codes

  /** No symbol stands for a non zero length. */
  ghost predicate OnlyZeros(syms: seq<RL.RunSym>) {
    forall i :: 0 <= i < |syms| ==> syms[i].sym == 0 || syms[i].sym > 15
  }

  lemma {:induction false} ZerosExpand(syms: seq<RL.RunSym>, acc: seq<nat>)
    requires OnlyZeros(syms) && forall i :: 0 <= i < |acc| ==> acc[i] == 0
    ensures var r := RL.Expand(syms, acc); r.Some? ==> forall i :: 0 <= i < |r.value| ==> r.value[i] == 0
    decreases |syms|
  {
    if syms != [] {
      var s, rest := syms[0], syms[1..];
      assert OnlyZeros(rest);
      if s.sym <= 15 {
        ZerosExpand(rest, acc + [s.sym]);
      } else if s.sym == RL.REP_3_6 {
        if acc != [] { ZerosExpand(rest, acc + RL.Repeat(acc[|acc| - 1], 3 + s.extra)); }
      } else if s.sym == RL.REPZ_3_10 {
        ZerosExpand(rest, acc + RL.Repeat(0, 3 + s.extra));
      } else if s.sym == RL.REPZ_11_138 {
        ZerosExpand(rest, acc + RL.Repeat(0, 11 + s.extra));
      }
    }
  }

  /** A table with a non zero length uses one of the symbols 1 to 15. */
  lemma SomeLength(lens: seq<nat>, n: nat) returns (i: nat)
    requires Bounded(lens, 15) && n < |lens| && lens[n] > 0
    ensures i < |RL.RunCode(lens)| && 1 <= RL.RunCode(lens)[i].sym <= 15
  {
    hide RL.Expand, RL.Runs, Bounded;
    var syms := RL.RunCode(lens);
    RL.RoundTrip(lens, [], []);
    assert syms + [] == syms && [] + lens == lens;
    assert RL.Expand([], lens).value == lens by { NothingToExpand(lens); }
    if OnlyZeros(syms) {
      ZerosExpand(syms, []);
      assert false;
    }
    i :| 0 <= i < |syms| && !(syms[i].sym == 0 || syms[i].sym > 15);
  }

  lemma NothingToExpand(acc: seq<nat>)
    ensures RL.Expand([], acc).Some? && RL.Expand([], acc).value == acc
  {
  }
}
