/** What the choice of flush_block costs, for the blocks that it sends. */
module BlockCost {
  import opened Bits
  import opened Options
  import opened Canonical
  import opened Tables
  import opened Tokens
  import opened BitLengths
  import opened StaticTrees
  import opened BlockTrees
  import opened InflateRoundTrip
  import opened BlockChoice
  import opened BlockEncodings
  import RL = RunLength

  /** No encoding of the block ends in an earlier byte than `block`. */
  ghost predicate EndsFirst(block: bits, eof: bool, pos: nat, data: Option<seq<byte>>, ts: seq<Token>, t: Trees)
    requires TreesOk(ts, t)
  {
    forall other: BlockKind :: (other.Stored? ==> data.Some?) ==>
      (pos + |block| + 7) / 8 <= (pos + |Encoding(other, eof, pos, data.GetOr([]), ts, t)| + 7) / 8
  }

  /** A block that is sent is as short in bytes as any encoding of it with its trees, unless the stored
      form was too long for its test or the static form lost a tie. */
  lemma FlushedIsSmallestIff(kind: BlockKind, block: bits, eof: bool, pos: nat, data: Option<seq<byte>>, storedLen: nat,
                             ts: seq<Token>, t: Trees)
    requires Flushed(kind, block, eof, pos, data, storedLen, ts, t)
    ensures var optBits, staticBits := |DynamicBits(ts, t)|, StaticSize(ts);
            EndsFirst(block, eof, pos, data, ts, t)
            <==> && !StoredTooLong(data.Some?, pos, storedLen, optBits, staticBits)
                 && !TieLost(data.Some?, pos, storedLen, optBits, staticBits)
  {
    hide TreesOk, DynamicBits, StaticSize, Choice, Encoding, StoredTooLong, TieLost, SizeOf;
    TreesTokens(ts, t);
    var optBits, staticBits := |DynamicBits(ts, t)|, StaticSize(ts);
    forall other: BlockKind | other.Stored? ==> data.Some?
      ensures (pos + |Encoding(other, eof, pos, data.GetOr([]), ts, t)| + 7) / 8
                == BytesAfter(other, pos, storedLen, optBits, staticBits)
    {
      EncodingSize(other, eof, pos, data.GetOr([]), ts, t);
      SizeIgnores(other, pos, |data.GetOr([])|, storedLen, optBits, staticBits);
    }
    ChoiceHasData(data.Some?, storedLen, optBits, staticBits);
    ChosenIsSmallestIff(data.Some?, pos, storedLen, optBits, staticBits);
  }

  lemma TreesTokens(ts: seq<Token>, t: Trees)
    requires TreesOk(ts, t)
    ensures TokensOk(ts)
  {
  }

  lemma SizeIgnores(kind: BlockKind, pos: nat, a: nat, b: nat, optBits: nat, staticBits: nat)
    requires kind.Stored? ==> a == b
    ensures SizeOf(kind, pos, a, optBits, staticBits) == SizeOf(kind, pos, b, optBits, staticBits)
  {
  }

  lemma ChoiceHasData(haveData: bool, storedLen: nat, optBits: nat, staticBits: nat)
    ensures Choice(haveData, storedLen, optBits, staticBits).Stored? ==> haveData
  {
  }

  // ---------------------------------------------------------------- bytes that never repeat

  ghost predicate Distinct(s: seq<byte>) { forall i, j :: 0 <= i < j < |s| ==> s[i] != s[j] }

  function Literals(s: seq<byte>): (ts: seq<Token>)
    ensures |ts| == |s| && TokensOk(ts) && forall i :: 0 <= i < |s| ==> ts[i] == Literal(s[i])
  {
    seq(|s|, i requires 0 <= i < |s| => Literal(s[i]))
  }

  lemma {:induction false} CopyStarts(out: seq<byte>, dist: nat, len: nat)
    requires 1 <= dist <= |out|
    ensures out <= CopyBack(out, dist, len) && (len > 0 ==> CopyBack(out, dist, len)[|out|] == out[|out| - dist])
    decreases len
  {
    if len > 0 { CopyStarts(out + [out[|out| - dist]], dist, len - 1); }
  }

  lemma {:induction false} ExpandStarts(ts: seq<Token>, out: seq<byte>)
    ensures Expand(ts, out).Some? ==> out <= Expand(ts, out).value
    decreases |ts|
  {
    if ts != [] {
      match ts[0]
      case Literal(c) => ExpandStarts(ts[1..], out + [c]);
      case Match(d, n) =>
        if 1 <= d <= |out| {
          CopyStarts(out, d, n);
          ExpandStarts(ts[1..], CopyBack(out, d, n));
        }
    }
  }

  lemma Repeats(s: seq<byte>, i: nat, j: nat)
    requires i < j < |s| && s[i] == s[j]
    ensures !Distinct(s)
  {
  }

  /** Bytes that never repeat can only be sent as literals. */
  lemma {:induction false} OnlyLiterals(ts: seq<Token>, out: seq<byte>, more: seq<byte>)
    requires TokensOk(ts) && Expand(ts, out) == Some(more) && Distinct(more)
    ensures out <= more && ts == Literals(more[|out|..])
    decreases |ts|
  {
    ExpandStarts(ts, out);
    if ts != [] {
      assert TokenOk(ts[0]);
      match ts[0]
      case Literal(c) =>
        OnlyLiterals(ts[1..], out + [c], more);
        assert more[|out|..] == [c] + more[|out| + 1..];
        assert ts == [ts[0]] + ts[1..];
      case Match(d, n) =>
        CopyStarts(out, d, n);
        ExpandStarts(ts[1..], CopyBack(out, d, n));
        Repeats(more, |out| - d, |out|);
        assert false;
    }
  }

  // ---------------------------------------------------------------- how short a dynamic block can be

  /** 2^(15 - l) lies above its tangent at 4. */
  lemma UnitTangent(l: nat)
    requires 1 <= l <= MAX_BITS
    ensures Pow2(MAX_BITS - l) >= 2048 * (5 - l)
  {
    hide Pow2;
    Pow2Values();
    if l < 5 { Pow2Mono(11, MAX_BITS - l); }
  }

  /** Bytes from `first` up. */
  function From(first: nat, n: nat): (s: seq<byte>)
    requires first + n <= 256
    ensures |s| == n && forall i :: 0 <= i < n ==> s[i] == first + i
  {
    seq(n, i requires 0 <= i < n => first + i)
  }

  /** The codes of `n` different bytes cannot all be short. */
  lemma {:induction false} KraftOfBytes(ll: seq<nat>, dl: seq<nat>, first: nat, n: nat)
    requires first + n <= 256 <= |ll| && Bounded(ll, MAX_BITS) && forall i :: first <= i < first + n ==> ll[i] > 0
    ensures Kraft(ll, first + n, MAX_BITS) + 2048 * |TokensBits(Literals(From(first, n)), ll, dl)| >= 2048 * 5 * n
    decreases n
  {
    hide TokenBits, Pow2;
    if n > 0 {
      KraftOfBytes(ll, dl, first, n - 1);
      var ts, t := Literals(From(first, n - 1)), Literal(first + n - 1);
      assert Literals(From(first, n)) == ts + [t];
      TokensBitsAppend(ts, [t], ll, dl);
      assert [t][1..] == [];
      TokenSize(t, ll, dl);
      UnitTangent(ll[first + n - 1]);
    }
  }

  lemma {:induction false} KraftGrows(lens: seq<nat>, a: nat, b: nat, max: nat)
    requires a <= b <= |lens| && Bounded(lens, max)
    ensures Kraft(lens, a, max) <= Kraft(lens, b, max)
  {
    if a < b { KraftGrows(lens, a, b - 1, max); }
  }

  /** `n` different bytes and the end of the block: the lengths sum to at least that of equal codes. */
  lemma DataCost(ll: seq<nat>, dl: seq<nat>, first: nat, n: nat)
    requires first + n <= 256 && Codable(Literals(From(first, n)), ll, dl) && KraftOk(ll, MAX_BITS)
    ensures |BlockBits(Literals(From(first, n)), ll, dl)| + 16 >= 5 * (n + 1)
  {
    hide TokensBits, Pow2, CodeAt;
    var ts := Literals(From(first, n));
    forall i | first <= i < first + n ensures ll[i] > 0 {
      assert LSym(ts[i - first]) == i;
    }
    KraftOfBytes(ll, dl, first, n);
    KraftGrows(ll, first + n, END_BLOCK, MAX_BITS);
    KraftGrows(ll, END_BLOCK + 1, |ll|, MAX_BITS);
    UnitTangent(ll[END_BLOCK]);
    CodeAtLen(ll, END_BLOCK);
    assert Pow2(MAX_BITS) == 0x8000 by { Pow2Values(); }
  }

  /** A symbol of the code length alphabet takes at least one bit for 18 lengths. */
  lemma SymSpan(s: RL.RunSym)
    requires RL.SymOk(s)
    ensures s.sym == RL.REP_3_6 ==> 3 + s.extra <= 18
    ensures s.sym == RL.REPZ_3_10 ==> 3 + s.extra <= 18
    ensures s.sym == RL.REPZ_11_138 ==> 11 + s.extra <= 18 * 8
  {
    Pow2Values();
  }

  lemma {:induction false} RunCost(bl: seq<nat>, syms: seq<RL.RunSym>, acc: seq<nat>)
    requires RL.AllCoded(bl, syms) && RL.SymsOk(syms)
    ensures RL.Expand(syms, acc).Some? ==> |RL.Expand(syms, acc).value| <= |acc| + 18 * |RL.RunBits(bl, syms)|
    decreases |syms|
  {
    hide RL.SymBits, RL.SymOk;
    if syms != [] {
      var s, rest := syms[0], syms[1..];
      assert RL.SymOk(s);
      SymSpan(s);
      SymSize(bl, s);
      if s.sym <= 15 {
        RunCost(bl, rest, acc + [s.sym]);
      } else if s.sym == RL.REP_3_6 {
        if acc != [] { RunCost(bl, rest, acc + RL.Repeat(acc[|acc| - 1], 3 + s.extra)); }
      } else if s.sym == RL.REPZ_3_10 {
        RunCost(bl, rest, acc + RL.Repeat(0, 3 + s.extra));
      } else if s.sym == RL.REPZ_11_138 {
        RunCost(bl, rest, acc + RL.Repeat(0, 11 + s.extra));
      }
    }
  }

  lemma TableCost(bl: seq<nat>, lens: seq<nat>)
    requires Bounded(lens, 15) && RL.AllCoded(bl, RL.RunCode(lens))
    ensures |lens| <= 18 * |RL.RunBits(bl, RL.RunCode(lens))|
  {
    hide RL.Runs, RL.Expand, Bounded, RL.RunBits, RL.AllCoded;
    RL.RoundTrip(lens, [], []);
    var syms := RL.RunCode(lens);
    assert syms + [] == syms && [] + lens == lens;
    NothingToExpand(lens);
    RunCost(bl, syms, []);
  }

  // ---------------------------------------------------------------- without matches

  /** Symbols below `k` that have a code. */
  ghost function CodedBelow(lens: seq<nat>, k: nat): set<nat>
    requires k <= |lens|
  {
    set n | 0 <= n < k && lens[n] > 0
  }

  /** A code of one bit takes half of the Kraft sum, a longer one less. */
  lemma {:induction false} KraftHalves(lens: seq<nat>, k: nat)
    requires k <= |lens| && Bounded(lens, MAX_BITS)
    ensures Kraft(lens, k, MAX_BITS) <= 0x4000 * |CodedBelow(lens, k)|
    ensures (exists n :: 0 <= n < k && lens[n] > 1) ==> Kraft(lens, k, MAX_BITS) < 0x4000 * |CodedBelow(lens, k)|
  {
    hide Pow2;
    if k > 0 {
      KraftHalves(lens, k - 1);
      if lens[k - 1] == 0 {
        assert CodedBelow(lens, k) == CodedBelow(lens, k - 1);
      } else {
        assert CodedBelow(lens, k) == CodedBelow(lens, k - 1) + {k - 1};
        Pow2Values();
        if lens[k - 1] > 1 { Pow2Mono(MAX_BITS - lens[k - 1], 13); }
      }
    }
  }

  /** When nothing needs a code, two symbols get one bit each. */
  lemma ForcedOnes(lens: seq<nat>)
    requires ExactCode(lens, {})
    ensures forall n :: 0 <= n < |lens| ==> lens[n] <= 1
    ensures |lens| >= 2 && exists n :: 0 <= n < |lens| && lens[n] == 1
  {
    hide Pow2, Kraft;
    Pow2Values();
    KraftHalves(lens, |lens|);
    assert CodedBelow(lens, |lens|) == CodedBy(lens);
    SubsetSize(CodedBy(lens), |lens|);
    var n :| n in CodedBy(lens);
  }

  /** The run-length code of ones and zeros uses the symbol 1. */
  lemma OneIsUsed(lens: seq<nat>, n: nat) returns (i: nat)
    requires n < |lens| && lens[n] == 1 && forall n :: 0 <= n < |lens| ==> lens[n] <= 1
    ensures i < |RL.RunCode(lens)| && RL.RunCode(lens)[i].sym == 1
  {
    hide RL.Runs, RL.Expand;
    i := SomeLength(lens, n);
    RL.RoundTrip(lens, [], []);
    var syms := RL.RunCode(lens);
    assert syms + [] == syms && [] + lens == lens;
    NothingToExpand(lens);
    LengthAppears(syms, [], i);
  }

  /** A symbol up to 15 appears among the lengths. */
  lemma {:induction false} LengthAppears(syms: seq<RL.RunSym>, acc: seq<nat>, i: nat)
    requires i < |syms| && syms[i].sym <= 15 && RL.Expand(syms, acc).Some?
    ensures acc <= RL.Expand(syms, acc).value && syms[i].sym in RL.Expand(syms, acc).value
    decreases |syms|
  {
    var s, rest := syms[0], syms[1..];
    var next := if s.sym <= 15 then acc + [s.sym]
      else if s.sym == RL.REP_3_6 then acc + RL.Repeat(acc[|acc| - 1], 3 + s.extra)
      else if s.sym == RL.REPZ_3_10 then acc + RL.Repeat(0, 3 + s.extra) else acc + RL.Repeat(0, 11 + s.extra);
    assert RL.Expand(syms, acc) == RL.Expand(rest, next);
    if i > 0 {
      LengthAppears(rest, next, i - 1);
    } else {
      ExpandKeeps(rest, next);
      assert next[|acc|] == s.sym;
    }
  }

  lemma {:induction false} ExpandKeeps(syms: seq<RL.RunSym>, acc: seq<nat>)
    ensures RL.Expand(syms, acc).Some? ==> acc <= RL.Expand(syms, acc).value
    decreases |syms|
  {
    if syms != [] {
      var s, rest := syms[0], syms[1..];
      if s.sym <= 15 {
        ExpandKeeps(rest, acc + [s.sym]);
      } else if s.sym == RL.REP_3_6 {
        if acc != [] { ExpandKeeps(rest, acc + RL.Repeat(acc[|acc| - 1], 3 + s.extra)); }
      } else if s.sym == RL.REPZ_3_10 {
        ExpandKeeps(rest, acc + RL.Repeat(0, 3 + s.extra));
      } else if s.sym == RL.REPZ_11_138 {
        ExpandKeeps(rest, acc + RL.Repeat(0, 11 + s.extra));
      }
    }
  }

  /** Without matches the code length codes are sent up to the one for length 1, the last but one. */
  lemma HeaderCost(ts: seq<Token>, t: Trees)
    requires TreesOk(ts, t) && forall i :: 0 <= i < |ts| ==> ts[i].Literal?
    ensures |CodesBits(t.ll, t.dl, t.bl, t.nbl)| >= 84
  {
    hide Codable, GoodCodes, ExactCode, RL.Runs, RL.RunBits, CodesBits, Kraft, Bounded;
    HeaderFacts(t.ll, t.dl, t.bl, t.nbl);
    assert DSyms(ts) == {};
    ForcedOnes(t.dl);
    var n :| 0 <= n < |t.dl| && t.dl[n] == 1;
    var i := OneIsUsed(t.dl, n);
    LastRankOfOne(t.bl, t.nbl);
    CodesSize(t.ll, t.dl, t.bl, t.nbl);
    TableCost(t.bl, t.ll);
    TableCost(t.bl, t.dl);
  }

  lemma LastRankOfOne(bl: seq<nat>, nbl: nat)
    requires ZeroFrom(bl, nbl) && bl[1] > 0
    ensures nbl >= 18
  {
    assert BL_ORDER[17] == 1;
  }

  // ---------------------------------------------------------------- the choice can be a byte too long

  /** Literals from 144 up take nine bits each. */
  lemma {:induction false} HighLiterals(ts: seq<Token>)
    requires forall i :: 0 <= i < |ts| ==> ts[i].Literal? && ts[i].c >= 144
    ensures |TokensBits(ts, StaticLens(), StaticDistLens())| == 9 * |ts|
    decreases |ts|
  {
    hide TokenBits;
    if ts != [] {
      TokenSize(ts[0], StaticLens(), StaticDistLens());
      HighLiterals(ts[1..]);
    }
  }

  /** The bytes 144 to 158 alone in a file are stored, in 20 bytes.  As a static block they
      would take 19. */
  lemma FifteenBytes(kind: BlockKind, block: bits, eof: bool, pos: nat, ts: seq<Token>, t: Trees)
    requires pos % 8 == 0 && Expand(ts, []) == Some(From(144, 15))
    requires Flushed(kind, block, eof, pos, Some(From(144, 15)), 15, ts, t)
    ensures kind == Stored && |block| == 20 * 8
    ensures 18 * 8 < |Encoding(Static, eof, pos, From(144, 15), ts, t)| <= 19 * 8
  {
    hide TreesOk, DynamicBits, BlockBits, CodesBits, Expand, StaticLens, StaticDistLens, Encoding;
    TreesTokens(ts, t);
    OnlyLiterals(ts, [], From(144, 15));
    assert From(144, 15)[0..] == From(144, 15);
    FifteenSizes(t);
    EncodingSize(Stored, eof, pos, From(144, 15), ts, t);
    EncodingSize(Static, eof, pos, From(144, 15), ts, t);
  }

  lemma FifteenSizes(t: Trees)
    requires TreesOk(Literals(From(144, 15)), t)
    ensures |DynamicBits(Literals(From(144, 15)), t)| >= 142 && StaticSize(Literals(From(144, 15))) == 142
  {
    hide BlockBits, CodesBits, HeaderOk, ExactCode, Codable, KraftOk, StaticLens, StaticDistLens;
    var ts := Literals(From(144, 15));
    HeaderFacts(t.ll, t.dl, t.bl, t.nbl);
    HeaderCost(ts, t);
    DataCost(t.ll, t.dl, 144, 15);
    StaticFifteen();
  }

  lemma StaticFifteen()
    ensures StaticSize(Literals(From(144, 15))) == 142
  {
    hide TokensBits, CodeAt;
    HighLiterals(Literals(From(144, 15)));
    CodeAtLen(StaticLens(), END_BLOCK);
  }
}
