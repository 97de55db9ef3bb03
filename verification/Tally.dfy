/** ct_tally: the buffers that hold the tokens of the current block, and their frequencies. */
module Tally {
  import opened Bits
  import opened Sums
  import opened Tables
  import opened Tokens
  import opened BitLengths

  // ---------------------------------------------------------------- how tokens are stored

  /** Number of matches among the first `i` tokens. */
  function Matches(ts: seq<Token>, i: nat): (n: nat)
    requires i <= |ts|
    ensures n <= i
  {
    if i == 0 then 0 else Matches(ts, i - 1) + (if ts[i - 1].Match? then 1 else 0)
  }

  /** The byte kept in l_buf: the literal, or the match length less 3. */
  function Lc(t: Token): nat
    requires TokenOk(t)
  {
    if t.Literal? then t.c else t.len - 3
  }

  function Flags(ts: seq<Token>, a: nat, b: nat): (f: bits)
    requires a <= b <= |ts|
    ensures |f| == b - a && forall i :: 0 <= i < b - a ==> f[i] == ts[a + i].Match?
  {
    seq(b - a, i requires 0 <= i < b - a => ts[a + i].Match?)
  }

  function Upto(j: nat, n: nat): nat { if 8 * j + 8 <= n then 8 * j + 8 else n }

  /** The flag byte for tokens 8*j to 8*j + 7. */
  function FlagGroup(ts: seq<Token>, j: nat): nat
    requires 8 * j <= |ts|
  {
    FromBits(Flags(ts, 8 * j, Upto(j, |ts|)))
  }

  ghost predicate DistsStored(d: seq<nat>, ts: seq<Token>) {
    TokensOk(ts) && forall i :: 0 <= i < |ts| && ts[i].Match? ==>
      Matches(ts, i) < |d| && d[Matches(ts, i)] == ts[i].dist - 1
  }

  ghost predicate LitsStored(l: seq<nat>, ts: seq<Token>) {
    TokensOk(ts) && |ts| <= |l| && forall i :: 0 <= i < |ts| ==> l[i] == Lc(ts[i])
  }

  ghost predicate FlagsStored(fl: seq<nat>, groups: nat, ts: seq<Token>) {
    groups <= |fl| && (groups > 0 ==> 8 * groups - 8 < |ts|)
      && forall j :: 0 <= j < groups ==> fl[j] == FlagGroup(ts, j)
  }

  /** lfreq and dfreq count the symbols of the tokens, and one end-of-block. */
  ghost predicate FreqsOk(lf: seq<nat>, df: seq<nat>, ts: seq<Token>) {
    && TokensOk(ts) && |lf| >= L_CODES && |df| >= D_CODES
    && (forall s :: 0 <= s < L_CODES ==> lf[s] == LCount(ts, s) + (if s == END_BLOCK then 1 else 0))
    && (forall s :: 0 <= s < D_CODES ==> df[s] == DCount(ts, s))
  }

  lemma {:induction false} MatchesPrefix(ts: seq<Token>, t: Token, i: nat)
    requires i <= |ts|
    ensures Matches(ts + [t], i) == Matches(ts, i)
  {
    if i > 0 { MatchesPrefix(ts, t, i - 1); }
  }

  lemma {:induction false} MatchesMono(ts: seq<Token>, i: nat, j: nat)
    requires i <= j <= |ts|
    ensures Matches(ts, i) <= Matches(ts, j) && (i < j && ts[i].Match? ==> Matches(ts, i) < Matches(ts, j))
  {
    if i < j { MatchesMono(ts, i, j - 1); }
  }

  lemma TokensOkAdd(ts: seq<Token>, t: Token)
    requires TokensOk(ts) && TokenOk(t)
    ensures TokensOk(ts + [t])
  {
  }

  lemma DistsAdd(d: seq<nat>, d': seq<nat>, ts: seq<Token>, t: Token)
    requires DistsStored(d, ts) && TokenOk(t) && |d'| == |d|
    requires forall i :: 0 <= i < |d| && i != Matches(ts, |ts|) ==> d'[i] == d[i]
    requires t.Match? ==> Matches(ts, |ts|) < |d| && d'[Matches(ts, |ts|)] == t.dist - 1
    ensures DistsStored(d', ts + [t])
  {
    var us := ts + [t];
    TokensOkAdd(ts, t);
    forall i | 0 <= i < |us| && us[i].Match? ensures Matches(us, i) < |d'| && d'[Matches(us, i)] == us[i].dist - 1 {
      MatchesPrefix(ts, t, i);
      if i < |ts| { MatchesMono(ts, i, |ts|); }
    }
  }

  lemma FlagGroupPrefix(ts: seq<Token>, t: Token, j: nat)
    requires 8 * j + 8 <= |ts|
    ensures FlagGroup(ts + [t], j) == FlagGroup(ts, j)
  {
    assert Flags(ts + [t], 8 * j, 8 * j + 8) == Flags(ts, 8 * j, 8 * j + 8);
  }

  lemma {:induction false} FromBitsSnoc(b: bits, x: bool)
    ensures FromBits(b + [x]) == FromBits(b) + (if x then Pow2(|b|) else 0)
  {
    if b == [] {
      assert b + [x] == [x];
      assert FromBits([x][1..]) == 0;
    } else {
      assert (b + [x])[1..] == b[1..] + [x];
      FromBitsSnoc(b[1..], x);
    }
  }

  /** `flags |= flag_bit` sets the flag of the new token. */
  lemma FlagAdded(ts: seq<Token>, t: Token, a: nat)
    requires a <= |ts|
    ensures FromBits(Flags(ts + [t], a, |ts| + 1)) ==
            if t.Match? then Or(FromBits(Flags(ts, a, |ts|)), Pow2(|ts| - a)) else FromBits(Flags(ts, a, |ts|))
  {
    var b := Flags(ts, a, |ts|);
    assert Flags(ts + [t], a, |ts| + 1) == b + [t.Match?];
    FromBitsSnoc(b, t.Match?);
    FromBitsBound(b);
    OrDisjoint(FromBits(b), 1, |ts| - a);
  }

  // ---------------------------------------------------------------- frequencies

  lemma LCountAdd(ts: seq<Token>, t: Token, s: nat)
    requires TokensOk(ts) && TokenOk(t)
    ensures TokensOk(ts + [t])
    ensures LCount(ts + [t], s) == LCount(ts, s) + (if LSym(t) == s then 1 else 0)
    ensures DCount(ts + [t], s) == DCount(ts, s) + (if t.Match? && DSym(t) == s then 1 else 0)
  {
    assert (ts + [t])[..|ts|] == ts;
  }

  lemma FreqsAdd(lf: seq<nat>, df: seq<nat>, ts: seq<Token>, t: Token)
    requires FreqsOk(lf, df, ts) && TokenOk(t)
    ensures var lf' := lf[LSym(t) := lf[LSym(t)] + 1];
            var df' := if t.Match? then df[DSym(t) := df[DSym(t)] + 1] else df;
            FreqsOk(lf', df', ts + [t])
  {
    hide LCount, DCount, LengthCode, DistCode;
    TokensOkAdd(ts, t);
    forall s | 0 <= s < L_CODES { LCountAdd(ts, t, s); }
    forall s | 0 <= s < D_CODES { LCountAdd(ts, t, s); }
  }

  // ---------------------------------------------------------------- the buffer

  class TokenBuffer {
    const litSize: nat       // LIT_BUFSIZE
    const distSize: nat      // DIST_BUFSIZE
    const lBuf: array<nat>
    const dBuf: array<nat>
    const flagBuf: array<nat>
    var lastLit: nat
    var lastDist: nat
    var lastFlags: nat
    var flags: nat
    var flagBit: nat
    ghost var tokens: seq<Token>   // what the buffers hold

    constructor (litSize: nat, distSize: nat)
      requires litSize % 8 == 0 && 8 <= litSize <= 0x8000 && 1 <= distSize
      ensures Valid() && tokens == [] && fresh(lBuf) && fresh(dBuf) && fresh(flagBuf)
      ensures this.litSize == litSize && this.distSize == distSize
    {
      this.litSize, this.distSize := litSize, distSize;
      lBuf, dBuf, flagBuf := new nat[litSize](_ => 0), new nat[distSize](_ => 0), new nat[litSize / 8](_ => 0);
      lastLit, lastDist, lastFlags, flags, flagBit := 0, 0, 0, 0, 1;
      tokens := [];
      new;
      assert Flags([], 0, 0) == [];
    }

    ghost predicate Shape() {
      && litSize % 8 == 0 && 8 <= litSize <= 0x8000 && 1 <= distSize
      && lBuf.Length == litSize && dBuf.Length == distSize && flagBuf.Length == litSize / 8
      && lBuf != dBuf && lBuf != flagBuf && dBuf != flagBuf
    }

    ghost predicate Valid()
      reads this, lBuf, dBuf, flagBuf
    {
      && Shape() && TokensOk(tokens)
      && |tokens| == lastLit < litSize && lastDist == Matches(tokens, |tokens|) <= distSize
      && LitsStored(lBuf[..], tokens) && DistsStored(dBuf[..], tokens)
      && FlagsOf(tokens)
    }

    /** flag_buf and the byte being filled hold the flags of `ts`. */
    ghost predicate FlagsOf(ts: seq<Token>)
      reads this, flagBuf
    {
      && lastFlags == |ts| / 8 && FlagsStored(flagBuf[..], lastFlags, ts)
      && flags == FromBits(Flags(ts, 8 * lastFlags, |ts|)) && flagBit == Pow2(|ts| % 8)
    }

    /** Room for one more token without reaching the limits. */
    ghost predicate HasRoom()
      reads this
    {
      lastLit < litSize - 1 && lastDist < distSize
    }

    method Clear()
      requires Shape()
      modifies this
      ensures Valid() && tokens == [] && HasRoom()
    {
      lastLit, lastDist, lastFlags, flags, flagBit := 0, 0, 0, 0, 1;
      tokens := [];
      assert Flags([], 0, 0) == [];
    }

    /** Save the flags of the last, incomplete group. */
    method SaveFlags()
      requires Valid()
      modifies flagBuf
      ensures Valid() && FlagsStored(flagBuf[..], (lastLit + 7) / 8, tokens)
    {
      hide LitsStored, DistsStored, FromBits, Pow2;
      flagBuf[lastFlags] := flags;
      assert forall j :: 0 <= j < lastFlags ==> flagBuf[..][j] == old(flagBuf[..])[j];
    }

    method StoreFlag(isMatch: bool, count: nat, ghost ts: seq<Token>, ghost t: Token)
      requires Shape() && FlagsOf(ts) && isMatch == t.Match? && count == |ts| + 1 && |ts| < litSize
      modifies this`lastFlags, this`flags, this`flagBit, flagBuf
      ensures FlagsOf(ts + [t])
    {
      hide FlagsStored, Pow2, Or, FromBits;
      FlagAdded(ts, t, 8 * lastFlags);
      if isMatch {
        flags := Or(flags, flagBit);
      }
      FlagsKept(flagBuf[..], lastFlags, ts, t);
      if count % 8 == 0 {
        FlagsMore(flagBuf[..], lastFlags, ts + [t], flags);
        ghost var fl: seq<nat> := flagBuf[..];
        flagBuf[lastFlags] := flags;
        assert flagBuf[..] == fl[lastFlags := flags];
        lastFlags := lastFlags + 1;
        flags := 0;
        flagBit := 1;
        NoFlags(ts + [t]);
        Pow2Values();
      } else {
        FlagBitNext(|ts|);
        flagBit := (2 * flagBit) % 256;
      }
    }

    /** Put one token into the buffers; its frequencies are counted by the caller. */
    method Store(dist: nat, lc: nat, ghost t: Token)
      requires Valid() && HasRoom() && TokenOk(t) && lc < 256
      requires if dist == 0 then t == Literal(lc) else t == Match(dist, lc + 3)
      modifies this, lBuf, dBuf, flagBuf
      ensures Valid() && tokens == old(tokens) + [t] && lastLit == old(lastLit) + 1
      ensures lastDist == old(lastDist) + (if t.Match? then 1 else 0)
    {
      hide FlagsStored, DistsStored, LitsStored, Pow2, FromBits;
      ghost var ts := tokens;
      TokensOkAdd(ts, t);
      MatchesPrefix(ts, t, |ts|);
      ghost var l: seq<nat>, d: seq<nat> := lBuf[..], dBuf[..];
      lBuf[lastLit] := lc;
      LitsAdd(l, lBuf[..], ts, t);
      lastLit := lastLit + 1;
      if dist != 0 {
        dBuf[lastDist] := dist - 1;
        lastDist := lastDist + 1;
      }
      DistsAdd(d, dBuf[..], ts, t);
      StoreFlag(dist != 0, lastLit, ts, t);
      tokens := ts + [t];
    }

    /** Bits for the distances if each had a 5-bit code. */
    method DistanceBits(df: array<nat>) returns (total: nat)
      requires df.Length >= D_CODES
      ensures total == SumTo(D_CODES, DistanceTerm(df[..]))
    {
      hide SumTo, DistanceTerm;
      total := 0;
      SumToStep(0, DistanceTerm(df[..]));
      for dcode := 0 to D_CODES
        invariant total == SumTo(dcode, DistanceTerm(df[..]))
      {
        SumToStep(dcode, DistanceTerm(df[..]));
        DistanceTermAt(df[..], dcode);
        total := total + df[dcode] * (5 + EXTRA_DBITS[dcode]);
      }
    }

    /** Save a literal (dist == 0) or a match and count its symbols.  Says whether the block must be
        flushed: the buffers are full, or stopping here looks profitable. */
    method CtTally(ld: TreeDesc, dd: TreeDesc, tables: CodeTables, dist: nat, lc: nat, inLength: nat)
      returns (flush: bool)
      requires Valid() && HasRoom() && tables.Valid() && FreqsOk(ld.fc[..], dd.fc[..], tokens)
      requires ld.fc != dd.fc && {ld.fc, dd.fc} !! {lBuf, dBuf, flagBuf}
      requires {ld.fc, dd.fc} !! {tables.lengthCode, tables.baseLength, tables.distCode, tables.baseDist}
      requires {lBuf, dBuf, flagBuf} !! {tables.lengthCode, tables.baseLength, tables.distCode, tables.baseDist}
      requires lc < 256 && dist <= 32768
      modifies this, lBuf, dBuf, flagBuf, ld.fc, dd.fc
      ensures Valid() && tokens == old(tokens) + [TokenFor(dist, lc)]
      ensures FreqsOk(ld.fc[..], dd.fc[..], tokens)
      ensures flush == (StopEarly(dd.fc[..], lastLit, lastDist, inLength) || lastLit == litSize - 1
                || lastDist == distSize)
    {
      hide FreqsOk, Pow2, LengthCode, DistCode, SumTo, FlagsStored, DistsStored, LitsStored, FromBits;
      ghost var t, lf: seq<nat>, df: seq<nat> := TokenFor(dist, lc), ld.fc[..], dd.fc[..];
      FreqsAdd(lf, df, tokens, t);
      FreqsBounds(lf, df, tokens);
      Store(dist, lc, t);
      if dist == 0 {
        ld.fc[lc] := ld.fc[lc] + 1;
        assert ld.fc[..] == lf[lc := lf[lc] + 1];
      } else {
        var code := tables.lengthCode[lc] + LITERALS + 1;
        var dcode := tables.DCode(dist - 1);
        assert code == LSym(t) && dcode == DSym(t);
        ld.fc[code] := ld.fc[code] + 1;
        dd.fc[dcode] := dd.fc[dcode] + 1;
        assert ld.fc[..] == lf[code := lf[code] + 1] && dd.fc[..] == df[dcode := df[dcode] + 1];
      }
      assert FreqsOk(ld.fc[..], dd.fc[..], tokens);
      if lastLit % 0x1000 == 0 {
        var distBits := DistanceBits(dd.fc);
        var outLength := (lastLit * 8 + distBits) / 8;
        if lastDist < lastLit / 2 && outLength < inLength / 2 {
          return true;
        }
      }
      flush := lastLit == litSize - 1 || lastDist == distSize;
    }
  }

  function TokenFor(dist: nat, lc: nat): Token
    requires lc < 256
  {
    if dist == 0 then Literal(lc) else Match(dist, lc + 3)
  }

  function DistanceTerm(df: seq<nat>): nat -> int {
    (c: nat) => if c < D_CODES && c < |df| then df[c] * (5 + EXTRA_DBITS[c]) else 0
  }

  lemma DistanceTermAt(df: seq<nat>, c: nat)
    requires c < D_CODES <= |df|
    ensures DistanceTerm(df)(c) == df[c] * (5 + EXTRA_DBITS[c])
  {
  }

  /** The guess that ending the block now pays off. */
  predicate StopEarly(df: seq<nat>, lastLit: nat, lastDist: nat, inLength: nat) {
    && lastLit % 0x1000 == 0 && lastDist < lastLit / 2
    && (lastLit * 8 + SumTo(D_CODES, DistanceTerm(df))) / 8 < inLength / 2
  }

  lemma FreqsBounds(lf: seq<nat>, df: seq<nat>, ts: seq<Token>)
    requires FreqsOk(lf, df, ts)
    ensures |lf| >= L_CODES && |df| >= D_CODES && TokensOk(ts)
  {
  }

  lemma LitsAdd(l: seq<nat>, l': seq<nat>, ts: seq<Token>, t: Token)
    requires LitsStored(l, ts) && TokenOk(t) && |l'| == |l| && |ts| < |l| && l'[|ts|] == Lc(t)
    requires forall i :: 0 <= i < |ts| ==> l'[i] == l[i]
    ensures LitsStored(l', ts + [t])
  {
    TokensOkAdd(ts, t);
  }

  lemma FlagsKept(fl: seq<nat>, groups: nat, ts: seq<Token>, t: Token)
    requires FlagsStored(fl, groups, ts) && groups == |ts| / 8
    ensures FlagsStored(fl, groups, ts + [t])
  {
    forall j | 0 <= j < groups ensures fl[j] == FlagGroup(ts + [t], j) {
      FlagGroupPrefix(ts, t, j);
    }
  }

  lemma FlagsMore(fl: seq<nat>, groups: nat, ts: seq<Token>, flags: nat)
    requires FlagsStored(fl, groups, ts) && groups < |fl| && 8 * groups < |ts| <= 8 * groups + 8
    requires flags == FromBits(Flags(ts, 8 * groups, |ts|))
    ensures FlagsStored(fl[groups := flags], groups + 1, ts)
  {
    hide FromBits;
  }

  lemma NoFlags(ts: seq<Token>)
    ensures FromBits(Flags(ts, |ts|, |ts|)) == 0
  {
  }

  lemma FlagBitNext(n: nat)
    requires (n + 1) % 8 != 0
    ensures (2 * Pow2(n % 8)) % 256 == Pow2((n + 1) % 8)
  {
    assert (n + 1) % 8 == n % 8 + 1;
    Pow2Mono(n % 8 + 1, 7);
    Pow2Values();
  }
}
