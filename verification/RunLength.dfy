/** Run-length coding of code lengths: scan_tree counts and send_tree emits the same symbols,
    and reading them back by section 3.2.7 of RFC 1951 gives the lengths. */
module RunLength {
  import opened Bits
  import opened Canonical
  import opened BitQueues
  import opened Options

  const REP_3_6 := 16
  const REPZ_3_10 := 17
  const REPZ_11_138 := 18
  const GUARD := 0xffff

  /** A symbol of the code length alphabet and the value of its extra bits. */
  datatype RunSym = RunSym(sym: nat, extra: nat)

  /** extra_blbits */
  function ExtraWidth(sym: nat): nat {
    if sym == REP_3_6 then 2 else if sym == REPZ_3_10 then 3 else if sym == REPZ_11_138 then 7 else 0
  }

  function Repeat<T>(x: T, n: nat): (s: seq<T>)
    ensures |s| == n && forall i :: 0 <= i < n ==> s[i] == x
  {
    seq(n, _ => x)
  }

  // ---------------------------------------------------------------- the coder

  /** The longest run collected before a symbol is emitted, given the previous and the current length. */
  function MaxCount(prev: int, cur: nat): nat {
    if cur == 0 then 138 else if prev == cur then 6 else 7
  }

  function MinCount(prev: int, cur: nat): nat {
    if cur == 0 then 3 else if prev == cur then 3 else 4
  }

  /** The symbols for `count` times the length `cur`. */
  function Emit(prev: int, cur: nat, count: nat): seq<RunSym> {
    if count < MinCount(prev, cur) then Repeat(RunSym(cur, 0), count)
    else if cur != 0 then
      if cur != prev then [RunSym(cur, 0), RunSym(REP_3_6, count - 1 - 3)] else [RunSym(REP_3_6, count - 3)]
    else if count <= 10 then [RunSym(REPZ_3_10, count - 3)]
    else [RunSym(REPZ_11_138, count - 11)]
  }

  function NextLen(lens: seq<nat>, n: nat): nat
    requires n < |lens|
  {
    if n + 1 < |lens| then lens[n + 1] else GUARD
  }

  /** The symbols still to be emitted before length `n` is looked at, when the `count` lengths
      before it are pending. */
  function Runs(lens: seq<nat>, n: nat, prev: int, count: nat): seq<RunSym>
    requires n <= |lens|
    decreases |lens| - n
  {
    if n == |lens| then []
    else if count + 1 < MaxCount(prev, lens[n]) && lens[n] == NextLen(lens, n) then Runs(lens, n + 1, prev, count + 1)
    else Emit(prev, lens[n], count + 1) + Runs(lens, n + 1, lens[n], 0)
  }

  /** The run-length code of a whole table. */
  function RunCode(lens: seq<nat>): seq<RunSym> { Runs(lens, 0, -1, 0) }

  // ---------------------------------------------------------------- the decoder of RFC 1951

  /** Section 3.2.7: 16 copies the previous length, 17 and 18 repeat zero. */
  function Expand(syms: seq<RunSym>, acc: seq<nat>): Option<seq<nat>>
    decreases |syms|
  {
    if syms == [] then Some(acc)
    else
      var s := syms[0];
      if s.sym <= 15 then Expand(syms[1..], acc + [s.sym])
      else if s.sym == REP_3_6 then
        if acc == [] then None else Expand(syms[1..], acc + Repeat(acc[|acc| - 1], 3 + s.extra))
      else if s.sym == REPZ_3_10 then Expand(syms[1..], acc + Repeat(0, 3 + s.extra))
      else if s.sym == REPZ_11_138 then Expand(syms[1..], acc + Repeat(0, 11 + s.extra))
      else None
  }

  // ---------------------------------------------------------------- round trip

  predicate SymOk(s: RunSym) {
    s.sym <= REPZ_11_138 && s.extra < Pow2(ExtraWidth(s.sym))
  }

  predicate SymsOk(syms: seq<RunSym>) { forall i :: 0 <= i < |syms| ==> SymOk(syms[i]) }

  lemma {:induction false} ExpandLiterals(cur: nat, count: nat, rest: seq<RunSym>, acc: seq<nat>)
    requires cur <= 15
    ensures Expand(Repeat(RunSym(cur, 0), count) + rest, acc) == Expand(rest, acc + Repeat(cur, count))
    decreases count
  {
    var syms := Repeat(RunSym(cur, 0), count) + rest;
    if count == 0 {
      assert syms == rest && acc + Repeat(cur, 0) == acc;
    } else {
      assert syms[1..] == Repeat(RunSym(cur, 0), count - 1) + rest;
      ExpandLiterals(cur, count - 1, rest, acc + [cur]);
      assert acc + [cur] + Repeat(cur, count - 1) == acc + Repeat(cur, count);
    }
  }

  ghost predicate LastIs(acc: seq<nat>, prev: int) {
    prev >= 0 ==> |acc| > 0 && acc[|acc| - 1] == prev
  }

  lemma ExpandOne(s: RunSym, rest: seq<RunSym>, acc: seq<nat>)
    requires s.sym <= 15
    ensures Expand([s] + rest, acc) == Expand(rest, acc + [s.sym])
  {
    assert ([s] + rest)[1..] == rest;
  }

  lemma ExpandCopy(n: nat, rest: seq<RunSym>, acc: seq<nat>)
    requires |acc| > 0
    ensures Expand([RunSym(REP_3_6, n)] + rest, acc) == Expand(rest, acc + Repeat(acc[|acc| - 1], 3 + n))
  {
    assert ([RunSym(REP_3_6, n)] + rest)[1..] == rest;
  }

  lemma ExpandZeros(s: RunSym, rest: seq<RunSym>, acc: seq<nat>)
    requires s.sym == REPZ_3_10 || s.sym == REPZ_11_138
    ensures Expand([s] + rest, acc) == Expand(rest, acc + Repeat(0, (if s.sym == REPZ_3_10 then 3 else 11) + s.extra))
  {
    assert ([s] + rest)[1..] == rest;
  }

  /** Decoding the symbols of one run appends the run. */
  lemma ExpandEmit(prev: int, cur: nat, count: nat, rest: seq<RunSym>, acc: seq<nat>)
    requires cur <= 15 && 1 <= count <= MaxCount(prev, cur) && LastIs(acc, prev)
    ensures Expand(Emit(prev, cur, count) + rest, acc) == Expand(rest, acc + Repeat(cur, count))
    ensures SymsOk(Emit(prev, cur, count))
  {
    hide Expand;
    Pow2Values();
    if count < MinCount(prev, cur) {
      ExpandLiterals(cur, count, rest, acc);
    } else if cur != 0 {
      if cur != prev {
        var t := [RunSym(REP_3_6, count - 4)] + rest;
        assert Emit(prev, cur, count) + rest == [RunSym(cur, 0)] + t;
        ExpandOne(RunSym(cur, 0), t, acc);
        ExpandCopy(count - 4, rest, acc + [cur]);
        assert acc + [cur] + Repeat(cur, count - 1) == acc + Repeat(cur, count);
      } else {
        ExpandCopy(count - 3, rest, acc);
      }
    } else if count <= 10 {
      ExpandZeros(RunSym(REPZ_3_10, count - 3), rest, acc);
    } else {
      ExpandZeros(RunSym(REPZ_11_138, count - 11), rest, acc);
    }
  }

  /** The `count` lengths before `n` equal length `n` and fit in the current run. */
  ghost predicate Pending(lens: seq<nat>, n: nat, prev: int, count: nat) {
    && n <= |lens| && count <= n
    && (n == |lens| ==> count == 0)
    && (n < |lens| ==> count < MaxCount(prev, lens[n]) && forall i :: n - count <= i < n ==> lens[i] == lens[n])
  }

  lemma {:induction false} ExpandRuns(lens: seq<nat>, n: nat, prev: int, count: nat, acc: seq<nat>, rest: seq<RunSym>)
    requires Bounded(lens, 15) && Pending(lens, n, prev, count) && LastIs(acc, prev)
    ensures Expand(Runs(lens, n, prev, count) + rest, acc) == Expand(rest, acc + lens[n - count..])
    ensures SymsOk(Runs(lens, n, prev, count))
    decreases |lens| - n
  {
    hide Expand, Emit;
    if n == |lens| {
      assert Runs(lens, n, prev, count) + rest == rest;
      assert acc + lens[n..] == acc;
    } else if count + 1 < MaxCount(prev, lens[n]) && lens[n] == NextLen(lens, n) {
      ExpandRuns(lens, n + 1, prev, count + 1, acc, rest);
    } else {
      var cur, tail := lens[n], Runs(lens, n + 1, lens[n], 0);
      assert (Emit(prev, cur, count + 1) + tail) + rest == Emit(prev, cur, count + 1) + (tail + rest);
      ExpandEmit(prev, cur, count + 1, tail + rest, acc);
      ExpandRuns(lens, n + 1, cur, 0, acc + Repeat(cur, count + 1), rest);
      assert acc + Repeat(cur, count + 1) + lens[n + 1..] == acc + lens[n - count..];
    }
  }

  /** Reading back the code of a table yields the table, whatever was read before it: no run
      crosses the boundary between two tables. */
  lemma RoundTrip(lens: seq<nat>, acc: seq<nat>, rest: seq<RunSym>)
    requires Bounded(lens, 15)
    ensures Expand(RunCode(lens) + rest, acc) == Expand(rest, acc + lens)
    ensures SymsOk(RunCode(lens))
  {
    hide Expand, Runs;
    ExpandRuns(lens, 0, -1, 0, acc, rest);
    assert lens[0..] == lens;
  }

  // ---------------------------------------------------------------- counting

  function CountSym(syms: seq<RunSym>, s: nat): nat {
    if syms == [] then 0 else (if syms[0].sym == s then 1 else 0) + CountSym(syms[1..], s)
  }

  lemma {:induction false} CountSymAppend(a: seq<RunSym>, b: seq<RunSym>, s: nat)
    ensures CountSym(a + b, s) == CountSym(a, s) + CountSym(b, s)
  {
    if a == [] {
      assert a + b == b;
    } else {
      assert (a + b)[1..] == a[1..] + b;
      CountSymAppend(a[1..], b, s);
    }
  }

  lemma {:induction false} CountRepeat(cur: nat, count: nat, s: nat)
    ensures CountSym(Repeat(RunSym(cur, 0), count), s) == if s == cur then count else 0
  {
    if count > 0 {
      assert Repeat(RunSym(cur, 0), count)[1..] == Repeat(RunSym(cur, 0), count - 1);
      CountRepeat(cur, count - 1, s);
    }
  }

  /** How often each symbol occurs in the code of one run: what scan_tree adds. */
  lemma CountEmit(prev: int, cur: nat, count: nat, s: nat)
    requires cur <= 15 && count >= 1
    ensures CountSym(Emit(prev, cur, count), s) ==
            if count < MinCount(prev, cur) then (if s == cur then count else 0)
            else if cur != 0 then (if s == cur && cur != prev then 1 else 0) + (if s == REP_3_6 then 1 else 0)
            else if count <= 10 then (if s == REPZ_3_10 then 1 else 0)
            else (if s == REPZ_11_138 then 1 else 0)
  {
    if count < MinCount(prev, cur) {
      CountRepeat(cur, count, s);
    } else if cur != 0 && cur != prev {
      var e := Emit(prev, cur, count);
      assert e[1..] == [RunSym(REP_3_6, count - 4)];
      assert CountSym(e[1..], s) == (if s == REP_3_6 then 1 else 0) + CountSym(e[1..][1..], s);
    } else {
      var e := Emit(prev, cur, count);
      assert e[1..] == [];
    }
  }

  // ---------------------------------------------------------------- scan_tree

  lemma RunsStep(lens: seq<nat>, n: nat, prev: int, count: nat)
    requires n < |lens|
    ensures Runs(lens, n, prev, count) ==
            if count + 1 < MaxCount(prev, lens[n]) && lens[n] == NextLen(lens, n)
            then Runs(lens, n + 1, prev, count + 1)
            else Emit(prev, lens[n], count + 1) + Runs(lens, n + 1, lens[n], 0)
  {
  }

  lemma CountStep(lens: seq<nat>, n: nat, prev: int, count: nat, s: nat)
    requires n < |lens| && !(count + 1 < MaxCount(prev, lens[n]) && lens[n] == NextLen(lens, n))
    ensures CountSym(Runs(lens, n, prev, count), s)
            == CountSym(Emit(prev, lens[n], count + 1), s) + CountSym(Runs(lens, n + 1, lens[n], 0), s)
  {
    CountSymAppend(Emit(prev, lens[n], count + 1), Runs(lens, n + 1, lens[n], 0), s);
  }

  /** Frequencies after the symbols of one run. */
  method AddRun(freq: array<nat>, prev: int, cur: nat, count: nat, minCount: nat)
    requires freq.Length > REPZ_11_138 && cur <= 15 && count >= 1 && minCount == MinCount(prev, cur)
    modifies freq
    ensures forall s :: 0 <= s < freq.Length ==> freq[s] == old(freq[s]) + CountSym(Emit(prev, cur, count), s)
  {
    hide CountSym, Emit;
    forall s | 0 <= s < freq.Length { CountEmit(prev, cur, count, s); }
    if count < minCount {
      freq[cur] := freq[cur] + count;
    } else if cur != 0 {
      if cur != prev {
        freq[cur] := freq[cur] + 1;
      }
      freq[REP_3_6] := freq[REP_3_6] + 1;
    } else if count <= 10 {
      freq[REPZ_3_10] := freq[REPZ_3_10] + 1;
    } else {
      freq[REPZ_11_138] := freq[REPZ_11_138] + 1;
    }
  }

  /** Count the symbols that send_tree will emit, and set the guard that stops the last run. */
  method ScanTree(dl: array<nat>, maxCode: nat, freq: array<nat>)
    requires dl != freq && maxCode + 1 < dl.Length && freq.Length > REPZ_11_138 && Bounded(dl[..maxCode + 1], 15)
    modifies dl, freq
    ensures dl[..] == old(dl[..])[maxCode + 1 := GUARD]
    ensures forall s :: 0 <= s < freq.Length ==> freq[s] == old(freq[s]) + CountSym(RunCode(old(dl[..maxCode + 1])), s)
  {
    hide CountSym, Emit, Runs, Bounded;
    ghost var lens := dl[..maxCode + 1];
    var prevlen: int := -1;
    var nextlen := dl[0];
    var count, maxCount, minCount := 0, 7, 4;
    if nextlen == 0 {
      maxCount, minCount := 138, 3;
    }
    dl[maxCode + 1] := GUARD;
    assert CountSym([], 0) == 0 by { NoSyms(0); }
    for n := 0 to maxCode + 1
      invariant dl[..] == old(dl[..])[maxCode + 1 := GUARD]
      invariant nextlen == dl[n]
      invariant n <= maxCode ==> maxCount == MaxCount(prevlen, nextlen) && minCount == MinCount(prevlen, nextlen)
      invariant forall s :: 0 <= s < freq.Length ==>
                  freq[s] + CountSym(Runs(lens, n, prevlen, count), s) == old(freq[s]) + CountSym(RunCode(lens), s)
    {
      var curlen := nextlen;
      nextlen := dl[n + 1];
      assert curlen == lens[n] && nextlen == NextLen(lens, n);
      RunsStep(lens, n, prevlen, count);
      ghost var pending := count;
      count := count + 1;
      if count < maxCount && curlen == nextlen {
        continue;
      }
      forall s | 0 <= s < freq.Length { CountStep(lens, n, prevlen, pending, s); }
      assert curlen <= 15 by { BoundedAt(lens, n); }
      AddRun(freq, prevlen, curlen, count, minCount);
      count := 0;
      prevlen := curlen;
      maxCount, minCount := 7, 4;
      if nextlen == 0 {
        maxCount, minCount := 138, 3;
      } else if curlen == nextlen {
        maxCount, minCount := 6, 3;
      }
    }
    forall s | 0 <= s < freq.Length ensures freq[s] == old(freq[s]) + CountSym(RunCode(lens), s) {
      RunsEnd(lens, prevlen, count);
      NoSyms(s);
    }
  }

  lemma BoundedAt(lens: seq<nat>, n: nat)
    requires Bounded(lens, 15) && n < |lens|
    ensures lens[n] <= 15
  {
  }

  lemma NoSyms(s: nat)
    ensures CountSym([], s) == 0
  {
  }

  lemma RunsEnd(lens: seq<nat>, prev: int, count: nat)
    ensures Runs(lens, |lens|, prev, count) == []
  {
  }

  // ---------------------------------------------------------------- send_tree

  /** The bits of a symbol: its Huffman code, then its extra bits. */
  function SymBits(blLens: seq<nat>, s: RunSym): bits {
    (if s.sym < |blLens| then CodeBits(blLens, s.sym) else []) + ToBits(s.extra, ExtraWidth(s.sym))
  }

  function RunBits(blLens: seq<nat>, syms: seq<RunSym>): bits {
    if syms == [] then [] else SymBits(blLens, syms[0]) + RunBits(blLens, syms[1..])
  }

  lemma {:induction false} RunBitsAppend(blLens: seq<nat>, a: seq<RunSym>, b: seq<RunSym>)
    ensures RunBits(blLens, a + b) == RunBits(blLens, a) + RunBits(blLens, b)
  {
    if a == [] {
      assert a + b == b;
    } else {
      assert (a + b)[1..] == a[1..] + b;
      RunBitsAppend(blLens, a[1..], b);
    }
  }

  /** The tree holds the code of every symbol that has one. */
  ghost predicate Coded(fc: seq<nat>, lens: seq<nat>) {
    && |lens| <= |fc| && Bounded(lens, 15)
    && forall n :: 0 <= n < |lens| && lens[n] > 0 ==> HoldsCode(fc[n], lens, n)
  }

  /** SEND_CODE(c, tree) */
  method SendCode(bq: BitQueue, fc: array<nat>, dl: array<nat>, ghost lens: seq<nat>, c: nat)
    requires bq.Valid() && c < |lens| <= dl.Length && dl[..|lens|] == lens && Coded(fc[..], lens) && lens[c] > 0
    requires fc != dl
    modifies bq, bq.outbuf
    ensures bq.Valid() && bq.Sent() == old(bq.Sent()) + CodeBits(lens, c)
  {
    hide CodeBits, Pow2;
    assert lens[c] == dl[c];
    bq.SendBits(fc[c], dl[c]);
  }

  /** Every symbol has a code. */
  ghost predicate AllCoded(blLens: seq<nat>, syms: seq<RunSym>) {
    forall i :: 0 <= i < |syms| ==> syms[i].sym < |blLens| && blLens[syms[i].sym] > 0
  }

  lemma RunBitsOne(blLens: seq<nat>, s: RunSym)
    ensures RunBits(blLens, [s]) == SymBits(blLens, s)
  {
    assert [s][1..] == [];
    assert RunBits(blLens, [s]) == SymBits(blLens, s) + RunBits(blLens, []);
  }

  /** Send one symbol with its extra bits. */
  method SendSym(bq: BitQueue, fc: array<nat>, dl: array<nat>, ghost blLens: seq<nat>, s: RunSym)
    requires bq.Valid() && fc != dl && |blLens| <= dl.Length && dl[..|blLens|] == blLens && Coded(fc[..], blLens)
    requires SymOk(s) && AllCoded(blLens, [s])
    modifies bq, bq.outbuf
    ensures bq.Valid() && bq.Sent() == old(bq.Sent()) + RunBits(blLens, [s])
  {
    hide CodeBits, Pow2, RunBits, Coded, ToBits;
    RunBitsOne(blLens, s);
    assert [s][0] == s;
    SendCode(bq, fc, dl, blLens, s.sym);
    if s.sym == REP_3_6 {
      bq.SendBits(s.extra, 2);
    } else if s.sym == REPZ_3_10 {
      bq.SendBits(s.extra, 3);
    } else if s.sym == REPZ_11_138 {
      bq.SendBits(s.extra, 7);
    } else {
      assert ToBits(s.extra, 0) == [] by { NoneToSend(s.extra); }
    }
  }

  lemma NoneToSend(v: nat)
    ensures ToBits(v, 0) == []
  {
  }

  /** The codes of one run. */
  method SendRun(bq: BitQueue, fc: array<nat>, dl: array<nat>, ghost blLens: seq<nat>, prev: int, cur: nat,
                 length: nat, minCount: nat)
    requires bq.Valid() && fc != dl && |blLens| <= dl.Length && dl[..|blLens|] == blLens && Coded(fc[..], blLens)
    requires cur <= 15 && 1 <= length <= MaxCount(prev, cur) && minCount == MinCount(prev, cur)
    requires AllCoded(blLens, Emit(prev, cur, length)) && SymsOk(Emit(prev, cur, length))
    modifies bq, bq.outbuf
    ensures bq.Valid() && bq.Sent() == old(bq.Sent()) + RunBits(blLens, Emit(prev, cur, length))
  {
    hide CodeBits, Pow2, RunBits, Coded, ToBits, SymOk;
    var count := length;
    ghost var e := Emit(prev, cur, length);
    if count < minCount {
      ghost var one := RunSym(cur, 0);
      assert e[0] == one;
      assert RunBits(blLens, Repeat(one, 0)) == [] by { NothingSent(blLens); }
      while count != 0
        invariant 0 <= count <= length
        invariant bq.Valid() && bq.Sent() == old(bq.Sent()) + RunBits(blLens, Repeat(one, length - count))
      {
        assert SymOk([one][0]) && AllCoded(blLens, [one]);
        RunBitsAppend(blLens, Repeat(one, length - count), [one]);
        assert Repeat(one, length - count) + [one] == Repeat(one, length - count + 1);
        SendSym(bq, fc, dl, blLens, RunSym(cur, 0));
        count := count - 1;
      }
      assert e == Repeat(one, length);
    } else if cur != 0 {
      if cur != prev {
        assert e == [e[0]] + [e[1]];
        RunBitsAppend(blLens, [e[0]], [e[1]]);
        SendSym(bq, fc, dl, blLens, RunSym(cur, 0));
        count := count - 1;
      } else {
        assert e == [e[0]];
      }
      SendSym(bq, fc, dl, blLens, RunSym(REP_3_6, count - 3));
    } else if count <= 10 {
      assert e == [e[0]];
      SendSym(bq, fc, dl, blLens, RunSym(REPZ_3_10, count - 3));
    } else {
      assert e == [e[0]];
      SendSym(bq, fc, dl, blLens, RunSym(REPZ_11_138, count - 11));
    }
  }

  lemma NothingSent(blLens: seq<nat>)
    ensures RunBits(blLens, []) == [] && Repeat(RunSym(0, 0), 0) == []
  {
  }

  lemma SuffixOk(blLens: seq<nat>, a: seq<RunSym>, b: seq<RunSym>)
    requires AllCoded(blLens, a + b) && SymsOk(a + b)
    ensures AllCoded(blLens, a) && SymsOk(a) && AllCoded(blLens, b) && SymsOk(b)
  {
    forall i | 0 <= i < |a|
      ensures SymOk(a[i]) && a[i].sym < |blLens| && blLens[a[i].sym] > 0
    {
      assert (a + b)[i] == a[i];
    }
    forall i | 0 <= i < |b|
      ensures SymOk(b[i]) && b[i].sym < |blLens| && blLens[b[i].sym] > 0
    {
      assert (a + b)[|a| + i] == b[i];
    }
  }

  /** Send a literal or distance tree: dl is its Len field, with the guard already set. */
  method SendTree(bq: BitQueue, dl: array<nat>, maxCode: nat, blFc: array<nat>, blDl: array<nat>,
                  ghost blLens: seq<nat>)
    requires bq.Valid() && blFc != blDl && |blLens| <= blDl.Length
    requires blDl[..|blLens|] == blLens && Coded(blFc[..], blLens)
    requires maxCode + 1 < dl.Length && Bounded(dl[..maxCode + 1], 15) && dl[maxCode + 1] == GUARD
    requires AllCoded(blLens, RunCode(dl[..maxCode + 1]))
    modifies bq, bq.outbuf
    ensures bq.Valid() && bq.Sent() == old(bq.Sent()) + RunBits(blLens, RunCode(dl[..maxCode + 1]))
  {
    hide RunBits, Emit, Runs, Bounded, Coded, AllCoded, SymsOk;
    ghost var lens := dl[..maxCode + 1];
    RoundTrip(lens, [], []);
    var prevlen: int := -1;
    var nextlen := dl[0];
    var count, maxCount, minCount := 0, 7, 4;
    if nextlen == 0 {
      maxCount, minCount := 138, 3;
    }
    for n := 0 to maxCode + 1
      invariant lens == dl[..maxCode + 1] && dl[maxCode + 1] == GUARD
      invariant nextlen == dl[n]
      invariant n <= maxCode ==>
                  maxCount == MaxCount(prevlen, nextlen) && minCount == MinCount(prevlen, nextlen) && count < maxCount
      invariant AllCoded(blLens, Runs(lens, n, prevlen, count)) && SymsOk(Runs(lens, n, prevlen, count))
      invariant bq.Valid()
      invariant bq.Sent() + RunBits(blLens, Runs(lens, n, prevlen, count))
                == old(bq.Sent()) + RunBits(blLens, RunCode(lens))
    {
      var curlen := nextlen;
      nextlen := dl[n + 1];
      assert curlen == lens[n] && nextlen == NextLen(lens, n);
      RunsStep(lens, n, prevlen, count);
      count := count + 1;
      if count < maxCount && curlen == nextlen {
        continue;
      }
      assert curlen <= 15 by { BoundedAt(lens, n); }
      ghost var e, tail := Emit(prevlen, curlen, count), Runs(lens, n + 1, curlen, 0);
      SuffixOk(blLens, e, tail);
      RunBitsAppend(blLens, e, tail);
      ghost var before := bq.Sent();
      SendRun(bq, blFc, blDl, blLens, prevlen, curlen, count, minCount);
      assert before + (RunBits(blLens, e) + RunBits(blLens, tail)) == bq.Sent() + RunBits(blLens, tail);
      count := 0;
      prevlen := curlen;
      if nextlen == 0 {
        maxCount, minCount := 138, 3;
      } else if curlen == nextlen {
        maxCount, minCount := 6, 3;
      } else {
        maxCount, minCount := 7, 4;
      }
    }
    RunsEnd(lens, prevlen, count);
    NothingSent(blLens);
  }
}
