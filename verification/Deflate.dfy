/** deflate: lazy matching over a whole input, and the theorem that inflating the output gives the
    input back. */
module Deflating {
  import opened Bits
  import opened Options
  import opened Tokens
  import opened BitQueues
  import opened BlockChoice
  import opened BlockEncodings
  import opened BlockCost
  import opened BlockCoding
  import opened Hashing
  import opened Windows
  import opened Matching
  import C = Crc32
  import I = Inflate

  // ---------------------------------------------------------------- tokens and input

  /** The tokens take the input from `bs` to `cur`. */
  ghost predicate Progress(data: seq<byte>, bs: int, cur: int, ts: seq<Token>) {
    0 <= bs <= cur <= |data| && AllNear(ts) && Expand(ts, data[..bs]) == Some(data[..cur])
  }

  lemma NoProgress(data: seq<byte>, at: nat)
    requires at <= |data|
    ensures Progress(data, at, at, [])
  {
  }

  lemma LiteralProgress(data: seq<byte>, bs: int, cur: int, ts: seq<Token>)
    requires Progress(data, bs, cur, ts) && cur < |data|
    ensures Progress(data, bs, cur + 1, ts + [Literal(data[cur])])
  {
    var t := Literal(data[cur]);
    ExpandAppend(ts, [t], data[..bs]);
    assert Expand([t], data[..cur]) == Expand([], data[..cur] + [data[cur]]) by { assert [t][1..] == []; }
    assert data[..cur] + [data[cur]] == data[..cur + 1];
  }

  lemma MatchProgress(data: seq<byte>, bs: int, cur: int, ts: seq<Token>, m: int, len: nat)
    requires Progress(data, bs, cur, ts) && MatchAt(data, cur, m, len) && len >= 3
    ensures Progress(data, bs, cur + len, ts + [Match(cur - m, len)])
  {
    hide CopyBack;
    var t := Match(cur - m, len);
    ExpandAppend(ts, [t], data[..bs]);
    CopyRepeats(data, cur, cur - m, len);
    assert Expand([t], data[..cur]) == Expand([], CopyBack(data[..cur], cur - m, len)) by { assert [t][1..] == []; }
  }

  /** No token covers less than a byte. */
  lemma {:induction false} FewTokens(ts: seq<Token>)
    requires AllNear(ts)
    ensures |ts| <= Spans(ts)
    decreases |ts|
  {
    if ts != [] {
      assert NearOk(ts[0]);
      FewTokens(ts[1..]);
    }
  }

  lemma CurrentFits(data: seq<byte>, bs: int, cur: int, ts: seq<Token>)
    requires Progress(data, bs, cur, ts)
    ensures 0 <= bs <= cur <= |data|
  {
  }

  lemma TokensInInput(data: seq<byte>, bs: int, cur: int, ts: seq<Token>)
    requires Progress(data, bs, cur, ts)
    ensures |ts| <= |data|
  {
    FewTokens(ts);
    ExpandSpans(ts, data[..bs]);
  }

  /** Reading on changes nothing for what has been read. */
  lemma ProgressKept(data: seq<byte>, more: seq<byte>, bs: int, cur: int, ts: seq<Token>)
    requires Progress(data, bs, cur, ts) && data <= more
    ensures Progress(more, bs, cur, ts) && more[..bs] == data[..bs]
  {
    hide Expand;
    assert more[..bs] == data[..bs] && more[..cur] == data[..cur];
  }

  lemma MatchFits(data: seq<byte>, a: nat, m: int, len: nat)
    requires MatchAt(data, a, m, len)
    ensures a + len <= |data| && len <= MAX_COMMON
  {
  }

  lemma MatchKept(data: seq<byte>, more: seq<byte>, a: nat, m: int, len: nat)
    requires MatchAt(data, a, m, len) && data <= more
    ensures MatchAt(more, a, m, len)
  {
    var d := a - m;
    forall j | a <= j < a + len ensures SameAt(more, j, d) {
      assert SameAt(data, j, d);
    }
  }

  // ---------------------------------------------------------------- the stream of blocks

  /** The bits after `before` are blocks that inflate to `out`, none of them the last. */
  ghost predicate Streamed(sent: bits, before: bits, out: seq<byte>) {
    && before <= sent
    && forall rest: bits :: I.InflateFrom(sent[|before|..] + rest, |before|, []) == I.InflateFrom(rest, |sent|, out)
  }

  /** The bits after `before`, up to `end`, are a complete stream for `out`: a decoder stops there,
      whatever follows.  The byte is filled with zeros. */
  ghost predicate Complete(sent: bits, before: bits, end: nat, out: seq<byte>) {
    && before <= sent && |before| <= end <= |sent| && sent[end..] == Zeros(Padding(end))
    && forall rest: bits :: I.InflateFrom(sent[|before|..end] + rest, |before|, []) == Some(I.Read(out, rest))
  }

  /** The bits from `start` to `end` are one block, chosen by flush_block for tokens of all the input. */
  ghost predicate SentAsOne(data: seq<byte>, start: nat, end: nat) {
    exists kind: BlockKind, block: bits, ts: seq<Token>, t: Trees ::
      Flushed(kind, block, true, start, Some(data), |data|, ts, t) && Expand(ts, []) == Some(data)
        && end == start + |block|
  }

  /** No block of an input of `n` bytes has been sent before its end, when that is fewer than `least`. */
  ghost predicate OneSoFar(n: nat, least: int, blockStart: int, sent: nat, start: nat) {
    n < least ==> blockStart == 0 && sent == start
  }

  lemma OneBlock(data: seq<byte>, start: nat, kind: BlockKind, block: bits, ts: seq<Token>, t: Trees)
    requires Flushed(kind, block, true, start, Some(data), |data|, ts, t) && Expand(ts, []) == Some(data)
    ensures SentAsOne(data, start, start + |block|)
  {
    hide Flushed, Expand;
  }

  /** A file of the bytes 144 to 158 becomes 20 bytes of blocks, one more than it has to. */
  lemma FifteenFile(start: nat, end: nat)
    requires start % 8 == 0 && SentAsOne(From(144, 15), start, end)
    ensures end == start + 20 * 8
  {
    hide Flushed, Expand;
    var data := From(144, 15);
    var kind: BlockKind, block: bits, ts: seq<Token>, t: Trees :|
      Flushed(kind, block, true, start, Some(data), |data|, ts, t) && Expand(ts, []) == Some(data)
        && end == start + |block|;
    FifteenBytes(kind, block, true, start, ts, t);
  }

  lemma StreamStart(sent: bits)
    ensures Streamed(sent, sent, [])
  {
    forall rest: bits ensures I.InflateFrom(sent[|sent|..] + rest, |sent|, []) == I.InflateFrom(rest, |sent|, []) {
      assert sent[|sent|..] + rest == rest;
    }
  }

  lemma StreamMore(sent: bits, before: bits, out: seq<byte>, block: bits, more: seq<byte>)
    requires Streamed(sent, before, out) && Decodes(block, |sent|, out, more, false)
    ensures Streamed(sent + block, before, more)
  {
    hide I.ReadBlock;
    var all := sent + block;
    forall rest: bits ensures I.InflateFrom(all[|before|..] + rest, |before|, []) == I.InflateFrom(rest, |all|, more) {
      assert all[|before|..] + rest == sent[|before|..] + (block + rest);
      assert I.ReadBlock(block + rest, |sent|, out) == Some(I.Read(I.Block(more, false), rest));
    }
  }

  lemma StreamEnd(sent: bits, before: bits, out: seq<byte>, block: bits, more: seq<byte>)
    requires Streamed(sent, before, out) && Decodes(block, |sent|, out, more, true)
    ensures var end := |sent + block|; Complete(sent + block + Zeros(Padding(end)), before, end, more)
  {
    hide I.ReadBlock, Zeros, Padding;
    var end := |sent + block|;
    var all := sent + block + Zeros(Padding(end));
    assert all[end..] == Zeros(Padding(end));
    forall rest: bits ensures I.InflateFrom(all[|before|..end] + rest, |before|, []) == Some(I.Read(more, rest)) {
      assert all[|before|..end] + rest == sent[|before|..] + (block + rest);
      assert I.ReadBlock(block + rest, |sent|, out) == Some(I.Read(I.Block(more, true), rest));
    }
  }

  lemma SliceIs(w: seq<byte>, data: seq<byte>, base: nat, n: nat, a: nat, b: nat)
    requires InWindow(w, data, base, n) && a <= b <= n
    ensures data[..base + b] == data[..base + a] + w[a..b]
  {
  }

  // ---------------------------------------------------------------- the compressor

  class Deflater {
    const m: Matcher
    const c: BlockCoder
    var matchAvailable: bool
    var matchLength: nat
    ghost const before: bits   // sent before the first block

    /** Matcher and coder share nothing. */
    ghost predicate Apart() {
      {this, m, m.window, m.prev, m.head, m.crcTable} !! c.region
    }

    /** Input position up to which tokens have been made. */
    ghost function Done(): int
      reads this, m
    {
      m.base + m.strstart - (if matchAvailable then 1 else 0)
    }

    /** The matcher's side of the invariant, with the strings before position `n` in the dictionary. */
    ghost predicate Searching(n: nat)
      reads this, m, m.window, m.prev, m.head, m.crcTable
    {
      && m.Holds() && m.DictTo(n) && m.blockStart <= m.strstart && (matchAvailable ==> m.strstart >= 1)
    }

    /** The coder's side: what is sent and what is pending. */
    ghost predicate Coding()
      reads this, m, c.region
    {
      && c.Ok() && c.Room() && Progress(m.data, m.base + m.blockStart, Done(), c.Pending())
      && Streamed(c.SentBits(), before, m.data[..m.base + m.blockStart])
      && OneSoFar(|m.data|, c.Least(), m.base + m.blockStart, |c.SentBits()|, |before|)
    }

    /** The match found for the previous string. */
    ghost predicate Waiting()
      reads this, m
    {
      matchLength >= 3 ==>
        && matchAvailable && m.base + m.strstart >= 1
        && MatchAt(m.data, m.base + m.strstart - 1, m.base + m.matchStart, matchLength)
    }

    ghost predicate Inv()
      reads this, m, m.window, m.prev, m.head, m.crcTable, c.region
    {
      && Apart() && Searching(m.strstart) && Coding() && Waiting()
      && (m.lookahead > 0 ==> m.ReadyAt(m.strstart) && matchLength >= 2)
    }

    /** The input of the current block, when it is still in the window. */
    method BlockData() returns (block: Option<seq<byte>>)
      requires m.Holds() && m.blockStart <= m.strstart && 0 <= m.base + m.blockStart
      ensures block.Some? ==> m.data[..m.base + m.strstart] == m.data[..m.base + m.blockStart] + block.value
      ensures block.Some? <==> m.blockStart >= 0
    {
      if m.blockStart >= 0 {
        block := Some(m.window[m.blockStart..m.strstart]);
        SliceIs(m.window[..], m.data, m.base, m.strstart + m.lookahead, m.blockStart, m.strstart);
        assert m.window[..][m.blockStart..m.strstart] == m.window[m.blockStart..m.strstart];
      } else {
        block := None;
      }
    }

    /** FLUSH_BLOCK(0), and the next block starts here. */
    method FlushBlock()
      requires Apart() && m.Holds() && m.blockStart <= m.strstart
      requires c.Ok() && Progress(m.data, m.base + m.blockStart, m.base + m.strstart, c.Pending())
      requires Streamed(c.SentBits(), before, m.data[..m.base + m.blockStart])
      modifies m`blockStart, c.region
      ensures m.blockStart == m.strstart && c.Ok() && c.Room()
      ensures Progress(m.data, m.base + m.strstart, m.base + m.strstart, c.Pending())
      ensures Streamed(c.SentBits(), before, m.data[..m.base + m.strstart])
    {
      hide BlockCoder.Ok, BlockCoder.Aligned, BlockCoder.Room, BlockCoder.Pending, BlockCoder.SentBits, Streamed,
        InWindow, Content, Summed, Expand, Pow2, Decodes, AllNear, Flushed;
      var block := BlockData();
      ghost var out, more := m.data[..m.base + m.blockStart], m.data[..m.base + m.strstart];
      var kind;
      ghost var bits, trees;
      kind, bits, trees := c.Flush(block, m.strstart - m.blockStart, false, out, more);
      assert c.SentBits() == old(c.SentBits()) + bits;
      StreamMore(old(c.SentBits()), before, out, bits, more);
      m.blockStart := m.strstart;
      NoProgress(m.data, m.base + m.strstart);
    }

    /** Tally the match found for the previous string. */
    method TallyMatch(prevMatch: int) returns (flush: bool)
      requires Apart() && m.Holds() && Coding() && matchAvailable && m.strstart >= 1 && m.blockStart <= m.strstart
      requires 3 <= m.prevLength && MatchAt(m.data, m.base + m.strstart - 1, m.base + prevMatch, m.prevLength)
      modifies c.region
      ensures c.Ok() && Progress(m.data, m.base + m.blockStart, m.base + m.strstart - 1 + m.prevLength, c.Pending())
      ensures c.SentBits() == old(c.SentBits()) && (if flush then |m.data| >= c.Least() else c.Room())
    {
      hide BlockCoder.Ok, BlockCoder.Room, BlockCoder.Pending, BlockCoder.SentBits, Streamed, InWindow, Content, Summed,
        Pow2, Progress, RepeatsAt;
      ghost var bs, cur, ts, len := m.base + m.blockStart, Done(), c.Pending(), m.prevLength;
      MatchProgress(m.data, bs, cur, ts, m.base + prevMatch, len);
      TokensInInput(m.data, bs, cur + len, ts + [Match(cur - m.base - prevMatch, len)]);
      flush := c.Tally(m.strstart - 1 - prevMatch, m.prevLength - 3, m.strstart - m.blockStart);
    }

    /** Tally the previous byte as a literal. */
    method TallyLiteral() returns (flush: bool)
      requires Apart() && m.Holds() && Coding() && matchAvailable && m.strstart >= 1
      modifies c.region
      ensures c.Ok() && Progress(m.data, m.base + m.blockStart, m.base + m.strstart, c.Pending())
      ensures c.SentBits() == old(c.SentBits()) && (if flush then |m.data| >= c.Least() else c.Room())
    {
      hide BlockCoder.Ok, BlockCoder.Room, BlockCoder.Pending, BlockCoder.SentBits, Streamed, Content, Summed, Pow2,
        Progress;
      ghost var bs, cur, ts := m.base + m.blockStart, Done(), c.Pending();
      CurrentFits(m.data, bs, cur, ts);
      LiteralProgress(m.data, bs, cur, ts);
      TokensInInput(m.data, bs, cur + 1, ts + [Literal(m.data[cur])]);
      flush := c.Tally(0, m.window[m.strstart - 1], m.strstart - m.blockStart);
    }

    /** Output the match found for the previous string, and step past it. */
    method EmitMatch(prevMatch: int)
      requires Apart() && Searching(m.strstart + 1) && m.ReadyAt(m.strstart + 1) && Coding() && matchAvailable
      requires 3 <= m.prevLength && MatchAt(m.data, m.base + m.strstart - 1, m.base + prevMatch, m.prevLength)
      modifies this, m`insH, m`prevLength, m`strstart, m`lookahead, m`blockStart, m.prev, m.head, c.region
      ensures Apart() && Searching(m.strstart) && m.ReadyAt(m.strstart)
      ensures Coding() && !matchAvailable && matchLength == 2
      ensures m.base + m.strstart == old(m.base + m.strstart + m.prevLength) - 1 && m.strstart > old(m.strstart)
    {
      hide BlockCoder.Ok, BlockCoder.Room, BlockCoder.Pending, BlockCoder.SentBits, Streamed, InWindow, Content, Summed,
        Pow2, HeadsOk, ChainsOk, Primed, Progress, RepeatsAt;
      var flush := TallyMatch(prevMatch);
      m.SkipMatch();
      matchAvailable, matchLength := false, 2;
      if flush {
        FlushBlock();
      }
    }

    /** Output the previous byte as a literal. */
    method EmitLiteral()
      requires Apart() && Searching(m.strstart + 1) && Coding() && matchAvailable && m.lookahead > 0
      modifies m`strstart, m`lookahead, m`blockStart, c.region
      ensures Apart() && Searching(m.strstart) && Coding()
      ensures m.strstart == old(m.strstart) + 1 && m.lookahead == old(m.lookahead) - 1
    {
      hide BlockCoder.Ok, BlockCoder.Room, BlockCoder.Pending, BlockCoder.SentBits, Streamed, Content, Summed, Pow2,
        HeadsOk, ChainsOk, Primed, Progress, InWindow;
      var flush := TallyLiteral();
      if flush {
        FlushBlock();
      }
      m.Advance();
    }

    /** Read ahead when the lookahead runs short. */
    method Refill()
      requires Inv() && (m.lookahead >= 2 || m.eofile)
      modifies m, m.window, m.prev, m.head
      ensures Inv() && (m.eofile || m.lookahead >= MIN_LOOKAHEAD)
      ensures m.data + Content(m.chunks) == old(m.data + Content(m.chunks))
      ensures |Content(m.chunks)| + m.lookahead == old(|Content(m.chunks)| + m.lookahead)
    {
      hide BlockCoder.Ok, BlockCoder.Aligned, BlockCoder.Room, BlockCoder.Pending, BlockCoder.SentBits, Streamed,
        Content, Summed, Pow2, HeadsOk, ChainsOk, Primed, Progress, InWindow, MatchAt;
      ghost var bs, cur, ts := m.base + m.blockStart, Done(), c.Pending();
      m.FillWindowIfNeeded();
      ProgressKept(old(m.data), m.data, bs, cur, ts);
      if matchLength >= 3 {
        MatchKept(old(m.data), m.data, m.base + m.strstart - 1, m.base + m.matchStart, matchLength);
      }
      assert cur == Done() && bs == m.base + m.blockStart;
    }

    /** One round of the loop of deflate, up to reading ahead. */
    method Step()
      requires Inv() && m.lookahead > 0
      modifies this, m`insH, m`prevLength, m`matchStart, m`strstart, m`lookahead, m`blockStart, m.prev, m.head, c.region
      ensures Inv() && m.strstart > old(m.strstart) && m.strstart + m.lookahead == old(m.strstart + m.lookahead)
      ensures m.lookahead >= old(m.lookahead) - 257
    {
      hide BlockCoder.Ok, BlockCoder.Aligned, BlockCoder.Room, BlockCoder.Pending, BlockCoder.SentBits, Streamed,
        Content, Summed, Pow2, HeadsOk, ChainsOk, Primed, Progress, InWindow, MatchAt, OneSoFar;
      var prevMatch;
      matchLength, prevMatch := m.FindMatch(matchLength);
      Emit(prevMatch);
    }

    /** Output the match found for the previous string when the current one is not better, a literal
        when it is, and go on. */
    method Emit(prevMatch: int)
      requires Apart() && Searching(m.strstart + 1) && m.ReadyAt(m.strstart + 1) && Coding() && m.lookahead > 0
      requires m.prevLength >= 3 ==>
                 matchAvailable && MatchAt(m.data, m.base + m.strstart - 1, m.base + prevMatch, m.prevLength)
      requires 1 <= matchLength && (matchLength == 1 ==> m.lookahead == 1) && m.prevLength >= 2
      requires matchLength >= 3 && matchLength > m.prevLength ==>
                 MatchAt(m.data, m.base + m.strstart, m.base + m.matchStart, matchLength)
      modifies this, m`insH, m`prevLength, m`strstart, m`lookahead, m`blockStart, m.prev, m.head, c.region
      ensures Inv() && m.strstart > old(m.strstart) && m.strstart + m.lookahead == old(m.strstart + m.lookahead)
      ensures m.lookahead >= old(m.lookahead) - 257
    {
      hide BlockCoder.Ok, BlockCoder.Aligned, BlockCoder.Room, BlockCoder.Pending, BlockCoder.SentBits, Streamed,
        Content, Summed, Pow2, HeadsOk, ChainsOk, Primed, Progress, InWindow, MatchAt, OneSoFar;
      if m.prevLength >= 3 && matchLength <= m.prevLength {
        MatchFits(m.data, m.base + m.strstart - 1, m.base + prevMatch, m.prevLength);
        EmitMatch(prevMatch);
      } else if matchAvailable {
        EmitLiteral();
      } else {
        matchAvailable := true;
        m.Advance();
      }
    }

    /** Compress the whole input. */
    method Deflate() returns (ghost end: nat)
      requires Inv() && (m.eofile || m.lookahead >= MIN_LOOKAHEAD)
      modifies this, m, m.window, m.prev, m.head, c.region
      ensures c.Ok() && c.Aligned() && Complete(c.SentBits(), before, end, m.data)
      ensures m.data == old(m.data + Content(m.chunks)) && Summed(m.crcTable[..], m.crc, m.isize, m.data)
      ensures |m.data| < c.Least() ==> SentAsOne(m.data, |before|, end)
    {
      hide BlockCoder.Ok, BlockCoder.Aligned, BlockCoder.Room, BlockCoder.Pending, BlockCoder.SentBits, Streamed,
        Content, Summed, Pow2, HeadsOk, ChainsOk, Primed, Progress, InWindow, MatchAt;
      ghost var input := m.data + Content(m.chunks);
      while m.lookahead != 0
        invariant Inv() && (m.eofile || m.lookahead >= MIN_LOOKAHEAD) && m.data + Content(m.chunks) == input
        decreases |Content(m.chunks)| + m.lookahead
      {
        Step();
        Refill();
      }
      assert Content(m.chunks) == [];
      assert m.data + [] == m.data;
      end := Finish();
    }

    /** The last byte and the last block. */
    method Finish() returns (ghost end: nat)
      requires Inv() && m.lookahead == 0
      modifies c.region
      ensures c.Ok() && c.Aligned() && Complete(c.SentBits(), before, end, m.data)
      ensures |m.data| < c.Least() ==> SentAsOne(m.data, |before|, end)
    {
      hide BlockCoder.Ok, BlockCoder.Aligned, BlockCoder.Room, BlockCoder.Pending, BlockCoder.SentBits, Streamed,
        Content, Summed, Pow2, HeadsOk, ChainsOk, Primed, Expand, MatchAt, Decodes, AllNear, Zeros, Padding, SentAsOne,
        Complete;
      if matchAvailable {
        var flush := TallyLiteral();
      }
      end := FlushLast();
    }

    /** FLUSH_BLOCK(1) */
    method FlushLast() returns (ghost end: nat)
      requires Apart() && m.Holds() && m.blockStart <= m.strstart && m.lookahead == 0
      requires c.Ok() && Progress(m.data, m.base + m.blockStart, |m.data|, c.Pending())
      requires OneSoFar(|m.data|, c.Least(), m.base + m.blockStart, |c.SentBits()|, |before|)
      requires Streamed(c.SentBits(), before, m.data[..m.base + m.blockStart])
      modifies c.region
      ensures c.Ok() && c.Aligned() && Complete(c.SentBits(), before, end, m.data)
      ensures |m.data| < c.Least() ==> SentAsOne(m.data, |before|, end)
    {
      hide BlockCoder.Ok, BlockCoder.Aligned, BlockCoder.Room, BlockCoder.Pending, BlockCoder.SentBits, Streamed,
        Content, Summed, Pow2, InWindow, Flushed, Expand, Decodes, AllNear, Zeros, Padding, SentAsOne, Complete;
      var block := BlockData();
      ghost var out, more := m.data[..m.base + m.blockStart], m.data[..m.base + m.strstart];
      ghost var sent, ts := c.SentBits(), c.Pending();
      var kind;
      ghost var bits, trees;
      kind, bits, trees := c.Flush(block, m.strstart - m.blockStart, true, out, more);
      assert more == m.data;
      end := |sent + bits|;
      assert c.SentBits() == sent + bits + Zeros(Padding(end));
      StreamEnd(sent, before, out, bits, more);
      if |m.data| < c.Least() {
        assert out == [] && [] + block.value == block.value;
        OneBlock(m.data, |before|, kind, bits, ts, trees);
      }
    }

    constructor (m: Matcher, c: BlockCoder)
      requires {m, m.window, m.prev, m.head, m.crcTable} !! c.region && c.Ok()
      ensures this.m == m && this.c == c && !matchAvailable && matchLength == 2 && before == c.SentBits()
    {
      this.m, this.c, matchAvailable, matchLength := m, c, false, 2;
      before := c.SentBits();
    }
  }

  /** Compress the input that `chunks` delivers. */
  method Compress(c: BlockCoder, hashBits: nat, maxChain: nat, maxLazy: nat, goodMatch: nat, niceMatch: nat,
                  chunks: seq<seq<byte>>, crcTable: array<nat>)
    returns (crc: nat, isize: nat, ghost end: nat)
    requires c.Ok() && c.Room() && c.Pending() == [] && C.TableOk(crcTable[..]) && crcTable !in c.region
    requires 8 <= hashBits <= 15 && 4 <= maxChain && maxLazy <= MAX_COMMON && niceMatch <= MAX_COMMON
    modifies c.region
    ensures c.Ok() && c.Aligned() && Complete(c.SentBits(), old(c.SentBits()), end, Content(chunks))
    ensures |Content(chunks)| < c.Least() ==> SentAsOne(Content(chunks), |old(c.SentBits())|, end)
    ensures crc == C.Register(C.ONES, Content(chunks)) && isize == |Content(chunks)| % C.WORD
  {
    hide C.Register, C.TableOk, BlockCoder.Ok, BlockCoder.Aligned, BlockCoder.Room, BlockCoder.Pending,
      BlockCoder.SentBits, Streamed, Content, Pow2, HeadsOk, ChainsOk, Primed, Progress, InWindow, MatchAt, Complete;
    var m := new Matcher(hashBits, maxChain, maxLazy, goodMatch, niceMatch, chunks, crcTable);
    m.LmInit();
    var d := new Deflater(m, c);
    NoProgress(m.data, 0);
    StreamStart(c.SentBits());
    assert m.data[..0] == [];
    end := d.Deflate();
    crc, isize := m.crc, m.isize;
  }
}
