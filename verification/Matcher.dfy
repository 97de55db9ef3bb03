/** The string matcher: reading ahead, the dictionary of strings, the search for the longest match. */
module Matching {
  import opened Bits
  import opened Hashing
  import opened Windows
  import opened Tokens
  import BC = BlockChoice
  import C = Crc32

  /** What a file gives to a reader who stops at the first empty read (end of file or an error). */
  function Content(chunks: seq<seq<byte>>): seq<byte> {
    if chunks == [] || chunks[0] == [] then [] else chunks[0] + Content(chunks[1..])
  }

  /** The first `n` bytes of the window are the input from `base` on. */
  ghost predicate InWindow(w: seq<byte>, data: seq<byte>, base: nat, n: nat) {
    n <= |w| && base + n <= |data| && forall i :: 0 <= i < n ==> w[i] == data[base + i]
  }

  /** The `len` bytes of the input at `a` are a copy of those at `m`, as a match token may say. */
  ghost predicate MatchAt(data: seq<byte>, a: nat, m: int, len: nat) {
    && 0 <= m < a && a - m <= MAX_DIST && len <= MAX_COMMON && a + len <= |data|
    && (len == 3 ==> a - m <= BC.TOO_FAR) && RepeatsAt(data, a, a - m, len)
  }

  /** Each of the `len` bytes at `a` equals the byte `d` before it. */
  ghost predicate RepeatsAt(data: seq<byte>, a: nat, d: nat, len: nat) {
    forall j :: a <= j < a + len ==> SameAt(data, j, d)
  }

  /** CRC and size are those of the input read so far. */
  ghost predicate Summed(table: seq<nat>, crc: nat, isize: nat, data: seq<byte>) {
    C.TableOk(table) && crc == C.Register(C.ONES, data) && isize == |data| % C.WORD
  }

  lemma SummedMore(table: seq<nat>, crc: nat, isize: nat, data: seq<byte>, got: seq<byte>)
    requires Summed(table, crc, isize, data)
    ensures C.TableOk(table) && Summed(table, C.Register(crc, got), (isize + |got|) % C.WORD, data + got)
  {
    hide C.Register, C.TableOk;
    C.RegisterAppend(C.ONES, data, got);
  }

  class Matcher {
    const hashBits: nat
    const maxChain: nat
    const maxLazy: nat
    const goodMatch: nat
    const niceMatch: nat
    const window: array<byte>
    const prev: array<nat>
    const head: array<nat>
    const crcTable: array<nat>     // global_crc32_table
    var chunks: seq<seq<byte>>     // results of the reads still to come
    var blockStart: int
    var insH: nat
    var prevLength: nat
    var strstart: nat
    var matchStart: int
    var lookahead: nat
    var eofile: bool
    var crc: nat                   // shift register contents
    var isize: nat                 // bytes read, modulo 2^32
    ghost var data: seq<byte>      // the input read so far
    ghost var base: nat            // how far the window has moved

    ghost predicate Shape() {
      && 8 <= hashBits <= 15 && 4 <= maxChain && maxLazy <= MAX_COMMON && niceMatch <= MAX_COMMON
      && window.Length == WINDOW_SPAN && prev.Length == WSIZE && head.Length == Pow2(hashBits) && prev != head
      && crcTable != prev && crcTable != head
    }

    /** The window holds the end of the input read so far. */
    ghost predicate Holds()
      reads this, window, crcTable
    {
      && Shape() && strstart + lookahead <= WINDOW_SIZE && base + strstart + lookahead == |data|
      && InWindow(window[..], data, base, strstart + lookahead)
      && (eofile ==> Content(chunks) == []) && (base == 0 || base >= WSIZE)
      && Summed(crcTable[..], crc, isize, data)
    }

    /** The strings before position `n` are in the dictionary. */
    ghost predicate DictTo(n: nat)
      reads window, prev, head
    {
      HeadsOk(hashBits, window[..], n, head[..]) && ChainsOk(hashBits, window[..], n, prev[..])
    }

    /** The key holds the two bytes at `n`. */
    ghost predicate ReadyAt(n: nat)
      reads this, window
    {
      n + 1 < window.Length && Primed(hashBits, insH, window[n], window[n + 1])
    }

    // -------------------------------------------------------------- reading

    /** safe_read */
    method Read(size: nat) returns (got: seq<byte>)
      requires size > 0
      modifies this`chunks
      ensures |got| <= size && Content(old(chunks)) == got + Content(chunks)
      ensures got == [] ==> Content(chunks) == []
    {
      if chunks == [] || chunks[0] == [] {
        return [];
      }
      var c := chunks[0];
      if |c| <= size {
        chunks := chunks[1..];
        return c;
      }
      chunks := [c[size..]] + chunks[1..];
      got := c[..size];
      assert chunks[1..] == old(chunks)[1..] && c == got + c[size..];
    }

    /** Read, and count what was read. */
    method FileRead(size: nat) returns (got: seq<byte>)
      requires size > 0 && Summed(crcTable[..], crc, isize, data)
      modifies this`chunks, this`crc, this`isize, this`data
      ensures |got| <= size && Content(old(chunks)) == got + Content(chunks)
      ensures data == old(data) + got && Summed(crcTable[..], crc, isize, data)
      ensures got == [] ==> Content(chunks) == []
    {
      hide Content, Summed;
      got := Read(size);
      if got == [] {
        assert data + [] == data;
        return;
      }
      SummedMore(crcTable[..], crc, isize, data, got);
      crc := C.Update(crc, got, crcTable);
      isize := (isize + |got|) % C.WORD;
      data := data + got;
    }

    /** Move the upper half of the window down. */
    method Slide()
      requires Holds() && DictTo(strstart) && strstart >= WSIZE + MAX_DIST && lookahead >= 2
      modifies this`matchStart, this`strstart, this`blockStart, this`base, window, prev, head
      ensures Holds() && DictTo(strstart) && (old(ReadyAt(strstart)) ==> ReadyAt(strstart))
      ensures strstart == old(strstart) - WSIZE && base == old(base) + WSIZE
      ensures blockStart == old(blockStart) - WSIZE && matchStart == old(matchStart) - WSIZE
    {
      hide HeadsOk, ChainsOk, Pow2, Primed, Content, Summed;
      ghost var w, hd: seq<nat>, pv: seq<nat> := window[..], head[..], prev[..];
      forall i | 0 <= i < WSIZE {
        window[i] := window[i + WSIZE];
      }
      assert Slid(w, window[..]);
      matchStart := matchStart - WSIZE;
      strstart := strstart - WSIZE;
      blockStart := blockStart - WSIZE;
      MoveAll(head);
      MoveAll(prev);
      HeadsSlid(hashBits, w, window[..], old(strstart), hd, head[..]);
      ChainsSlid(hashBits, w, window[..], old(strstart), pv, prev[..]);
      base := base + WSIZE;
      assert crcTable[..] == old(crcTable[..]);
      SlidInWindow(w, window[..], data, old(base), old(strstart) + lookahead);
    }

    /** Read into the free space at the end of the window. */
    method ReadMore(more: nat)
      requires Holds() && DictTo(strstart) && !eofile && 0 < more && strstart + lookahead + more == WINDOW_SIZE
      requires strstart == 0 || lookahead >= 2
      modifies this`chunks, this`lookahead, this`eofile, this`data, this`crc, this`isize, window
      ensures Holds() && DictTo(strstart)
      ensures (lookahead >= 2 && old(lookahead >= 2 && ReadyAt(strstart)) ==> ReadyAt(strstart))
      ensures data + Content(chunks) == old(data + Content(chunks)) && old(data) <= data
      ensures eofile ==> lookahead == old(lookahead)
      ensures !eofile ==> lookahead > old(lookahead) && |Content(chunks)| < |old(Content(chunks))|
    {
      hide HeadsOk, ChainsOk, Pow2, Primed, Content, Summed;
      ghost var w, hd: seq<nat>, pv: seq<nat> := window[..], head[..], prev[..];
      var from := strstart + lookahead;
      var got := FileRead(more);
      if got == [] {
        eofile := true;
      } else {
        forall i | 0 <= i < |got| {
          window[from + i] := got[i];
        }
        lookahead := lookahead + |got|;
        assert forall i :: from <= i < from + |got| ==> window[i] == got[i - from];
        assert AgreeTo(w, window[..], from);
      }
      assert head[..] == hd && prev[..] == pv && crcTable[..] == old(crcTable[..]);
      HeadsKept(hashBits, w, window[..], strstart, hd);
      ChainsKept(hashBits, w, window[..], strstart, pv);
    }

    method FillWindow()
      requires Holds() && DictTo(strstart) && lookahead < MIN_LOOKAHEAD && !eofile && (strstart == 0 || lookahead >= 2)
      modifies this, window, prev, head
      ensures Holds() && DictTo(strstart)
      ensures Filled(old(base + strstart), old(base + blockStart), old(base + matchStart), old(insH), old(prevLength))
      ensures strstart <= old(strstart) && (old(strstart) >= 1 ==> strstart >= 1)
      ensures old(lookahead >= 2 && ReadyAt(strstart)) ==> ReadyAt(strstart)
      ensures data + Content(chunks) == old(data + Content(chunks)) && old(data) <= data
      ensures eofile ==> lookahead == old(lookahead)
      ensures !eofile ==> lookahead > old(lookahead) && |Content(chunks)| < |old(Content(chunks))|
    {
      hide HeadsOk, ChainsOk, Pow2, Primed, Content, Summed, InWindow;
      var more := WINDOW_SIZE - lookahead - strstart;
      if strstart >= WSIZE + MAX_DIST {
        Slide();
        more := more + WSIZE;
      }
      ReadMore(more);
    }

    /** Positions in the input have not changed. */
    ghost predicate Filled(s: int, b: int, m: int, h: nat, l: nat)
      reads this
    {
      base + strstart == s && base + blockStart == b && base + matchStart == m && insH == h && prevLength == l
    }

    method FillWindowIfNeeded()
      requires Holds() && DictTo(strstart) && (strstart == 0 || lookahead >= 2 || eofile)
      modifies this, window, prev, head
      ensures Holds() && DictTo(strstart)
      ensures Filled(old(base + strstart), old(base + blockStart), old(base + matchStart), old(insH), old(prevLength))
      ensures old(strstart) >= 1 ==> strstart >= 1
      ensures old((lookahead >= 2 || eofile) && ReadyAt(strstart)) ==> ReadyAt(strstart)
      ensures data + Content(chunks) == old(data + Content(chunks)) && old(data) <= data
      ensures !eofile ==> lookahead >= MIN_LOOKAHEAD && strstart <= WINDOW_SIZE - MIN_LOOKAHEAD
      ensures |Content(chunks)| + lookahead == old(|Content(chunks)| + lookahead)
    {
      hide HeadsOk, ChainsOk, Pow2, Primed, Content, Summed, InWindow;
      while lookahead < MIN_LOOKAHEAD && !eofile
        invariant Holds() && DictTo(strstart) && (strstart == 0 || lookahead >= 2 || eofile)
        invariant Filled(old(base + strstart), old(base + blockStart), old(base + matchStart), old(insH),
                    old(prevLength))
        invariant lookahead >= old(lookahead) && (old(eofile) ==> eofile) && (old(strstart) >= 1 ==> strstart >= 1)
        invariant old((lookahead >= 2 || eofile) && ReadyAt(strstart)) ==> ReadyAt(strstart)
        invariant data + Content(chunks) == old(data + Content(chunks)) && old(data) <= data
        invariant |Content(chunks)| + lookahead == old(|Content(chunks)| + lookahead)
        decreases !eofile, |Content(chunks)|
      {
        FillWindow();
        SumKept(data, Content(chunks), old(data), old(Content(chunks)));
      }
    }

    // -------------------------------------------------------------- the dictionary

    /** Put the string at strstart into the dictionary; returns the latest one with the same key. */
    method InsertString() returns (matchHead: nat)
      requires Shape() && strstart < WINDOW_SIZE && DictTo(strstart) && ReadyAt(strstart)
      modifies this`insH, prev, head
      ensures DictTo(strstart + 1) && ReadyAt(strstart + 1) && LinkOk(hashBits, window[..], strstart, matchHead)
      ensures KeyAt(hashBits, window[..], strstart) < head.Length
      ensures matchHead == old(head[..])[KeyAt(hashBits, window[..], strstart)]
      ensures head[..] == old(head[..])[KeyAt(hashBits, window[..], strstart) := strstart]
      ensures prev[..] == old(prev[..])[strstart % WSIZE := matchHead]
    {
      hide HeadsOk, ChainsOk, Pow2, Primed, Hash3, Update;
      ghost var w, hd: seq<nat>, pv: seq<nat> := window[..], head[..], prev[..];
      KeyOfThree(hashBits, insH, w[strstart], w[strstart + 1], w[strstart + 2]);
      Rolls(hashBits, insH, w[strstart], w[strstart + 1], w[strstart + 2]);
      insH := Update(hashBits, insH, window[strstart + 2]);
      HeadsInsert(hashBits, w, strstart, hd);
      HeadLinks(hashBits, w, strstart, hd);
      matchHead := head[insH];
      ChainsInsert(hashBits, w, strstart, pv, matchHead);
      prev[strstart % WSIZE] := matchHead;
      head[insH] := strstart;
      assert prev[..] == pv[strstart % WSIZE := matchHead] && head[..] == hd[insH := strstart];
    }

    // -------------------------------------------------------------- the search

    /** Compare from the fourth byte on, eight bytes between checks for the end. */
    method MatchLength(m: nat) returns (len: nat)
      requires Shape() && m < strstart < WINDOW_SIZE && Repeats(window[..], strstart, m, 3)
      ensures len == Common(window[..], strstart, m, MAX_COMMON)
    {
      hide Pow2, Common;
      ghost var w := window[..];
      var strend := strstart + MAX_COMMON;
      var scan, match_ := strstart + 2, m + 2;
      var equal := true;
      while true
        invariant strstart + 2 <= scan < strend && (strend - scan) % 8 == 0 && match_ - m == scan - strstart
        invariant Repeats(w, strstart, m, scan - strstart + 1)
        decreases strend - scan
      {
        scan, match_, equal := CompareEight(m, scan, match_);
        if !equal || scan >= strend { break; }
      }
      len := MAX_COMMON - (strend - scan);
      CommonIs(w, strstart, m, MAX_COMMON, len);
    }

    /** Up to eight comparisons; stops at the first that fails. */
    method CompareEight(m: nat, scan0: nat, match0: nat) returns (scan: nat, match_: nat, equal: bool)
      requires Shape() && m < strstart < WINDOW_SIZE
      requires strstart + 2 <= scan0 <= strstart + 250 && match0 - m == scan0 - strstart
      requires Repeats(window[..], strstart, m, scan0 - strstart + 1)
      ensures scan0 < scan <= scan0 + 8 && match_ - m == scan - strstart
      ensures equal ==> scan == scan0 + 8 && Repeats(window[..], strstart, m, scan - strstart + 1)
      ensures !equal ==> Repeats(window[..], strstart, m, scan - strstart) && window[scan] != window[match_]
    {
      scan, match_ := scan0, match0;
      for k := 0 to 8
        invariant scan == scan0 + k && match_ == match0 + k && Repeats(window[..], strstart, m, scan - strstart + 1)
      {
        scan, match_ := scan + 1, match_ + 1;
        if window[scan] != window[match_] { return scan, match_, false; }
        assert SameByte(window[..], strstart, m, scan - strstart);
      }
      equal := true;
    }

    /** Can the string at `m` match more than `best` bytes?  If so, it matches three at least. */
    method Promising(m: nat, best: nat, scanEnd1: byte, scanEnd: byte) returns (yes: bool)
      requires Shape() && m < strstart < WINDOW_SIZE && 1 <= best < MAX_COMMON
      requires scanEnd1 == window[strstart + best - 1] && scanEnd == window[strstart + best]
      requires KeyAt(hashBits, window[..], m) == KeyAt(hashBits, window[..], strstart)
      ensures if yes then Repeats(window[..], strstart, m, 3) else Common(window[..], strstart, m, MAX_COMMON) <= best
    {
      hide Pow2, Hash3, Common;
      ghost var w := window[..];
      var s := strstart;
      if window[m + best] != scanEnd || window[m + best - 1] != scanEnd1 || window[m] != window[s]
        || window[m + 1] != window[s + 1] {
        if Common(w, s, m, MAX_COMMON) > best { LongerAgrees(w, s, m, best); }
        return false;
      }
      ThirdByte(hashBits, w[s], w[s + 1], w[s + 2], w[m + 2]);
      yes := true;
    }

    /** How much of the string at `m` matches, when that is more than `best`. */
    method TryCandidate(m: nat, best: nat, scanEnd1: byte, scanEnd: byte) returns (len: nat)
      requires Shape() && m < strstart < WINDOW_SIZE && 1 <= best < MAX_COMMON
      requires scanEnd1 == window[strstart + best - 1] && scanEnd == window[strstart + best]
      requires KeyAt(hashBits, window[..], m) == KeyAt(hashBits, window[..], strstart)
      ensures len <= best ==> Common(window[..], strstart, m, MAX_COMMON) <= best
      ensures len > best ==> len <= MAX_COMMON && len == Common(window[..], strstart, m, MAX_COMMON)
      ensures len > best ==> Repeats(window[..], strstart, m, len)
    {
      hide Pow2, Hash3, Common, Repeats;
      var promising := Promising(m, best, scanEnd1, scanEnd);
      if promising {
        len := MatchLength(m);
      } else {
        len := 0;
      }
    }

    /** Take the candidate `cur` when it matches more than `best` bytes; `done` when that is plenty. */
    method Improve(cur: nat, best: nat, end1: byte, end: byte)
      returns (newBest: nat, scanEnd1: byte, scanEnd: byte, done: bool)
      requires Shape() && 0 < cur < strstart < WINDOW_SIZE && strstart - cur <= MAX_DIST && 1 <= best < MAX_COMMON
      requires end1 == window[strstart + best - 1] && end == window[strstart + best]
      requires KeyAt(hashBits, window[..], cur) == KeyAt(hashBits, window[..], strstart)
      modifies this`matchStart
      ensures best <= newBest <= MAX_COMMON && Common(window[..], strstart, cur, MAX_COMMON) <= newBest
      ensures newBest == best ==> matchStart == old(matchStart) && !done
      ensures newBest > best ==> MatchOk(window[..], strstart, matchStart, newBest)
      ensures done ==> newBest >= niceMatch
      ensures !done ==>
                newBest < MAX_COMMON && scanEnd1 == window[strstart + newBest - 1]
                  && scanEnd == window[strstart + newBest]
    {
      hide Pow2, KeyAt, Common;
      newBest, scanEnd1, scanEnd, done := best, end1, end, false;
      var len := TryCandidate(cur, best, end1, end);
      if len > best {
        matchStart := cur;
        newBest := len;
        if len >= niceMatch {
          done := true;
        } else {
          scanEnd1, scanEnd := window[strstart + newBest - 1], window[strstart + newBest];
        }
      }
    }

    /** The longest match for the string at strstart among the candidates on its chain; only
        matches longer than prevLength are reported, in matchStart. */
    method LongestMatch(curMatch: nat) returns (bestLen: nat, ghost chain: nat)
      requires Shape() && DictTo(strstart + 1) && 0 < curMatch < strstart < WINDOW_SIZE
      requires strstart - curMatch <= MAX_DIST
      requires LinkOk(hashBits, window[..], strstart, curMatch) && 1 <= prevLength < MAX_COMMON
      modifies this`matchStart
      ensures prevLength <= bestLen <= MAX_COMMON
      ensures bestLen == prevLength ==> matchStart == old(matchStart)
      ensures bestLen > prevLength ==> MatchOk(window[..], strstart, matchStart, bestLen)
      ensures chain == (if prevLength >= goodMatch then maxChain / 4 else maxChain)
      ensures var cs := Candidates(prev[..], curMatch, Limit(strstart), chain);
              bestLen >= niceMatch || NoneLonger(window[..], strstart, cs, bestLen)
    {
      hide Pow2, HeadsOk, ChainsOk, KeyAt, Common, Candidates, MatchOk, NoneLonger, Repeats, InWindow, Content;
      ghost var w, pv: seq<nat> := window[..], prev[..];
      var s := strstart;
      var cur, chainLength := curMatch, maxChain;
      bestLen := prevLength;
      var limit := if s > MAX_DIST then s - MAX_DIST else 0;
      var scanEnd1, scanEnd := window[s + bestLen - 1], window[s + bestLen];
      if prevLength >= goodMatch { chainLength := chainLength / 4; }
      chain := chainLength;
      ghost var all: seq<nat>, seen: seq<nat> := Candidates(pv, cur, limit, chain), [];
      NoneLongerNone(w, s, bestLen);
      while true
        invariant strstart == s && 0 < cur < s && s - cur <= MAX_DIST
        invariant KeyAt(hashBits, w, cur) == KeyAt(hashBits, w, s)
        invariant 0 < chainLength && prevLength <= bestLen < MAX_COMMON
        invariant window[..] == w && scanEnd1 == w[s + bestLen - 1] && scanEnd == w[s + bestLen]
        invariant bestLen == prevLength ==> matchStart == old(matchStart)
        invariant bestLen > prevLength ==> MatchOk(w, s, matchStart, bestLen)
        invariant all == seen + Candidates(pv, cur, limit, chainLength) && NoneLonger(w, s, seen, bestLen)
        decreases chainLength
      {
        ghost var before := bestLen;
        var done;
        bestLen, scanEnd1, scanEnd, done := Improve(cur, bestLen, scanEnd1, scanEnd);
        if done { return; }
        SearchStep(w, s, pv, cur, limit, chainLength, all, seen, before, bestLen);
        seen := seen + [cur];
        LinkHolds(hashBits, w, s, pv, cur);
        cur := prev[cur % WSIZE];
        if cur <= limit { return; }
        chainLength := chainLength - 1;
        if chainLength == 0 { return; }
      }
    }

    /** One step of the lazy matching: insert the string at strstart and look for a match that is
        longer than the one found for the previous string. */
    method FindMatch(length: nat) returns (matchLength: nat, prevMatch: int)
      requires Holds() && DictTo(strstart) && ReadyAt(strstart) && lookahead > 0 && 2 <= length
      modifies this`insH, this`prevLength, this`matchStart, prev, head
      ensures Holds() && DictTo(strstart + 1) && ReadyAt(strstart + 1)
      ensures prevLength == length && prevMatch == old(matchStart)
      ensures lookahead >= MIN_LOOKAHEAD ==> strstart <= WINDOW_SIZE - MIN_LOOKAHEAD
      ensures 1 <= matchLength <= MAX_COMMON && (matchLength == 1 ==> lookahead == 1)
      ensures matchLength >= 3 && matchLength > prevLength ==>
                MatchAt(data, base + strstart, base + matchStart, matchLength)
    {
      hide HeadsOk, ChainsOk, Pow2, Primed, Content, Summed, KeyAt, InWindow, MatchOk, MatchAt;
      var hashHead := InsertString();
      prevLength, prevMatch, matchLength := length, matchStart, 2;
      if hashHead != 0 && prevLength < maxLazy && strstart - hashHead <= MAX_DIST {
        ghost var chain;
        matchLength, chain := LongestMatch(hashHead);
        ghost var found := matchLength;
        if matchLength > lookahead { matchLength := lookahead; }
        if found > prevLength { ShorterMatch(window[..], strstart, matchStart, found, matchLength); }
        if matchLength == 3 && strstart - matchStart > BC.TOO_FAR { matchLength := 2; }
        if found > prevLength && matchLength >= 3 {
          WindowMatch(window[..], data, base, strstart + lookahead, strstart, matchStart, matchLength);
        }
      }
    }

    /** Insert the strings inside a match that started at the previous position, and step past it. */
    method SkipMatch()
      requires Holds() && DictTo(strstart + 1) && ReadyAt(strstart + 1) && 3 <= prevLength <= lookahead + 1
      modifies this`insH, this`prevLength, this`strstart, this`lookahead, prev, head
      ensures Holds() && DictTo(strstart) && ReadyAt(strstart)
      ensures strstart == old(strstart + prevLength) - 1 && lookahead == old(lookahead - prevLength) + 1
    {
      hide HeadsOk, ChainsOk, Pow2, Primed, Content, Summed, InWindow, LinkOk, KeyAt;
      lookahead := lookahead - (prevLength - 1);
      prevLength := prevLength - 2;
      while true
        invariant Shape() && DictTo(strstart + 1) && ReadyAt(strstart + 1)
        invariant 1 <= prevLength && strstart + prevLength == old(strstart + prevLength) - 2
        invariant lookahead == old(lookahead - prevLength) + 1
        decreases prevLength
      {
        strstart := strstart + 1;
        var hashHead := InsertString();
        prevLength := prevLength - 1;
        if prevLength == 0 { break; }
      }
      strstart := strstart + 1;
    }

    /** Step to the next position. */
    method Advance()
      requires Holds() && lookahead > 0
      modifies this`strstart, this`lookahead
      ensures Holds() && strstart == old(strstart) + 1 && lookahead == old(lookahead) - 1
    {
      strstart := strstart + 1;
      lookahead := lookahead - 1;
    }

    // -------------------------------------------------------------- a new file

    constructor (hashBits: nat, maxChain: nat, maxLazy: nat, goodMatch: nat, niceMatch: nat, chunks: seq<seq<byte>>,
                 crcTable: array<nat>)
      requires 8 <= hashBits <= 15 && 4 <= maxChain && maxLazy <= MAX_COMMON
      requires niceMatch <= MAX_COMMON && C.TableOk(crcTable[..])
      ensures Shape() && Summed(crcTable[..], crc, isize, data) && this.crcTable == crcTable
      ensures fresh(window) && fresh(prev) && fresh(head) && this.chunks == chunks
      ensures strstart == 0 && blockStart == 0 && lookahead == 0 && !eofile && data == [] && base == 0
    {
      this.hashBits, this.maxChain, this.maxLazy := hashBits, maxChain, maxLazy;
      this.goodMatch, this.niceMatch := goodMatch, niceMatch;
      window, prev, head := new byte[WINDOW_SPAN], new nat[WSIZE], new nat[Pow2(hashBits)];
      this.chunks, this.crcTable, crc, isize := chunks, crcTable, C.ONES, 0;
      blockStart, insH, prevLength, strstart, matchStart, lookahead := 0, 0, 0, 0, 0, 0;
      eofile, data, base := false, [], 0;
    }

    /** Clear the chain heads, fill the window, and start the key.  `prev` is not cleared. */
    method LmInit()
      requires Shape() && strstart == 0 && blockStart == 0 && lookahead == 0 && !eofile && data == [] && base == 0
      requires Summed(crcTable[..], crc, isize, data)
      modifies this, window, prev, head
      ensures Holds() && DictTo(strstart) && (lookahead > 0 ==> ReadyAt(strstart))
      ensures base == strstart == 0 && blockStart == 0
      ensures data + Content(chunks) == Content(old(chunks)) && (eofile || lookahead >= MIN_LOOKAHEAD)
    {
      hide Pow2, Primed, Content, Summed, InWindow, HeadsOk, ChainsOk;
      ClearHeads(head);
      NoStrings(hashBits, window[..], head[..], prev[..]);
      InWindowNone(window[..], data);
      assert Holds();
      ReadMore(WINDOW_SIZE);
      if eofile { return; }
      FillWindowIfNeeded();
      PrimeKey();
    }

    method PrimeKey()
      requires Shape() && strstart == 0
      modifies this`insH
      ensures ReadyAt(0)
    {
      hide Pow2, Update;
      for j := 0 to 2
        invariant j == 1 ==> exists h0: nat :: insH == Update(hashBits, h0, window[0])
        invariant j == 2 ==> ReadyAt(0)
      {
        insH := Update(hashBits, insH, window[j]);
      }
    }
  }

  /** A match in the window is one in the input. */
  lemma WindowMatch(w: seq<byte>, data: seq<byte>, base: nat, n: nat, s: nat, m: int, len: nat)
    requires InWindow(w, data, base, n) && MatchOk(w, s, m, len) && s + len <= n && len <= MAX_COMMON
    requires len == 3 ==> s - m <= BC.TOO_FAR
    ensures MatchAt(data, base + s, base + m, len)
  {
    var d := s - m;
    forall j | base + s <= j < base + s + len ensures SameAt(data, j, d) {
      assert SameByte(w, s, m, j - base - s);
      assert w[j - base] == data[base + (j - base)] && w[m + (j - base - s)] == data[base + (m + (j - base - s))];
    }
  }

  lemma ShorterMatch(w: seq<byte>, s: nat, m: int, len: nat, n: nat)
    requires MatchOk(w, s, m, len) && n <= len
    ensures MatchOk(w, s, m, n)
  {
  }

  /** Candidates lie above this position. */
  function Limit(strstart: nat): nat { if strstart > MAX_DIST then strstart - MAX_DIST else 0 }

  /** The `len` bytes at `s` are also at the earlier position `m`. */
  ghost predicate MatchOk(w: seq<byte>, s: nat, m: int, len: nat) {
    0 < m < s && s - m <= MAX_DIST && Repeats(w, s, m, len)
  }

  lemma LongerAgrees(w: seq<byte>, s: nat, m: nat, best: nat)
    requires s + MAX_COMMON <= |w| && m < s && 1 <= best < MAX_COMMON && Common(w, s, m, MAX_COMMON) > best
    ensures SameByte(w, s, m, best) && SameByte(w, s, m, best - 1) && SameByte(w, s, m, 0) && SameByte(w, s, m, 1)
  {
    hide Common;
  }

  lemma LinkHolds(hb: nat, w: seq<byte>, s: nat, prev: seq<nat>, p: nat)
    requires ChainsOk(hb, w, s + 1, prev) && p < s && s - p <= MAX_DIST
    ensures LinkOk(hb, w, p, prev[p % WSIZE])
  {
    hide LinkOk;
  }

  lemma NoneLongerNone(w: seq<byte>, s: nat, best: nat)
    requires s + MAX_COMMON <= |w|
    ensures NoneLonger(w, s, [], best)
  {
  }

  /** One more candidate has been tried. */
  lemma SearchStep(w: seq<byte>, s: nat, prev: seq<nat>, cur: nat, limit: nat, n: nat,
                   all: seq<nat>, seen: seq<nat>, before: nat, best: nat)
    requires |prev| == WSIZE && n > 0 && all == seen + Candidates(prev, cur, limit, n)
    requires NoneLonger(w, s, seen, before) && before <= best && cur < s && Common(w, s, cur, MAX_COMMON) <= best
    ensures NoneLonger(w, s, seen + [cur], best)
    ensures var q := prev[cur % WSIZE];
            if q > limit && n > 1 then all == seen + [cur] + Candidates(prev, q, limit, n - 1) else all == seen + [cur]
  {
    hide Common;
    var q := prev[cur % WSIZE];
    if q > limit {
      assert seen + [cur] + Candidates(prev, q, limit, n - 1) == seen + ([cur] + Candidates(prev, q, limit, n - 1));
    }
  }

  lemma HeadLinks(hb: nat, w: seq<byte>, s: nat, head: seq<nat>)
    requires HeadsOk(hb, w, s, head) && s + 2 < |w|
    ensures KeyAt(hb, w, s) < |head| && LinkOk(hb, w, s, head[KeyAt(hb, w, s)])
  {
    hide Hash3;
    var k := KeyAt(hb, w, s);
    assert HeadOk(hb, w, s, k, head[k]);
  }

  lemma SlidInWindow(w: seq<byte>, v: seq<byte>, data: seq<byte>, base: nat, n: nat)
    requires Slid(w, v) && InWindow(w, data, base, n) && WSIZE <= n <= WINDOW_SIZE
    ensures InWindow(v, data, base + WSIZE, n - WSIZE)
  {
  }

  lemma SumKept(d: seq<byte>, c: seq<byte>, d0: seq<byte>, c0: seq<byte>)
    requires d + c == d0 + c0
    ensures |d| + |c| == |d0| + |c0|
  {
    assert |d + c| == |d0 + c0|;
  }

  lemma NoStrings(hb: nat, w: seq<byte>, head: seq<nat>, prev: seq<nat>)
    requires |head| == Pow2(hb) && |prev| == WSIZE && forall h :: 0 <= h < |head| ==> head[h] == 0
    ensures HeadsOk(hb, w, 0, head) && ChainsOk(hb, w, 0, prev)
  {
  }

  lemma InWindowNone(w: seq<byte>, data: seq<byte>)
    ensures InWindow(w, data, 0, 0)
  {
  }

  method ClearHeads(a: array<nat>)
    modifies a
    ensures forall i :: 0 <= i < a.Length ==> a[i] == 0
  {
    for n := 0 to a.Length
      invariant forall i :: 0 <= i < n ==> a[i] == 0
    {
      a[n] := 0;
    }
  }

  method MoveAll(a: array<nat>)
    modifies a
    ensures AllMoved(old(a[..]), a[..])
  {
    for n := 0 to a.Length
      invariant forall i :: 0 <= i < n ==> a[i] == Moved(old(a[..])[i])
      invariant forall i :: n <= i < a.Length ==> a[i] == old(a[..])[i]
    {
      var m := a[n];
      a[n] := if m >= WSIZE then m - WSIZE else 0;
    }
  }
}
