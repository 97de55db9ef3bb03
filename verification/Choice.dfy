/** How flush_block chooses among the three encodings of a block, and what the choice costs. */
module BlockChoice {
  import opened Bits
  import opened BitQueues
  import opened Tables
  import opened Tokens
  import opened StaticTrees

  datatype BlockKind = Stored | Static | Dynamic

  /** The smaller of the two compressed sizes, in bytes with the 3 header bits. */
  function SmallerBytes(optBits: nat, staticBits: nat): nat {
    var optLenb, staticLenb := (optBits + 3 + 7) / 8, (staticBits + 3 + 7) / 8;
    if staticLenb <= optLenb then staticLenb else optLenb
  }

  /** The encoding sent, for the predicted sizes in bits. */
  function Choice(haveData: bool, storedLen: nat, optBits: nat, staticBits: nat): BlockKind {
    var best := SmallerBytes(optBits, staticBits);
    if storedLen + 4 <= best && haveData then Stored
    else if (staticBits + 3 + 7) / 8 == best then Static
    else Dynamic
  }

  /** Bits that an encoding takes when it starts at bit `pos`. */
  function SizeOf(kind: BlockKind, pos: nat, storedLen: nat, optBits: nat, staticBits: nat): nat {
    match kind
    case Stored => 3 + Padding(pos + 3) + 32 + 8 * storedLen
    case Static => 3 + staticBits
    case Dynamic => 3 + optBits
  }

  /** Bytes of output once the block is complete. */
  function BytesAfter(kind: BlockKind, pos: nat, storedLen: nat, optBits: nat, staticBits: nat): nat {
    (pos + SizeOf(kind, pos, storedLen, optBits, staticBits) + 7) / 8
  }

  /** No encoding that could have been sent ends in an earlier byte. */
  ghost predicate Smallest(kind: BlockKind, haveData: bool, pos: nat, storedLen: nat, optBits: nat, staticBits: nat) {
    forall other: BlockKind :: (other.Stored? ==> haveData) ==>
      BytesAfter(kind, pos, storedLen, optBits, staticBits) <= BytesAfter(other, pos, storedLen, optBits, staticBits)
  }

  /** Rounding up the size of a compressed block does not count the byte that it spills into when it
      starts at `pos`. */
  predicate Spills(pos: nat, bits: nat) { pos % 8 + (bits + 3 + 7) % 8 >= 8 }

  /** Every compressed encoding of the smaller rounded size spills. */
  predicate BestSpills(pos: nat, optBits: nat, staticBits: nat) {
    var best := SmallerBytes(optBits, staticBits);
    && ((staticBits + 3 + 7) / 8 == best ==> Spills(pos, staticBits))
    && ((optBits + 3 + 7) / 8 == best ==> Spills(pos, optBits))
  }

  /** Bytes of a stored block that the test for it leaves out: its header, and the one more that
      padding takes when fewer than 3 bits are free. */
  function Uncounted(pos: nat): nat { if pos % 8 > 5 then 2 else 1 }

  /** The block is stored, although the bytes left out make it longer than the best compressed one. */
  predicate StoredTooLong(haveData: bool, pos: nat, storedLen: nat, optBits: nat, staticBits: nat) {
    var best := SmallerBytes(optBits, staticBits);
    && haveData && storedLen + 4 <= best
    && storedLen + 4 + Uncounted(pos) > best + (if BestSpills(pos, optBits, staticBits) then 1 else 0)
  }

  /** The two compressed sizes round to the same number of bytes, and only the static one spills. */
  predicate TieLost(haveData: bool, pos: nat, storedLen: nat, optBits: nat, staticBits: nat) {
    && !(haveData && storedLen + 4 <= SmallerBytes(optBits, staticBits))
    && (staticBits + 3 + 7) / 8 == (optBits + 3 + 7) / 8 && Spills(pos, staticBits) && !Spills(pos, optBits)
  }

  /** The chosen encoding is the smallest except in two cases. */
  lemma ChosenIsSmallestIff(haveData: bool, pos: nat, storedLen: nat, optBits: nat, staticBits: nat)
    ensures Smallest(Choice(haveData, storedLen, optBits, staticBits), haveData, pos, storedLen, optBits, staticBits)
            <==> && !StoredTooLong(haveData, pos, storedLen, optBits, staticBits)
                 && !TieLost(haveData, pos, storedLen, optBits, staticBits)
  {
    hide Padding, Spills;
    CompressedEnd(pos, staticBits);
    CompressedEnd(pos, optBits);
    StoredEnd(pos, storedLen);
    assert BytesAfter(Static, pos, storedLen, optBits, staticBits) == (pos + (3 + staticBits) + 7) / 8;
    assert BytesAfter(Dynamic, pos, storedLen, optBits, staticBits) == (pos + (3 + optBits) + 7) / 8;
    assert BytesAfter(Stored, pos, storedLen, optBits, staticBits)
      == (pos + (3 + Padding(pos + 3) + 32 + 8 * storedLen) + 7) / 8;
  }

  lemma CompressedEnd(pos: nat, x: nat)
    ensures (pos + (3 + x) + 7) / 8 == pos / 8 + (x + 3 + 7) / 8 + (if Spills(pos, x) then 1 else 0)
  {
  }

  lemma StoredEnd(pos: nat, storedLen: nat)
    ensures (pos + (3 + Padding(pos + 3) + 32 + 8 * storedLen) + 7) / 8 == pos / 8 + storedLen + 4 + Uncounted(pos)
  {
  }

  /** Sizes for which the tie is lost: the static form ends in byte 102, the dynamic one in 101. */
  lemma TieExample()
    ensures Choice(true, 200, 800, 805) == Static && TieLost(true, 4, 200, 800, 805)
    ensures BytesAfter(Static, 4, 200, 800, 805) == 102 && BytesAfter(Dynamic, 4, 200, 800, 805) == 101
  {
  }

  /** From a byte boundary nothing spills: only a stored block can be too long, by its header byte. */
  lemma SmallestFromBoundary(haveData: bool, pos: nat, storedLen: nat, optBits: nat, staticBits: nat)
    requires pos % 8 == 0
    ensures Smallest(Choice(haveData, storedLen, optBits, staticBits), haveData, pos, storedLen, optBits, staticBits)
            <==> !(haveData && storedLen + 4 == SmallerBytes(optBits, staticBits))
  {
    hide Smallest, Choice;
    ChosenIsSmallestIff(haveData, pos, storedLen, optBits, staticBits);
  }

  /** Wherever the block starts, the choice costs at most two bytes more than the best one. */
  lemma ChosenIsNearSmallest(haveData: bool, pos: nat, storedLen: nat, optBits: nat, staticBits: nat, other: BlockKind)
    requires other.Stored? ==> haveData
    ensures var chosen := Choice(haveData, storedLen, optBits, staticBits);
            var slack := if chosen.Stored? then 2 else 1;
            BytesAfter(chosen, pos, storedLen, optBits, staticBits)
            <= BytesAfter(other, pos, storedLen, optBits, staticBits) + slack
  {
    hide Padding, Spills;
    CompressedEnd(pos, staticBits);
    CompressedEnd(pos, optBits);
    StoredEnd(pos, storedLen);
  }

  // ---------------------------------------------------------------- the size of a static block

  /** Input bytes that a token stands for. */
  function Span(t: Token): nat { if t.Match? then t.len else 1 }

  function Spans(ts: seq<Token>): nat { if ts == [] then 0 else Span(ts[0]) + Spans(ts[1..]) }

  /** Input bytes covered by matches. */
  function Matched(ts: seq<Token>): nat {
    if ts == [] then 0 else (if ts[0].Match? then ts[0].len else 0) + Matched(ts[1..])
  }

  const TOO_FAR: nat := 4096

  /** Matches of three bytes are not far away. */
  predicate NearOk(t: Token) { TokenOk(t) && (t.Match? && t.len == 3 ==> t.dist <= TOO_FAR) }

  ghost predicate AllNear(ts: seq<Token>) { forall i :: 0 <= i < |ts| ==> NearOk(ts[i]) }

  lemma {:induction false} ExpandSpans(ts: seq<Token>, out: seq<byte>)
    ensures Expand(ts, out).Some? ==> |Expand(ts, out).value| == |out| + Spans(ts)
    decreases |ts|
  {
    if ts != [] {
      match ts[0]
      case Literal(c) => ExpandSpans(ts[1..], out + [c]);
      case Match(d, n) => if 1 <= d <= |out| { ExpandSpans(ts[1..], CopyBack(out, d, n)); }
    }
  }

  lemma {:induction false} SpansSplit(ts: seq<Token>)
    ensures Spans(ts) <= |ts| + Matched(ts)
    decreases |ts|
  {
    if ts != [] { SpansSplit(ts[1..]); }
  }

  /** A near distance has at most 10 extra bits. */
  lemma NearExtra(d: nat)
    requires d < TOO_FAR
    ensures DistCode(d) <= 29 && EXTRA_DBITS[DistCode(d)] <= 10
  {
    hide EXTRA_DBITS, Start;
    DistDecodes(d);
    FarCodes(DistCode(d));
  }

  lemma FarCodes(c: nat)
    requires c <= 29
    ensures |DIST_BASE| == 30 && |EXTRA_DBITS| == 30 && EXTRA_DBITS[c] <= 13
    ensures (EXTRA_DBITS[c] > 10 ==> DIST_BASE[c] > TOO_FAR)
  {
  }

  lemma ShortLength(n: nat)
    requires n < 256
    ensures LengthCode(n) <= 28 && |EXTRA_LBITS| == 29 && |LENGTH_BASE| == 29 && EXTRA_LBITS[LengthCode(n)] <= 5
    ensures n < 8 ==> LengthCode(n) < 8 && EXTRA_LBITS[LengthCode(n)] == 0
  {
    hide Start, Pow2;
    LengthDecodes(n);
    var c := LengthCode(n);
    assert c >= 8 ==> LENGTH_BASE[c] >= 11;
  }

  /** A token costs at most one bit more than its bytes, and a match a bit less for each byte. */
  lemma StaticTokenCost(t: Token)
    requires NearOk(t)
    ensures |TokenBits(t, StaticLens(), StaticDistLens())| <= if t.Match? then 7 * t.len + 1 else 9
  {
    hide TokenBits, LengthCode, DistCode, EXTRA_LBITS, EXTRA_DBITS, LENGTH_BASE;
    TokenSize(t, StaticLens(), StaticDistLens());
    if t.Match? {
      ShortLength(t.len - 3);
      DistDecodes(t.dist - 1);
      FarCodes(DSym(t));
      if t.dist <= TOO_FAR { NearExtra(t.dist - 1); }
    }
  }

  lemma {:induction false} StaticCost(ts: seq<Token>)
    requires AllNear(ts)
    ensures TokensOk(ts) && |TokensBits(ts, StaticLens(), StaticDistLens())| + Matched(ts) <= 8 * Spans(ts) + |ts|
    decreases |ts|
  {
    hide TokenBits, StaticLens, StaticDistLens;
    assert TokensOk(ts);
    if ts != [] {
      assert NearOk(ts[0]);
      StaticTokenCost(ts[0]);
      StaticCost(ts[1..]);
    }
  }

  /** Bits of a static block after its header. */
  ghost function StaticSize(ts: seq<Token>): nat
    requires TokensOk(ts)
  {
    |BlockBits(ts, StaticLens(), StaticDistLens())|
  }

  /** A block that is sent stored fits the 16-bit length field. */
  lemma StoredFits(ts: seq<Token>, storedLen: nat, haveData: bool, optBits: nat)
    requires AllNear(ts) && |ts| < 0x8000 && storedLen == Spans(ts) && TokensOk(ts)
    requires Choice(haveData, storedLen, optBits, StaticSize(ts)) == Stored
    ensures storedLen < 0x1_0000
  {
    hide TokensBits, CodeAt;
    StaticCost(ts);
    SpansSplit(ts);
    CodeAtLen(StaticLens(), END_BLOCK);
  }
}
