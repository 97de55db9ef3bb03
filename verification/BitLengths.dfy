/** gen_bitlen: optimal code lengths from the tree, then the repair that limits them. */
module BitLengths {
  import opened Bits
  import opened Sums
  import opened Huffman
  import opened TreeShape
  import opened Canonical
  import opened Levels

  const HEAP_SIZE := 573   // 2 * L_CODES + 1

  /** An unsigned 32-bit accumulator. */
  function Word(x: int): nat { x % 0x1_0000_0000 }

  lemma WordAdd(a: int, b: int)
    ensures Word(Word(a) + b) == Word(a + b)
  {
  }

  /** freq * (length + extra) of one symbol. */
  ghost function BitTerm(f: nat -> nat, l: nat -> nat, extra: nat -> nat): nat -> int {
    (n: nat) => f(n) * (l(n) + extra(n))
  }

  /** struct tree_desc: a code tree under construction.  The two unions of struct ct_data are
      two arrays: fc holds Freq and then Code, dl holds Dad and then Len. */
  class TreeDesc {
    const fc: array<nat>
    const dl: array<nat>
    const staticLens: seq<nat>   // Len of the corresponding static tree, [] when there is none
    const extraBits: seq<nat>
    const extraBase: nat
    const elems: nat
    const maxLength: nat
    var maxCode: int             // largest code with non zero frequency

    constructor (size: nat, staticLens: seq<nat>, extraBits: seq<nat>, extraBase: nat, elems: nat, maxLength: nat)
      ensures fresh(fc) && fresh(dl) && fc != dl && fc.Length == size && dl.Length == size
      ensures this.staticLens == staticLens && this.extraBits == extraBits && this.extraBase == extraBase
      ensures this.elems == elems && this.maxLength == maxLength && maxCode == 0
      ensures (forall i :: 0 <= i < size ==> fc[i] == 0) && (forall i :: 0 <= i < size ==> dl[i] == 0)
    {
      var codes := new nat[size](i => 0);
      var lens := new nat[size](i => 0);
      fc, dl := codes, lens;
      this.staticLens, this.extraBits, this.extraBase := staticLens, extraBits, extraBase;
      this.elems, this.maxLength, this.maxCode := elems, maxLength, 0;
    }

    /** The fixed part of a descriptor. */
    ghost predicate Shape() {
      && fc != dl && fc.Length == dl.Length && 2 * elems + 1 == fc.Length
      && 2 < elems <= 286 && elems < Pow2(maxLength) && 1 <= maxLength <= MAX_BITS
      && (staticLens != [] ==> |staticLens| >= elems)
      && elems <= extraBase + |extraBits|
      && Extra(0) == 0 && Extra(1) == 0 && Extra(2) == 0
    }

    function Extra(n: nat): nat {
      if extraBase <= n < extraBase + |extraBits| then extraBits[n - extraBase] else 0
    }

    ghost function ExtraOf(): nat -> nat { (n: nat) => Extra(n) }

    /** Total bits of the symbols in `S` under the lengths `l`. */
    ghost function BitsOf(S: set<nat>, freq: seq<nat>, l: nat -> nat): int {
      Sum(S, BitTerm(Of(freq), l, ExtraOf()))
    }
  }

  // ---------------------------------------------------------------- first pass

  /** From position `r` on, nodes carry their length; below `r` they still carry their father. */
  ghost predicate Partly(dl: seq<nat>, ms: seq<Merge>, base: nat, c: nat -> nat, r: nat) {
    && |ms| >= 1 && base + |ms| <= |dl| && r <= 2 * |ms|
    && (forall q :: 0 <= q < 2 * |ms| ==> NodeAt(ms, q) < |dl|)
    && (forall q :: r <= q < 2 * |ms| ==> dl[NodeAt(ms, q)] == c(NodeAt(ms, q)))
    && (forall q :: 0 <= q < r ==> dl[NodeAt(ms, q)] == base + q / 2)
    && dl[base + |ms| - 1] == 0
  }

  /** Before the pass every merged node carries its father. */
  ghost predicate HasFathers(dl: seq<nat>, ms: seq<Merge>, base: nat) {
    && base + |ms| <= |dl|
    && forall q :: 0 <= q < 2 * |ms| ==> NodeAt(ms, q) < |dl| && dl[NodeAt(ms, q)] == base + q / 2
  }

  lemma FatherKnown(leaves: set<nat>, ms: seq<Merge>, base: nat, max: nat, dl: seq<nat>, r: nat)
    requires Built(leaves, ms, base) && 0 < r <= 2 * |ms|
    requires Partly(dl, ms, base, ClippedDepth(ms, base, max), r)
    ensures var c := ClippedDepth(ms, base, max);
            var n := NodeAt(ms, r - 1);
            && dl[n] == base + (r - 1) / 2 && dl[n] < |dl|
            && dl[dl[n]] == c(dl[n]) && c(n) == Min(max, c(dl[n]) + 1)
  {
    hide ClippedDepth, Run, NodeAt;
    ClippedAt(leaves, ms, base, max, r - 1);
    var i := (r - 1) / 2;
    if i == |ms| - 1 {
      RootDepth(leaves, ms, base, max);
    } else {
      var q := FatherAbove(leaves, ms, base, i);
    }
  }

  lemma PartlyStep(leaves: set<nat>, ms: seq<Merge>, base: nat, dl: seq<nat>, c: nat -> nat, r: nat)
    requires Built(leaves, ms, base) && 0 < r <= 2 * |ms| && Partly(dl, ms, base, c, r)
    ensures Partly(dl[NodeAt(ms, r - 1) := c(NodeAt(ms, r - 1))], ms, base, c, r - 1)
  {
    hide Run, NodeAt;
    var n := NodeAt(ms, r - 1);
    ListedActive(leaves, ms, base, r - 1);
    assert n != base + |ms| - 1;
    forall q | 0 <= q < 2 * |ms| && q != r - 1 ensures NodeAt(ms, q) != n {
      if q < r - 1 { Distinct(leaves, ms, base, q, r - 1); } else { Distinct(leaves, ms, base, r - 1, q); }
    }
  }

  /** How many nodes from position `r` on were clipped. */
  ghost function ClippedNodes(c: nat -> nat, base: nat, r: nat, end: nat, max: nat): nat
    decreases end - r
  {
    if r >= end then 0 else (if c(base + r / 2) == max then 1 else 0) + ClippedNodes(c, base, r + 1, end, max)
  }

  /** Clipped nodes come in pairs of brothers. */
  lemma {:induction false} ClippedInPairs(c: nat -> nat, base: nat, i: nat, t: nat, max: nat)
    requires i <= t
    ensures ClippedNodes(c, base, 2 * i, 2 * t, max) == 2 * Full(c, base, i, t, max)
    decreases t - i
  {
    if i < t {
      ClippedInPairs(c, base, i + 1, t, max);
      assert (2 * i) / 2 == i && (2 * i + 1) / 2 == i;
    }
  }

  /** The counts after one more leaf. */
  lemma CountOneMore(bl: seq<nat>, bl': seq<nat>, S: set<nat>, c: nat -> nat, x: nat, max: nat)
    requires Counted(bl, S, c, max) && x !in S && c(x) <= max
    requires bl' == bl[c(x) := bl[c(x)] + 1]
    ensures Counted(bl', S + {x}, c, max)
  {
    hide Sum, AtLength;
    forall b | 0 <= b <= max ensures bl'[b] == CountOf(S + {x}, c, b) {
      CountRemove(S + {x}, c, b, x);
      assert S + {x} - {x} == S;
    }
  }

  lemma NothingCounted(bl: seq<nat>, c: nat -> nat, max: nat)
    requires |bl| > max && forall b :: 0 <= b <= max ==> bl[b] == 0
    ensures Counted(bl, {}, c, max)
  {
    forall b | 0 <= b <= max ensures CountOf({}, c, b) == 0 { SumZero({}, AtLength(c, b)); }
  }

  lemma BitsOneMore(desc: TreeDesc, S: set<nat>, freq: seq<nat>, l: nat -> nat, x: nat)
    requires x !in S && x < |freq|
    ensures desc.BitsOf(S + {x}, freq, l) == desc.BitsOf(S, freq, l) + freq[x] * (l(x) + desc.Extra(x))
  {
    SumAdd(S, BitTerm(Of(freq), l, desc.ExtraOf()), x);
  }

  lemma NoBitsYet(desc: TreeDesc, freq: seq<nat>, l: nat -> nat)
    ensures desc.BitsOf({}, freq, l) == 0
  {
    SumZero({}, BitTerm(Of(freq), l, desc.ExtraOf()));
  }

  // ---------------------------------------------------------------- the pass over the nodes

  /** heap[heapMax..] lists the tree that `ms` describes, root first. */
  ghost predicate ListsTree(heap: seq<nat>, heapMax: nat, ms: seq<Merge>, base: nat) {
    && |heap| == HEAP_SIZE && |ms| >= 1 && heapMax + 2 * |ms| + 1 == HEAP_SIZE
    && heap[heapMax] == base + |ms| - 1
    && forall q :: 0 <= q < 2 * |ms| ==> heap[HEAP_SIZE - 1 - q] == NodeAt(ms, q)
  }

  /** What the pass has computed when the nodes from position `r` on are done. */
  ghost predicate Tallied(desc: TreeDesc, ms: seq<Merge>, freq: seq<nat>, bl: seq<nat>, opt: nat, stat: nat,
                          opt0: nat, stat0: nat, r: nat)
    requires r <= 2 * |ms|
  {
    var S, c := LeavesFrom(ms, desc.elems, r), ClippedDepth(ms, desc.elems, desc.maxLength);
    && Counted(bl, S, c, desc.maxLength)
    && opt == Word(opt0 + desc.BitsOf(S, freq, c))
    && stat == (if desc.staticLens == [] then stat0 else Word(stat0 + desc.BitsOf(S, freq, Of(desc.staticLens))))
  }

  lemma TalliedNothing(desc: TreeDesc, ms: seq<Merge>, freq: seq<nat>, bl: seq<nat>, opt0: nat, stat0: nat)
    requires |bl| > desc.maxLength && (forall b :: 0 <= b < |bl| ==> bl[b] == 0)
    requires opt0 < 0x1_0000_0000 && stat0 < 0x1_0000_0000
    ensures Tallied(desc, ms, freq, bl, opt0, stat0, opt0, stat0, 2 * |ms|)
  {
    var c := ClippedDepth(ms, desc.elems, desc.maxLength);
    NothingCounted(bl, c, desc.maxLength);
    NoBitsYet(desc, freq, c);
    NoBitsYet(desc, freq, Of(desc.staticLens));
  }

  lemma TalliedInner(desc: TreeDesc, ms: seq<Merge>, freq: seq<nat>, bl: seq<nat>, opt: nat, stat: nat,
                     opt0: nat, stat0: nat, r: nat)
    requires 0 < r <= 2 * |ms| && NodeAt(ms, r - 1) >= desc.elems
    requires Tallied(desc, ms, freq, bl, opt, stat, opt0, stat0, r)
    ensures Tallied(desc, ms, freq, bl, opt, stat, opt0, stat0, r - 1)
  {
    assert LeavesFrom(ms, desc.elems, r - 1) == LeavesFrom(ms, desc.elems, r);
  }

  lemma TalliedLeaf(leaves: set<nat>, desc: TreeDesc, ms: seq<Merge>, freq: seq<nat>, bl: seq<nat>, opt: nat, stat: nat,
                    opt0: nat, stat0: nat, r: nat)
    requires Built(leaves, ms, desc.elems) && 0 < r <= 2 * |ms| && NodeAt(ms, r - 1) < desc.elems <= |freq|
    requires desc.Shape() && |bl| > desc.maxLength
    requires Tallied(desc, ms, freq, bl, opt, stat, opt0, stat0, r)
    ensures var n := NodeAt(ms, r - 1);
            var bits := ClippedDepth(ms, desc.elems, desc.maxLength)(n);
            && bits <= desc.maxLength
            && Tallied(desc, ms, freq, bl[bits := bl[bits] + 1],
                       Word(opt + freq[n] * (bits + desc.Extra(n))),
                       if desc.staticLens == [] then stat
                       else Word(stat + freq[n] * (desc.staticLens[n] + desc.Extra(n))),
                       opt0, stat0, r - 1)
  {
    hide ClippedDepth, LeavesFrom, NodeAt, Run, Counted, TreeDesc.BitsOf, Word;
    var n, base := NodeAt(ms, r - 1), desc.elems;
    var c := ClippedDepth(ms, base, desc.maxLength);
    var S := LeavesFrom(ms, base, r);
    LeafJoins(leaves, ms, base, r);
    ClippedBound(ms, base, desc.maxLength);
    CountOneMore(bl, bl[c(n) := bl[c(n)] + 1], S, c, n, desc.maxLength);
    BitsOneMore(desc, S, freq, c, n);
    BitsOneMore(desc, S, freq, Of(desc.staticLens), n);
    WordAdd(opt0 + desc.BitsOf(S, freq, c), freq[n] * (c(n) + desc.Extra(n)));
    if desc.staticLens != [] {
      WordAdd(stat0 + desc.BitsOf(S, freq, Of(desc.staticLens)), freq[n] * (desc.staticLens[n] + desc.Extra(n)));
    }
  }

  lemma LeafJoins(leaves: set<nat>, ms: seq<Merge>, base: nat, r: nat)
    requires Built(leaves, ms, base) && 0 < r <= 2 * |ms| && NodeAt(ms, r - 1) < base
    ensures NodeAt(ms, r - 1) !in LeavesFrom(ms, base, r)
    ensures LeavesFrom(ms, base, r - 1) == LeavesFrom(ms, base, r) + {NodeAt(ms, r - 1)}
  {
    LeavesFromMembers(leaves, ms, base, r);
  }

  class TreeBuilder {
    const heap: array<nat>       // HEAP_SIZE nodes
    const depth: array<nat>      // depth of each subtree, as an unsigned byte
    const blCount: array<nat>    // number of codes of each length
    var heapLen: nat
    var heapMax: nat
    var optLen: nat              // bits of the current block with optimal trees, 32-bit
    var staticLen: nat           // bits of the current block with static trees, 32-bit

    constructor ()
      ensures Shape() && fresh(heap) && fresh(depth) && fresh(blCount) && optLen == 0 && staticLen == 0
      ensures forall b :: 0 <= b <= MAX_BITS ==> blCount[b] == 0
    {
      var h := new nat[HEAP_SIZE](i => 0);
      var d := new nat[HEAP_SIZE](i => 0);
      var b := new nat[MAX_BITS + 1](i => 0);
      heap, depth, blCount := h, d, b;
      heapLen, heapMax, optLen, staticLen := 0, HEAP_SIZE, 0, 0;
    }

    ghost predicate Shape() {
      && heap.Length == HEAP_SIZE && depth.Length == HEAP_SIZE && blCount.Length == MAX_BITS + 1
      && heap != depth && heap != blCount && depth != blCount
    }

    /** The arrays of this builder and of a tree are different objects. */
    ghost predicate Apart(desc: TreeDesc) {
      desc.fc !in {heap, depth, blCount} && desc.dl !in {heap, depth, blCount}
    }

    method ClearCounts()
      requires Shape()
      modifies blCount
      ensures forall b :: 0 <= b <= MAX_BITS ==> blCount[b] == 0
    {
      for b := 0 to MAX_BITS + 1
        invariant forall j :: 0 <= j < b ==> blCount[j] == 0
      {
        blCount[b] := 0;
      }
    }

    /** Length of the node at heap[h], from that of its father. */
    method VisitNode(desc: TreeDesc, h: nat, ghost leaves: set<nat>, ghost ms: seq<Merge>, ghost opt0: nat,
                     ghost stat0: nat)
      returns (over: bool)
      requires Shape() && Apart(desc) && desc.Shape()
      requires Built(leaves, ms, desc.elems) && ListsTree(heap[..], heapMax, ms, desc.elems) && heapMax < h < HEAP_SIZE
      requires 0 <= desc.maxCode < desc.elems && forall x :: x in leaves ==> x <= desc.maxCode
      requires HEAP_SIZE - h <= 2 * |ms|
      requires Partly(desc.dl[..], ms, desc.elems, ClippedDepth(ms, desc.elems, desc.maxLength), HEAP_SIZE - h)
      requires Tallied(desc, ms, desc.fc[..], blCount[..], optLen, staticLen, opt0, stat0, HEAP_SIZE - h)
      modifies this`optLen, this`staticLen, blCount, desc.dl
      ensures Partly(desc.dl[..], ms, desc.elems, ClippedDepth(ms, desc.elems, desc.maxLength), HEAP_SIZE - h - 1)
      ensures Tallied(desc, ms, desc.fc[..], blCount[..], optLen, staticLen, opt0, stat0, HEAP_SIZE - h - 1)
      ensures over == (ClippedDepth(ms, desc.elems, desc.maxLength)(desc.elems + (HEAP_SIZE - h - 1) / 2)
                == desc.maxLength)
      ensures forall n :: 0 <= n < desc.elems && n !in leaves ==> desc.dl[n] == old(desc.dl[n])
      ensures forall b :: desc.maxLength < b <= MAX_BITS ==> blCount[b] == old(blCount[b])
    {
      hide ClippedDepth, NodeAt, Run, Tallied, Partly, ListsTree, Word, TreeDesc.Extra;
      ghost var base, c, r := desc.elems, ClippedDepth(ms, desc.elems, desc.maxLength), HEAP_SIZE - h;
      var n := heap[h];
      ListedAt(leaves, heap[..], heapMax, ms, base, h);
      PartlyBounds(leaves, ms, base, desc.dl[..], c, r);
      FatherKnown(leaves, ms, base, desc.maxLength, desc.dl[..], r);
      PartlyStep(leaves, ms, base, desc.dl[..], c, r);
      ClippedBound(ms, base, desc.maxLength);
      var bits: nat := desc.dl[desc.dl[n]] + 1;
      over := bits > desc.maxLength;
      if over {
        bits := desc.maxLength;
      }
      ghost var dl0 := desc.dl[..];
      desc.dl[n] := bits;
      assert desc.dl[..] == dl0[n := bits];
      if n > desc.maxCode {
        TalliedInner(desc, ms, desc.fc[..], blCount[..], optLen, staticLen, opt0, stat0, r);
      } else {
        TalliedLeaf(leaves, desc, ms, desc.fc[..], blCount[..], optLen, staticLen, opt0, stat0, r);
        CountLeaf(desc, n, bits);
      }
    }

    method CountLeaf(desc: TreeDesc, n: nat, bits: nat)
      requires Shape() && Apart(desc) && desc.Shape() && n < desc.elems && bits <= MAX_BITS
      modifies this`optLen, this`staticLen, blCount
      ensures blCount[..] == old(blCount[..])[bits := old(blCount[bits]) + 1]
      ensures optLen == Word(old(optLen) + desc.fc[n] * (bits + desc.Extra(n)))
      ensures staticLen == if desc.staticLens == [] then old(staticLen)
                           else Word(old(staticLen) + desc.fc[n] * (desc.staticLens[n] + desc.Extra(n)))
    {
      blCount[bits] := blCount[bits] + 1;
      var f, xbits := desc.fc[n], desc.Extra(n);
      optLen := Word(optLen + f * (bits + xbits));
      if desc.staticLens != [] {
        staticLen := Word(staticLen + f * (desc.staticLens[n] + xbits));
      }
    }

    /** Optimal lengths, clipped at the maximum. */
    method FirstPass(desc: TreeDesc, ghost leaves: set<nat>, ghost ms: seq<Merge>) returns (overflow: nat)
      requires Shape() && Apart(desc) && desc.Shape()
      requires Built(leaves, ms, desc.elems) && ListsTree(heap[..], heapMax, ms, desc.elems)
      requires 0 <= desc.maxCode < desc.elems && forall x :: x in leaves ==> x <= desc.maxCode
      requires HasFathers(desc.dl[..], ms, desc.elems)
      requires optLen < 0x1_0000_0000 && staticLen < 0x1_0000_0000
      modifies this`optLen, this`staticLen, blCount, desc.dl
      ensures overflow == ClippedNodes(ClippedDepth(ms, desc.elems, desc.maxLength), desc.elems, 0, 2 * |ms|,
                desc.maxLength)
      ensures Tallied(desc, ms, desc.fc[..], blCount[..], optLen, staticLen, old(optLen), old(staticLen), 0)
      ensures Partly(desc.dl[..], ms, desc.elems, ClippedDepth(ms, desc.elems, desc.maxLength), 0)
      ensures forall n :: 0 <= n < desc.elems && n !in leaves ==> desc.dl[n] == old(desc.dl[n])
      ensures forall b :: desc.maxLength < b <= MAX_BITS ==> blCount[b] == 0
    {
      hide ClippedDepth, NodeAt, Run, Tallied, Partly, ListsTree, ClippedNodes;
      ghost var base, c := desc.elems, ClippedDepth(ms, desc.elems, desc.maxLength);
      ClearCounts();
      TalliedNothing(desc, ms, desc.fc[..], blCount[..], optLen, staticLen);
      RootFirst(heap[..], heapMax, ms, base);
      ghost var dl0 := desc.dl[..];
      desc.dl[heap[heapMax]] := 0;
      assert desc.dl[..] == dl0[base + |ms| - 1 := 0];
      PartlyStart(leaves, ms, base, dl0, desc.dl[..], c);
      overflow := 0;
      NoneClipped(c, base, 2 * |ms|, desc.maxLength);
      for h := heapMax + 1 to HEAP_SIZE
        invariant Partly(desc.dl[..], ms, base, c, HEAP_SIZE - h)
        invariant Tallied(desc, ms, desc.fc[..], blCount[..], optLen, staticLen, old(optLen), old(staticLen),
                    HEAP_SIZE - h)
        invariant overflow == ClippedNodes(c, base, HEAP_SIZE - h, 2 * |ms|, desc.maxLength)
        invariant forall n :: 0 <= n < base && n !in leaves ==> desc.dl[n] == old(desc.dl[n])
        invariant forall b :: desc.maxLength < b <= MAX_BITS ==> blCount[b] == 0
      {
        ClippedNodesStep(c, base, HEAP_SIZE - h, 2 * |ms|, desc.maxLength);
        var over := VisitNode(desc, h, leaves, ms, old(optLen), old(staticLen));
        if over {
          overflow := overflow + 1;
        }
      }
    }

    /** Move leaves down until the Kraft sum is exact again. */
    method RepairCounts(max: nat, overflowing: nat)
      requires Shape() && 1 <= max <= MAX_BITS && blCount[0] == 0
      requires overflowing > 0 && overflowing % 2 == 0
      requires LevelTotal(blCount[..], max + 1) <= Pow2(max)
      requires LevelKraft(blCount[..], max + 1, max) == Pow2(max) + overflowing / 2
      requires blCount[max] >= overflowing / 2 + 1
      modifies blCount
      ensures LevelTotal(blCount[..], max + 1) == old(LevelTotal(blCount[..], max + 1))
      ensures LevelKraft(blCount[..], max + 1, max) == Pow2(max)
      ensures blCount[0] == 0 && forall b :: max < b <= MAX_BITS ==> blCount[b] == old(blCount[b])
    {
      hide LevelTotal, LevelKraft, Pow2;
      var overflow := overflowing;
      while true
        invariant overflow > 0 && overflow % 2 == 0 && blCount[0] == 0
        invariant LevelTotal(blCount[..], max + 1) == old(LevelTotal(blCount[..], max + 1))
        invariant LevelKraft(blCount[..], max + 1, max) == Pow2(max) + overflow / 2
        invariant blCount[max] >= overflow / 2 + 1
        invariant forall b :: max < b <= MAX_BITS ==> blCount[b] == old(blCount[b])
        decreases overflow
      {
        SearchSucceeds(blCount[..], max);
        ghost var found :| 1 <= found < max && blCount[..][found] > 0;
        var bits := max - 1;
        while blCount[bits] == 0
          invariant found <= bits < max
          decreases bits
        {
          bits := bits - 1;
        }
        RepairRound(blCount[..], bits, max);
        ghost var b0 := blCount[..];
        blCount[bits] := blCount[bits] - 1;
        ghost var b1 := blCount[..];
        assert b1 == b0[bits := b0[bits] - 1];
        blCount[bits + 1] := blCount[bits + 1] + 2;
        ghost var b2 := blCount[..];
        assert b2 == b1[bits + 1 := b1[bits + 1] + 2];
        blCount[max] := blCount[max] - 1;
        assert blCount[..] == b2[max := b2[max] - 1];
        overflow := overflow - 2;
        if overflow <= 0 { break; }
      }
    }

    /** Give the lengths of bl_count to the leaves, longest code to the least frequent leaf. */
    method Reassign(desc: TreeDesc, ghost leaves: set<nat>, ghost ms: seq<Merge>, ghost opt0: int)
      requires Shape() && Apart(desc) && desc.Shape()
      requires Built(leaves, ms, desc.elems) && ListsTree(heap[..], heapMax, ms, desc.elems)
      requires 0 <= desc.maxCode < desc.elems && forall x :: x in leaves ==> x <= desc.maxCode
      requires LevelTotal(blCount[..], desc.maxLength + 1) == |leaves| && blCount[0] == 0
      requires optLen == Word(opt0 + desc.BitsOf(leaves, desc.fc[..], Of(desc.dl[..])))
      modifies this`optLen, desc.dl
      ensures Assigned(blCount[..], desc.dl[..], leaves, {}, 0, 0, desc.maxLength)
      ensures optLen == Word(opt0 + desc.BitsOf(leaves, desc.fc[..], Of(desc.dl[..])))
      ensures forall n :: 0 <= n < desc.elems && n !in leaves ==> desc.dl[n] == old(desc.dl[n])
    {
      hide NodeAt, Run, ListsTree, Word, LeavesFrom, Assigned, TreeDesc.BitsOf, LevelTotal;
      ghost var base, bl := desc.elems, blCount[..];
      var h := HEAP_SIZE;
      AssignedStart(bl, desc.dl[..], leaves, ms, base, desc.maxLength);
      RootFirst(heap[..], heapMax, ms, base);
      var bits: nat := desc.maxLength;
      while bits != 0
        invariant bits <= desc.maxLength && heapMax < h <= HEAP_SIZE
        invariant Assigned(bl, desc.dl[..], leaves, LeavesFrom(ms, base, HEAP_SIZE - h), bits, bl[bits], desc.maxLength)
        invariant optLen == Word(opt0 + desc.BitsOf(leaves, desc.fc[..], Of(desc.dl[..])))
        invariant forall n :: 0 <= n < base && n !in leaves ==> desc.dl[n] == old(desc.dl[n])
      {
        var n := blCount[bits];
        while n != 0
          invariant heapMax < h <= HEAP_SIZE
          invariant Assigned(bl, desc.dl[..], leaves, LeavesFrom(ms, base, HEAP_SIZE - h), bits, n, desc.maxLength)
          invariant optLen == Word(opt0 + desc.BitsOf(leaves, desc.fc[..], Of(desc.dl[..])))
          invariant forall n :: 0 <= n < base && n !in leaves ==> desc.dl[n] == old(desc.dl[n])
          decreases h
        {
          NodesRemain(bl, desc.dl[..], leaves, ms, base, HEAP_SIZE - h, bits, n, desc.maxLength);
          h := h - 1;
          ListedAt(leaves, heap[..], heapMax, ms, base, h);
          var m := heap[h];
          if m > desc.maxCode {
            InnerSkipped(ms, base, HEAP_SIZE - h - 1);
          } else {
            LeafTaken(leaves, ms, base, HEAP_SIZE - h - 1);
            AssignOne(bl, desc.dl[..], leaves, LeavesFrom(ms, base, HEAP_SIZE - h - 1), m, bits, n, desc.maxLength);
            SetLength(desc, m, bits, leaves, opt0);
            n := n - 1;
          }
        }
        NextLevel(bl, desc.dl[..], leaves, LeavesFrom(ms, base, HEAP_SIZE - h), bits, desc.maxLength);
        bits := bits - 1;
      }
      AllAssigned(bl, desc.dl[..], leaves, LeavesFrom(ms, base, HEAP_SIZE - h), desc.maxLength);
    }

    method SetLength(desc: TreeDesc, m: nat, bits: nat, ghost leaves: set<nat>, ghost opt0: int)
      requires Shape() && Apart(desc) && desc.Shape() && m < desc.elems && m in leaves
      requires optLen == Word(opt0 + desc.BitsOf(leaves, desc.fc[..], Of(desc.dl[..])))
      modifies this`optLen, desc.dl
      ensures desc.dl[..] == old(desc.dl[..])[m := bits]
      ensures optLen == Word(opt0 + desc.BitsOf(leaves, desc.fc[..], Of(desc.dl[..])))
    {
      hide Word, TreeDesc.BitsOf, Of;
      BitsUpdate(desc, leaves, desc.fc[..], desc.dl[..], m, bits);
      if desc.dl[m] != bits {
        WordAdd(opt0 + desc.BitsOf(leaves, desc.fc[..], Of(desc.dl[..])), (bits - desc.dl[m]) * desc.fc[m]);
        optLen := Word(optLen + (bits - desc.dl[m]) * desc.fc[m]);
        desc.dl[m] := bits;
        assert desc.dl[..] == old(desc.dl[..])[m := bits];
      } else {
        assert desc.dl[..] == desc.dl[..][m := bits];
      }
    }

    /** Set the code lengths of the tree listed in the heap and count them; add the size of the
        block's symbols to the two totals.  Returns how many nodes were deeper than allowed. */
    method GenBitLen(desc: TreeDesc, ghost leaves: set<nat>, ghost ms: seq<Merge>) returns (overflow: nat)
      requires Shape() && Apart(desc) && desc.Shape()
      requires Built(leaves, ms, desc.elems) && ListsTree(heap[..], heapMax, ms, desc.elems)
      requires 0 <= desc.maxCode < desc.elems && forall x :: x in leaves ==> x <= desc.maxCode
      requires HasFathers(desc.dl[..], ms, desc.elems)
      requires forall n :: 0 <= n < desc.elems && n !in leaves ==> desc.dl[n] == 0
      requires optLen < 0x1_0000_0000 && staticLen < 0x1_0000_0000
      modifies this`optLen, this`staticLen, blCount, desc.dl
      ensures GoodLengths(blCount[..], leaves, desc.dl[..desc.maxCode + 1], desc.maxLength)
      ensures optLen == Word(old(optLen) + desc.BitsOf(leaves, desc.fc[..], Of(desc.dl[..])))
      ensures staticLen == if desc.staticLens == [] then old(staticLen)
                           else Word(old(staticLen) + desc.BitsOf(leaves, desc.fc[..], Of(desc.staticLens)))
      ensures overflow % 2 == 0
      ensures overflow == 0 ==> Depths(ms, desc.elems, Of(desc.dl[..]))
      ensures forall n :: 0 <= n < desc.elems && n !in leaves ==> desc.dl[n] == 0
    {
      hide ClippedDepth, NodeAt, Run, Tallied, Partly, ListsTree, ClippedNodes, Word, TreeDesc.BitsOf, GoodLengths,
        Assigned, Of, Depths, Pow2, LevelTotal, LevelKraft, Counted;
      ghost var base, c := desc.elems, ClippedDepth(ms, desc.elems, desc.maxLength);
      overflow := FirstPass(desc, leaves, ms);
      PassFacts(desc, leaves, ms, desc.fc[..], desc.dl[..], blCount[..], optLen, staticLen, old(optLen),
        old(staticLen), overflow);
      if overflow == 0 {
        UnclippedLengths(leaves, ms, base, desc.maxLength, desc.dl[..], desc.maxCode, blCount[..]);
        return;
      }
      RepairCounts(desc.maxLength, overflow);
      Reassign(desc, leaves, ms, old(optLen));
      RepairedLengths(leaves, desc.maxLength, desc.dl[..], desc.maxCode, blCount[..]);
    }
  }

  // ---------------------------------------------------------------- giving out the lengths

  /** Leaves outside `R` have their final length: all of those longer than `bits`, and all but `n`
      of those of length `bits`. */
  ghost predicate Assigned(bl: seq<nat>, dl: seq<nat>, leaves: set<nat>, R: set<nat>, bits: nat, n: nat, max: nat) {
    && bits <= max < |bl| && n <= bl[bits] && R <= leaves
    && (forall x :: x in leaves ==> x < |dl|)
    && (forall x :: x in leaves - R ==> 1 <= dl[x] <= max)
    && (forall b :: 0 <= b <= max ==>
          CountOf(leaves - R, Of(dl), b) == if b > bits then bl[b] else if b == bits then bl[b] - n else 0)
    && |R| == n + LevelTotal(bl, bits)
  }

  lemma AssignedStart(bl: seq<nat>, dl: seq<nat>, leaves: set<nat>, ms: seq<Merge>, base: nat, max: nat)
    requires Built(leaves, ms, base) && max < |bl| && LevelTotal(bl, max + 1) == |leaves|
    requires forall x :: x in leaves ==> x < |dl|
    ensures Assigned(bl, dl, leaves, LeavesFrom(ms, base, 0), max, bl[max], max)
  {
    LeavesFromStart(leaves, ms, base);
    assert leaves - leaves == {};
    forall b | 0 <= b <= max ensures CountOf({}, Of(dl), b) == 0 { SumZero({}, AtLength(Of(dl), b)); }
  }

  lemma NodesRemain(bl: seq<nat>, dl: seq<nat>, leaves: set<nat>, ms: seq<Merge>, base: nat, r: nat,
                    bits: nat, n: nat, max: nat)
    requires r <= 2 * |ms| && n > 0
    requires Assigned(bl, dl, leaves, LeavesFrom(ms, base, r), bits, n, max)
    ensures r < 2 * |ms| && 1 <= n <= bl[bits]
  {
  }

  lemma InnerSkipped(ms: seq<Merge>, base: nat, r: nat)
    requires r < 2 * |ms| && NodeAt(ms, r) >= base
    ensures LeavesFrom(ms, base, r + 1) == LeavesFrom(ms, base, r)
  {
  }

  lemma LeafTaken(leaves: set<nat>, ms: seq<Merge>, base: nat, r: nat)
    requires Built(leaves, ms, base) && r < 2 * |ms| && NodeAt(ms, r) < base
    ensures NodeAt(ms, r) in LeavesFrom(ms, base, r)
    ensures LeavesFrom(ms, base, r + 1) == LeavesFrom(ms, base, r) - {NodeAt(ms, r)}
  {
    LeafJoins(leaves, ms, base, r + 1);
  }

  lemma AssignOne(bl: seq<nat>, dl: seq<nat>, leaves: set<nat>, R: set<nat>, x: nat, bits: nat, n: nat, max: nat)
    requires Assigned(bl, dl, leaves, R, bits, n, max) && x in R && bits >= 1 && n >= 1
    ensures Assigned(bl, dl[x := bits], leaves, R - {x}, bits, n - 1, max)
  {
    hide CountOf, LevelTotal;
    var S, S', dl' := leaves - R, leaves - (R - {x}), dl[x := bits];
    assert S' == S + {x};
    forall b | 0 <= b <= max
      ensures CountOf(S', Of(dl'), b) == CountOf(S, Of(dl), b) + (if b == bits then 1 else 0)
    {
      CountAssigned(S, dl, x, bits, b);
    }
  }

  lemma CountAssigned(S: set<nat>, dl: seq<nat>, x: nat, bits: nat, b: nat)
    requires x !in S && x < |dl| && forall y :: y in S ==> y < |dl|
    ensures CountOf(S + {x}, Of(dl[x := bits]), b) == CountOf(S, Of(dl), b) + (if b == bits then 1 else 0)
  {
    hide CountOf;
    CountRemove(S + {x}, Of(dl[x := bits]), b, x);
    assert S + {x} - {x} == S;
    CountSame(S, dl, dl[x := bits], b);
  }

  lemma CountSame(S: set<nat>, dl: seq<nat>, dl': seq<nat>, b: nat)
    requires forall x :: x in S ==> x < |dl| && x < |dl'| && dl[x] == dl'[x]
    ensures CountOf(S, Of(dl), b) == CountOf(S, Of(dl'), b)
  {
    SumExt(S, AtLength(Of(dl), b), AtLength(Of(dl'), b));
  }

  lemma NextLevel(bl: seq<nat>, dl: seq<nat>, leaves: set<nat>, R: set<nat>, bits: nat, max: nat)
    requires Assigned(bl, dl, leaves, R, bits, 0, max) && bits >= 1
    ensures Assigned(bl, dl, leaves, R, bits - 1, bl[bits - 1], max)
  {
    hide Sum, AtLength, Of;
  }

  lemma AllAssigned(bl: seq<nat>, dl: seq<nat>, leaves: set<nat>, R: set<nat>, max: nat)
    requires Assigned(bl, dl, leaves, R, 0, 0, max)
    ensures R == {} && Assigned(bl, dl, leaves, {}, 0, 0, max)
  {
  }

  lemma BitsUpdate(desc: TreeDesc, leaves: set<nat>, freq: seq<nat>, dl: seq<nat>, m: nat, bits: nat)
    requires m in leaves && m < |freq| && m < |dl|
    ensures desc.BitsOf(leaves, freq, Of(dl[m := bits]))
            == desc.BitsOf(leaves, freq, Of(dl)) + (bits - dl[m]) * freq[m]
  {
    hide Sum;
    var f, g := BitTerm(Of(freq), Of(dl), desc.ExtraOf()), BitTerm(Of(freq), Of(dl[m := bits]), desc.ExtraOf());
    SumRemove(leaves, f, m);
    SumRemove(leaves, g, m);
    SumExt(leaves - {m}, f, g);
    LengthChange(freq[m], dl[m], bits, desc.Extra(m));
  }

  lemma LengthChange(f: nat, a: nat, b: nat, x: nat)
    ensures f * (b + x) == f * (a + x) + (b - a) * f
  {
  }

  // ---------------------------------------------------------------- what the lengths satisfy

  /** The lengths of exactly the leaves are set, bl_count counts them, and they fill the Kraft sum. */
  ghost predicate GoodLengths(bl: seq<nat>, leaves: set<nat>, lens: seq<nat>, max: nat) {
    && UsedBy(leaves, lens, max) && Counts(bl, lens)
    && Bounded(lens, max) && Kraft(lens, |lens|, max) == Pow2(max)
  }

  lemma LengthsFromCounts(leaves: set<nat>, max: nat, dl: seq<nat>, maxCode: nat, bl: seq<nat>)
    requires 1 <= max <= MAX_BITS && |bl| == MAX_BITS + 1 && bl[0] == 0 && maxCode < |dl|
    requires forall x :: x in leaves ==> x <= maxCode && 1 <= dl[x] <= max
    requires forall n :: 0 <= n <= maxCode && n !in leaves ==> dl[n] == 0
    requires Counted(bl, leaves, Of(dl), max) && LevelKraft(bl, max + 1, max) == Pow2(max)
    requires forall b :: max < b <= MAX_BITS ==> bl[b] == 0
    ensures GoodLengths(bl, leaves, dl[..maxCode + 1], max)
  {
    hide Sum, LevelKraft, LevelTotal, Pow2, CountLen, Kraft, KraftOf, AtLength;
    var lens := dl[..maxCode + 1];
    forall b | 1 <= b <= MAX_BITS ensures bl[b] == CountLen(lens, |lens|, b) {
      LensCounted(leaves, lens, b, max);
      CountSame(leaves, dl, lens, b);
      if b > max { NoneAt(leaves, lens, b); }
    }
    LensKraft(leaves, lens, max);
    CountedLevels(bl, leaves, Of(dl), max);
    KraftSame(leaves, dl, lens, max);
  }

  lemma NoneAt(leaves: set<nat>, lens: seq<nat>, b: nat)
    requires forall x :: x in leaves ==> x < |lens| && lens[x] != b
    ensures CountOf(leaves, Of(lens), b) == 0
  {
    SumZero(leaves, AtLength(Of(lens), b));
  }

  lemma KraftSame(S: set<nat>, dl: seq<nat>, dl': seq<nat>, max: nat)
    requires forall x :: x in S ==> x < |dl| && x < |dl'| && dl[x] == dl'[x]
    ensures KraftOf(S, Of(dl), max) == KraftOf(S, Of(dl'), max)
  {
    SumExt(S, KraftTerm(Of(dl), max), KraftTerm(Of(dl'), max));
  }

  lemma RepairedLengths(leaves: set<nat>, max: nat, dl: seq<nat>, maxCode: nat, bl: seq<nat>)
    requires 1 <= max <= MAX_BITS && |bl| == MAX_BITS + 1 && bl[0] == 0 && maxCode < |dl|
    requires forall x :: x in leaves ==> x <= maxCode
    requires forall n :: 0 <= n <= maxCode && n !in leaves ==> dl[n] == 0
    requires Assigned(bl, dl, leaves, {}, 0, 0, max) && LevelKraft(bl, max + 1, max) == Pow2(max)
    requires forall b :: max < b <= MAX_BITS ==> bl[b] == 0
    ensures GoodLengths(bl, leaves, dl[..maxCode + 1], max)
  {
    hide Sum, LevelKraft, LevelTotal, Pow2, Of, GoodLengths;
    assert leaves - {} == leaves;
    LengthsFromCounts(leaves, max, dl, maxCode, bl);
  }

  /** What the first pass establishes about counts, totals and overflow. */
  lemma PassFacts(desc: TreeDesc, leaves: set<nat>, ms: seq<Merge>, freq: seq<nat>, dl: seq<nat>, bl: seq<nat>,
                  opt: nat, stat: nat, opt0: nat, stat0: nat, overflow: nat)
    requires Built(leaves, ms, desc.elems) && desc.Shape() && desc.elems <= |dl|
    requires Tallied(desc, ms, freq, bl, opt, stat, opt0, stat0, 0)
    requires Partly(dl, ms, desc.elems, ClippedDepth(ms, desc.elems, desc.maxLength), 0)
    requires overflow == ClippedNodes(ClippedDepth(ms, desc.elems, desc.maxLength), desc.elems, 0, 2 * |ms|,
               desc.maxLength)
    ensures overflow % 2 == 0
    ensures opt == Word(opt0 + desc.BitsOf(leaves, freq, Of(dl)))
    ensures stat == if desc.staticLens == [] then stat0
              else Word(stat0 + desc.BitsOf(leaves, freq, Of(desc.staticLens)))
    ensures |bl| > desc.maxLength && bl[0] == 0
    ensures Counted(bl, leaves, Of(dl), desc.maxLength)
    ensures LevelTotal(bl, desc.maxLength + 1) == |leaves| <= Pow2(desc.maxLength)
    ensures LevelKraft(bl, desc.maxLength + 1, desc.maxLength) == Pow2(desc.maxLength) + overflow / 2
    ensures overflow > 0 ==> bl[desc.maxLength] >= overflow / 2 + 1
    ensures forall x :: x in leaves ==> 1 <= dl[x] <= desc.maxLength
    ensures overflow == 0 ==>
              Full(ClippedDepth(ms, desc.elems, desc.maxLength), desc.elems, 0, |ms|, desc.maxLength) == 0
  {
    hide Sum, ClippedDepth, NodeAt, Run, Word, TreeDesc.BitsOf, Pow2, LevelTotal, LevelKraft, AtLength, Of, KraftOf,
      ClippedNodes, Partly, Full, CountOf, Tallied;
    var base, max := desc.elems, desc.maxLength;
    var c := ClippedDepth(ms, base, max);
    TalliedAll(desc, leaves, ms, freq, bl, opt, stat, opt0, stat0);
    ClippedInPairs(c, base, 0, |ms|, max);
    LeafLengths(leaves, ms, base, max, dl);
    SameLengths(desc, leaves, freq, c, dl, bl);
    ClippedLevels(leaves, ms, base, max, bl);
    FewLeaves(leaves, ms, base);
    NoZeroCount(leaves, c);
  }

  lemma TalliedAll(desc: TreeDesc, leaves: set<nat>, ms: seq<Merge>, freq: seq<nat>, bl: seq<nat>,
                   opt: nat, stat: nat, opt0: nat, stat0: nat)
    requires Built(leaves, ms, desc.elems) && Tallied(desc, ms, freq, bl, opt, stat, opt0, stat0, 0)
    ensures var c := ClippedDepth(ms, desc.elems, desc.maxLength);
            && Counted(bl, leaves, c, desc.maxLength)
            && opt == Word(opt0 + desc.BitsOf(leaves, freq, c))
            && stat == (if desc.staticLens == [] then stat0
              else Word(stat0 + desc.BitsOf(leaves, freq, Of(desc.staticLens))))
  {
    hide ClippedDepth, Run, Word, TreeDesc.BitsOf, Counted;
    LeavesFromStart(leaves, ms, desc.elems);
  }

  lemma ClippedLevels(leaves: set<nat>, ms: seq<Merge>, base: nat, max: nat, bl: seq<nat>)
    requires Built(leaves, ms, base) && max >= 1 && Counted(bl, leaves, ClippedDepth(ms, base, max), max)
    ensures var c := ClippedDepth(ms, base, max);
            var f := Full(c, base, 0, |ms|, max);
            && (forall x: nat :: c(x) <= max)
            && LevelTotal(bl, max + 1) == |leaves|
            && LevelKraft(bl, max + 1, max) == Pow2(max) + f
            && (f > 0 ==> bl[max] >= f + 1)
  {
    hide Sum, ClippedDepth, Run, Pow2, LevelTotal, LevelKraft, Full, CountOf, KraftOf;
    var c := ClippedDepth(ms, base, max);
    ClippedDepthIs(leaves, ms, base, max);
    ClippedBound(ms, base, max);
    ClippedKraft(leaves, ms, base, max, c, 0);
    ManyAtMaxLeaves(leaves, ms, base, max, c);
    CountedLevels(bl, leaves, c, max);
  }

  lemma ManyAtMaxLeaves(leaves: set<nat>, ms: seq<Merge>, base: nat, max: nat, c: nat -> nat)
    requires Built(leaves, ms, base) && Clipped(ms, base, max, c) && max >= 1
    requires forall x: nat :: c(x) <= max
    ensures var f := Full(c, base, 0, |ms|, max); f > 0 ==> CountOf(leaves, c, max) >= f + 1
  {
    ManyAtMax(leaves, ms, base, max, c, 0);
  }

  lemma LeafLengths(leaves: set<nat>, ms: seq<Merge>, base: nat, max: nat, dl: seq<nat>)
    requires Built(leaves, ms, base) && Partly(dl, ms, base, ClippedDepth(ms, base, max), 0) && max >= 1
    ensures var c := ClippedDepth(ms, base, max);
            forall x :: x in leaves ==> x < |dl| && dl[x] == c(x) && 1 <= c(x)
  {
    hide ClippedDepth, NodeAt, Run;
    var c := ClippedDepth(ms, base, max);
    forall x | x in leaves ensures x < |dl| && dl[x] == c(x) && 1 <= c(x) {
      assert x != base + |ms| - 1 by { LeafBelow(leaves, ms, base, x); }
      var q := Listed(leaves, ms, base, x, 0);
      ClippedAt(leaves, ms, base, max, q);
    }
  }

  lemma LeafBelow(leaves: set<nat>, ms: seq<Merge>, base: nat, x: nat)
    requires Built(leaves, ms, base) && x in leaves
    ensures x < base
  {
  }

  lemma SameLengths(desc: TreeDesc, leaves: set<nat>, freq: seq<nat>, c: nat -> nat, dl: seq<nat>, bl: seq<nat>)
    requires forall x :: x in leaves ==> x < |dl| && dl[x] == c(x)
    requires Counted(bl, leaves, c, desc.maxLength)
    ensures Counted(bl, leaves, Of(dl), desc.maxLength)
    ensures desc.BitsOf(leaves, freq, c) == desc.BitsOf(leaves, freq, Of(dl))
  {
    hide Sum;
    SumExt(leaves, BitTerm(Of(freq), c, desc.ExtraOf()), BitTerm(Of(freq), Of(dl), desc.ExtraOf()));
    forall b | 0 <= b <= desc.maxLength ensures CountOf(leaves, c, b) == CountOf(leaves, Of(dl), b) {
      SumExt(leaves, AtLength(c, b), AtLength(Of(dl), b));
    }
  }

  lemma {:induction false} SubsetSize(S: set<nat>, n: nat)
    requires forall x :: x in S ==> x < n
    ensures |S| <= n
  {
    if n > 0 {
      SubsetSize(S - {n - 1}, n - 1);
      assert n - 1 in S ==> |S - {n - 1}| == |S| - 1;
      assert n - 1 !in S ==> S - {n - 1} == S;
    } else {
      assert S == {};
    }
  }

  lemma FewLeaves(leaves: set<nat>, ms: seq<Merge>, base: nat)
    requires Built(leaves, ms, base)
    ensures |leaves| <= base
  {
    SubsetSize(leaves, base);
  }

  lemma NoZeroCount(leaves: set<nat>, c: nat -> nat)
    requires forall x :: x in leaves ==> c(x) >= 1
    ensures CountOf(leaves, c, 0) == 0
  {
    SumZero(leaves, AtLength(c, 0));
  }

  lemma UnclippedLengths(leaves: set<nat>, ms: seq<Merge>, base: nat, max: nat, dl: seq<nat>, maxCode: nat,
                         bl: seq<nat>)
    requires Built(leaves, ms, base) && Partly(dl, ms, base, ClippedDepth(ms, base, max), 0)
    requires Full(ClippedDepth(ms, base, max), base, 0, |ms|, max) == 0
    requires 1 <= max <= MAX_BITS && |bl| == MAX_BITS + 1 && bl[0] == 0 && maxCode < base <= |dl|
    requires forall x :: x in leaves ==> x <= maxCode && 1 <= dl[x] <= max
    requires forall n :: 0 <= n < base && n !in leaves ==> dl[n] == 0
    requires Counted(bl, leaves, Of(dl), max) && LevelKraft(bl, max + 1, max) == Pow2(max)
    requires forall b :: max < b <= MAX_BITS ==> bl[b] == 0
    ensures GoodLengths(bl, leaves, dl[..maxCode + 1], max)
    ensures Depths(ms, base, Of(dl))
  {
    hide ClippedDepth, Run, Counted, LevelKraft, Pow2, GoodLengths, Full, Clipped;
    LengthsFromCounts(leaves, max, dl, maxCode, bl);
    ClippedDepthIs(leaves, ms, base, max);
    ClippedBound(ms, base, max);
    var c := ClippedDepth(ms, base, max);
    UnclippedDepths(ms, base, max, c);
    DepthsFromList(leaves, ms, base, dl, c);
  }

  lemma DepthsFromList(leaves: set<nat>, ms: seq<Merge>, base: nat, dl: seq<nat>, c: nat -> nat)
    requires Built(leaves, ms, base) && Partly(dl, ms, base, c, 0) && Depths(ms, base, c)
    ensures Depths(ms, base, Of(dl))
  {
    forall i | 0 <= i < |ms|
      ensures Of(dl)(ms[i].small) == Of(dl)(base + i) + 1 && Of(dl)(ms[i].next) == Of(dl)(base + i) + 1
    {
      assert NodeAt(ms, 2 * i) == ms[i].small && NodeAt(ms, 2 * i + 1) == ms[i].next;
      assert dl[base + i] == c(base + i) by {
        if i < |ms| - 1 { var q := FatherAbove(leaves, ms, base, i); }
      }
    }
  }

  lemma PartlyBounds(leaves: set<nat>, ms: seq<Merge>, base: nat, dl: seq<nat>, c: nat -> nat, r: nat)
    requires Partly(dl, ms, base, c, r)
    ensures base + |ms| <= |dl| && r <= 2 * |ms|
  {
  }

  lemma RootFirst(heap: seq<nat>, heapMax: nat, ms: seq<Merge>, base: nat)
    requires ListsTree(heap, heapMax, ms, base)
    ensures |ms| >= 1 && heapMax + 2 * |ms| + 1 == HEAP_SIZE == |heap| && heap[heapMax] == base + |ms| - 1
  {
  }

  lemma NoneClipped(c: nat -> nat, base: nat, r: nat, max: nat)
    ensures ClippedNodes(c, base, r, r, max) == 0
  {
  }

  lemma ClippedNodesStep(c: nat -> nat, base: nat, r: nat, end: nat, max: nat)
    requires 0 < r <= end
    ensures ClippedNodes(c, base, r - 1, end, max)
            == ClippedNodes(c, base, r, end, max) + (if c(base + (r - 1) / 2) == max then 1 else 0)
  {
  }

  lemma ListedAt(leaves: set<nat>, heap: seq<nat>, heapMax: nat, ms: seq<Merge>, base: nat, h: nat)
    requires ListsTree(heap, heapMax, ms, base) && Run(leaves, ms, base) && heapMax < h < HEAP_SIZE
    ensures heap[h] == NodeAt(ms, HEAP_SIZE - h - 1)
    ensures heap[h] < base + |ms| && (heap[h] < base ==> heap[h] in leaves)
  {
    hide NodeAt, Run;
    var q := HEAP_SIZE - 1 - h;
    assert heap[HEAP_SIZE - 1 - q] == NodeAt(ms, q);
    ListedActive(leaves, ms, base, q);
  }

  lemma PartlyStart(leaves: set<nat>, ms: seq<Merge>, base: nat, dl0: seq<nat>, dl: seq<nat>, c: nat -> nat)
    requires Built(leaves, ms, base) && HasFathers(dl0, ms, base) && dl == dl0[base + |ms| - 1 := 0]
    ensures Partly(dl, ms, base, c, 2 * |ms|)
  {
    hide Run, NodeAt;
    NewNodeUnlisted(leaves, ms, base, |ms| - 1);
  }
}
