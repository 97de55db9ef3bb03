/** build_tree: the Huffman tree of a table of frequencies, its code lengths and its codes. */
module TreeBuilding {
  import opened Bits
  import opened Sums
  import opened Heaps
  import opened Huffman
  import opened TreeShape
  import opened Canonical
  import opened Levels
  import opened BitLengths

  // ---------------------------------------------------------------- the heap as a set of nodes

  /** heap[1..len] holds each node of `S` once. */
  ghost predicate Holds(h: seq<nat>, len: nat, S: set<nat>) {
    len < |h| && multiset(h[1..len + 1]) == multiset(S)
  }

  lemma Cancel(a: multiset<nat>, x: multiset<nat>, y: multiset<nat>)
    requires a + x == a + y
    ensures x == y
  {
    forall e: nat ensures x[e] == y[e] { assert (a + x)[e] == (a + y)[e]; }
  }

  lemma HoldsMembers(h: seq<nat>, len: nat, S: set<nat>)
    requires Holds(h, len, S)
    ensures |S| == len
    ensures forall i :: 1 <= i <= len ==> h[i] in S
    ensures forall x :: x in S ==> exists i :: 1 <= i <= len && h[i] == x
  {
    var s := h[1..len + 1];
    assert |multiset(s)| == |multiset(S)| == |S|;
    forall i | 1 <= i <= len ensures h[i] in S {
      assert s[i - 1] in multiset(s);
    }
    forall x | x in S ensures exists i :: 1 <= i <= len && h[i] == x {
      assert x in multiset(s);
      var j :| 0 <= j < |s| && s[j] == x;
      assert h[j + 1] == x;
    }
  }

  lemma HoldsAppend(h: seq<nat>, h': seq<nat>, len: nat, S: set<nat>, x: nat)
    requires Holds(h, len, S) && x !in S && |h'| == |h| && len + 1 < |h|
    requires h'[len + 1] == x && forall i :: 0 <= i <= len ==> h'[i] == h[i]
    ensures Holds(h', len + 1, S + {x})
  {
    assert h'[1..len + 2] == h[1..len + 1] + [x];
  }

  /** Taking the root away: the last node moves to the root slot. */
  lemma HoldsRemove(h: seq<nat>, len: nat, S: set<nat>)
    requires Holds(h, len, S) && len >= 2
    ensures h[1] in S && Holds(h[1 := h[len]], len - 1, S - {h[1]})
  {
    HoldsMembers(h, len, S);
    var t := h[1 := h[len]];
    var mid := h[2..len];
    assert h[1..len + 1] == [h[1]] + mid + [h[len]];
    assert t[1..len] == [h[len]] + mid;
    assert multiset(h[1..len + 1]) == multiset{h[1]} + multiset(t[1..len]);
    assert multiset(S) == multiset{h[1]} + multiset(S - {h[1]});
    Cancel(multiset{h[1]}, multiset(t[1..len]), multiset(S - {h[1]}));
  }

  lemma HoldsReplace(h: seq<nat>, len: nat, S: set<nat>, x: nat)
    requires Holds(h, len, S) && len >= 1 && x !in S
    ensures h[1] in S && Holds(h[1 := x], len, S - {h[1]} + {x})
  {
    HoldsMembers(h, len, S);
    var t := h[1 := x];
    var rest := h[2..len + 1];
    assert h[1..len + 1] == [h[1]] + rest;
    assert t[1..len + 1] == [x] + rest;
    assert multiset(S) == multiset{h[1]} + multiset(S - {h[1]});
    Cancel(multiset{h[1]}, multiset(rest), multiset(S - {h[1]}));
    assert multiset(S - {h[1]} + {x}) == multiset{x} + multiset(S - {h[1]});
  }

  /** Only heap[1..len] matters, and only up to rearrangement. */
  lemma HoldsPermuted(h: seq<nat>, t: seq<nat>, len: nat, S: set<nat>)
    requires Holds(h, len, S) && |t| == |h| && multiset(t) == multiset(h)
    requires forall i :: 0 <= i < 1 || len < i < |h| ==> t[i] == h[i]
    ensures Holds(t, len, S)
  {
    assert h == h[..1] + h[1..len + 1] + h[len + 1..];
    assert t == t[..1] + t[1..len + 1] + t[len + 1..];
    assert t[..1] == h[..1] && t[len + 1..] == h[len + 1..];
    var outside := multiset(h[..1]) + multiset(h[len + 1..]);
    assert multiset(h) == outside + multiset(h[1..len + 1]);
    assert multiset(t) == outside + multiset(t[1..len + 1]);
    Cancel(outside, multiset(h[1..len + 1]), multiset(t[1..len + 1]));
  }

  lemma HoldsFrame(h: seq<nat>, t: seq<nat>, len: nat, S: set<nat>)
    requires Holds(h, len, S) && |t| == |h| && forall i :: 1 <= i <= len ==> t[i] == h[i]
    ensures Holds(t, len, S)
  {
    assert t[1..len + 1] == h[1..len + 1];
  }

  // ---------------------------------------------------------------- heap order

  /** A heap over nodes whose frequency and depth did not change stays a heap. */
  lemma HeapFrame(h: seq<nat>, t: seq<nat>, len: nat, f: seq<nat>, f': seq<nat>, d: seq<nat>, d': seq<nat>, k: nat)
    requires NodesOk(h, len, f, d) && HeapFrom(h, len, f, d, k) && k >= 1
    requires |t| == |h| && |f'| == |f| && |d'| == |d|
    requires forall i :: k <= i <= len ==> t[i] == h[i]
    requires forall i :: k <= i <= len ==> f'[h[i]] == f[h[i]] && d'[h[i]] == d[h[i]]
    requires forall i :: 1 <= i <= len ==> t[i] < |f| && t[i] < |d|
    ensures NodesOk(t, len, f', d') && HeapFrom(t, len, f', d', k)
  {
    forall p | k <= p <= len ensures SlotOk(t, len, f', d', p) {
      assert SlotOk(h, len, f, d, p);
    }
  }

  lemma HeapShorter(h: seq<nat>, t: seq<nat>, len: nat, f: seq<nat>, d: seq<nat>)
    requires len >= 2 && NodesOk(h, len, f, d) && HeapFrom(h, len, f, d, 1) && t == h[1 := h[len]]
    ensures NodesOk(t, len - 1, f, d) && HeapFrom(t, len - 1, f, d, 2)
  {
    var less := len - 1;
    forall p | 2 <= p <= less ensures SlotOk(t, less, f, d, p) {
      assert SlotOk(h, len, f, d, p);
    }
  }

  lemma LeastOf(h: seq<nat>, len: nat, f: seq<nat>, d: seq<nat>, S: set<nat>)
    requires NodesOk(h, len, f, d) && HeapFrom(h, len, f, d, 1) && Holds(h, len, S) && len >= 1
    ensures h[1] in S && forall x :: x in S ==> x < |f| && f[h[1]] <= f[x]
  {
    HoldsMembers(h, len, S);
    forall x | x in S ensures x < |f| && f[h[1]] <= f[x] {
      var i :| 1 <= i <= len && h[i] == x;
      RootIsLeast(h, len, f, d, i);
    }
  }

  // ---------------------------------------------------------------- runs that grow

  lemma {:induction false} ActivePrefix(leaves: set<nat>, ms: seq<Merge>, m: Merge, base: nat, i: nat)
    requires i <= |ms|
    ensures Active(leaves, ms + [m], base, i) == Active(leaves, ms, base, i)
  {
    if i > 0 { ActivePrefix(leaves, ms, m, base, i - 1); }
  }

  /** Everything the merge loop keeps about the tree built so far. */
  ghost predicate Growing(leaves: set<nat>, ms: seq<Merge>, base: nat, f: seq<nat>) {
    && base + |ms| <= |f|
    && Run(leaves, ms, base) && Weighted(ms, base, Of(f)) && Greedy(leaves, ms, base, Of(f))
  }

  lemma GrowRun(leaves: set<nat>, ms: seq<Merge>, base: nat, m: Merge)
    requires Run(leaves, ms, base)
    requires var S := Active(leaves, ms, base, |ms|); m.small in S && m.next in S && m.small != m.next
    ensures Run(leaves, ms + [m], base)
  {
    hide Active;
    forall i | 0 <= i < |ms + [m]| ensures MergeOk(leaves, ms + [m], base, i) {
      ActivePrefix(leaves, ms, m, base, i);
      if i < |ms| { assert MergeOk(leaves, ms, base, i); }
    }
  }

  lemma GrowWeighted(leaves: set<nat>, ms: seq<Merge>, base: nat, f: seq<nat>, f': seq<nat>, m: Merge)
    requires Run(leaves, ms + [m], base) && Weighted(ms, base, Of(f)) && base + |ms| < |f|
    requires m.small < |f| && m.next < |f| && f' == f[base + |ms| := f[m.small] + f[m.next]]
    ensures Weighted(ms + [m], base, Of(f'))
  {
    hide Run;
    var ns := ms + [m];
    forall i | 0 <= i < |ns| ensures Of(f')(base + i) == Of(f')(ns[i].small) + Of(f')(ns[i].next) {
      MergedBelow(leaves, ns, base, i);
      if i < |ms| { assert Of(f)(base + i) == Of(f)(ms[i].small) + Of(f)(ms[i].next); }
    }
  }

  lemma MergedBelow(leaves: set<nat>, ms: seq<Merge>, base: nat, i: nat)
    requires Run(leaves, ms, base) && i < |ms|
    ensures ms[i].small < base + i && ms[i].next < base + i
    ensures forall x :: x in Active(leaves, ms, base, i) ==> x < base + i
  {
    assert MergeOk(leaves, ms, base, i);
    ActiveBounds(leaves, ms, base, i);
  }

  lemma GrowGreedy(leaves: set<nat>, ms: seq<Merge>, base: nat, f: seq<nat>, f': seq<nat>, m: Merge, v: nat)
    requires Run(leaves, ms + [m], base) && Run(leaves, ms, base)
    requires Greedy(leaves, ms, base, Of(f)) && base + |ms| < |f|
    requires f' == f[base + |ms| := v]
    requires m.small < |f| && m.next < |f| && f[m.small] <= f[m.next]
    requires forall x :: x in Active(leaves, ms, base, |ms|) && x != m.small ==> x < |f| && f[m.next] <= f[x]
    ensures Greedy(leaves, ms + [m], base, Of(f'))
  {
    hide Run, Active;
    var ns := ms + [m];
    forall i | 0 <= i < |ns| ensures TakesLeast(leaves, ns, base, Of(f'), i) {
      ActivePrefix(leaves, ms, m, base, i);
      MergedBelow(leaves, ns, base, i);
      if i < |ms| { assert TakesLeast(leaves, ms, base, Of(f), i); }
    }
  }

  /** The weights of the active nodes always add up to the weights of the leaves. */
  lemma {:induction false} TotalKept(leaves: set<nat>, ms: seq<Merge>, base: nat, w: nat -> nat, i: nat)
    requires Run(leaves, ms, base) && Weighted(ms, base, w) && i <= |ms|
    ensures Sum(Active(leaves, ms, base, i), Itself(w)) == Sum(leaves, Itself(w))
  {
    hide Sum, Run;
    if i > 0 {
      TotalKept(leaves, ms, base, w, i - 1);
      StepSum(leaves, ms, base, i - 1, Itself(w));
    }
  }

  lemma TwoOfTotal(S: set<nat>, w: nat -> nat, n: nat, m: nat)
    requires n in S && m in S && n != m
    ensures w(n) + w(m) <= Sum(S, Itself(w))
  {
    SumRemove(S, Itself(w), n);
    SumRemove(S - {n}, Itself(w), m);
    SumNonneg(S - {n} - {m}, Itself(w));
  }

  // ---------------------------------------------------------------- the leaves

  /** Symbols below `k` with a non zero frequency. */
  ghost function Used(f: seq<nat>, k: nat): set<nat>
    requires k <= |f|
  {
    if k == 0 then {} else Used(f, k - 1) + (if f[k - 1] != 0 then {k - 1} else {})
  }

  lemma {:induction false} UsedMembers(f: seq<nat>, k: nat)
    requires k <= |f|
    ensures forall x: nat :: x in Used(f, k) <==> x < k && f[x] != 0
    ensures |Used(f, k)| <= k
  {
    if k > 0 { UsedMembers(f, k - 1); }
  }

  /** Append a node of depth 0 to the heap array. */
  method PushLeaf(tb: TreeBuilder, n: nat, ghost S: set<nat>)
    requires tb.Shape() && Holds(tb.heap[..], tb.heapLen, S) && n !in S && tb.heapLen + 1 < HEAP_SIZE && n < HEAP_SIZE
    modifies tb`heapLen, tb.heap, tb.depth
    ensures Holds(tb.heap[..], tb.heapLen, S + {n}) && tb.heapLen == old(tb.heapLen) + 1
  {
    hide Holds;
    ghost var h := tb.heap[..];
    tb.heapLen := tb.heapLen + 1;
    tb.heap[tb.heapLen] := n;
    HoldsAppend(h, tb.heap[..], tb.heapLen - 1, S, n);
    tb.depth[n] := 0;
  }

  method CollectLeaves(tb: TreeBuilder, desc: TreeDesc) returns (maxCode: int)
    requires tb.Shape() && tb.Apart(desc) && desc.Shape()
    modifies tb`heapLen, tb`heapMax, tb.heap, tb.depth, desc.dl
    ensures tb.heapMax == HEAP_SIZE
    ensures Holds(tb.heap[..], tb.heapLen, Used(desc.fc[..], desc.elems))
    ensures forall n :: 0 <= n < desc.elems && desc.fc[n] == 0 ==> desc.dl[n] == 0
    ensures -1 <= maxCode < desc.elems && forall n :: maxCode < n < desc.elems ==> desc.fc[n] == 0
    ensures maxCode >= 0 ==> desc.fc[maxCode] != 0
  {
    hide Used, Pow2, Holds;
    maxCode := -1;
    tb.heapLen := 0;
    tb.heapMax := HEAP_SIZE;
    NoneUsed(desc.fc[..], tb.heap[..]);
    for n := 0 to desc.elems
      invariant tb.heapMax == HEAP_SIZE
      invariant Holds(tb.heap[..], tb.heapLen, Used(desc.fc[..], n)) && tb.heapLen <= n
      invariant forall j :: 0 <= j < n && desc.fc[j] == 0 ==> desc.dl[j] == 0
      invariant -1 <= maxCode < n && forall j :: maxCode < j < n ==> desc.fc[j] == 0
      invariant maxCode >= 0 ==> desc.fc[maxCode] != 0
    {
      UsedStep(desc.fc[..], n);
      if desc.fc[n] != 0 {
        PushLeaf(tb, n, Used(desc.fc[..], n));
        maxCode := n;
      } else {
        desc.dl[n] := 0;
      }
    }
  }

  lemma NoneUsed(f: seq<nat>, h: seq<nat>)
    requires |h| > 0
    ensures Holds(h, 0, Used(f, 0))
  {
    assert h[1..1] == [];
  }

  lemma UsedStep(f: seq<nat>, n: nat)
    requires n < |f|
    ensures n !in Used(f, n)
    ensures Used(f, n + 1) == if f[n] != 0 then Used(f, n) + {n} else Used(f, n)
  {
    UsedMembers(f, n);
  }

  /** The frequencies after single codes have been topped up to two. */
  ghost predicate ToppedUp(f0: seq<nat>, f: seq<nat>, elems: nat, leaves: set<nat>) {
    && |f| == |f0| && elems <= |f|
    && (forall x :: x in leaves ==> x < elems)
    && (forall n :: 0 <= n < elems ==> f[n] == (if n in leaves && f0[n] == 0 then 1 else f0[n]))
    && (forall n :: 0 <= n < elems ==> (n in leaves <==> f[n] != 0))
    && (forall n :: elems <= n < |f| ==> f[n] == f0[n])
    && (forall n :: 0 <= n < elems && n in leaves && f0[n] == 0 ==> n <= 2)
  }

  lemma ToppedStart(f: seq<nat>, elems: nat)
    requires elems <= |f|
    ensures ToppedUp(f, f, elems, Used(f, elems))
  {
    UsedMembers(f, elems);
  }

  lemma ToppedStep(f0: seq<nat>, f: seq<nat>, elems: nat, leaves: set<nat>, x: nat)
    requires ToppedUp(f0, f, elems, leaves) && x < elems && x !in leaves && x <= 2
    ensures ToppedUp(f0, f[x := 1], elems, leaves + {x})
  {
  }

  /** What the forced codes were charged in advance. */
  ghost predicate Charged(desc: TreeDesc, used: set<nat>, leaves: set<nat>, opt: nat, stat: nat, opt0: nat,
                          stat0: nat) {
    && used <= leaves
    && opt == Word(opt0 - |leaves - used|)
    && stat == if desc.staticLens == [] then stat0 else Word(stat0 - Sum(leaves - used, Itself(Of(desc.staticLens))))
  }

  lemma ChargedNothing(desc: TreeDesc, used: set<nat>, opt: nat, stat: nat)
    requires opt < 0x1_0000_0000 && stat < 0x1_0000_0000
    ensures Charged(desc, used, used, opt, stat, opt, stat)
  {
    assert used - used == {};
    SumZero({}, Itself(Of(desc.staticLens)));
  }

  lemma LengthAt(lens: seq<nat>, x: nat)
    ensures x < |lens| ==> Itself(Of(lens))(x) == lens[x]
  {
  }

  lemma ChargeOne(desc: TreeDesc, used: set<nat>, leaves: set<nat>, x: nat, opt: nat, stat: nat, opt0: nat, stat0: nat)
    requires Charged(desc, used, leaves, opt, stat, opt0, stat0) && x !in leaves
    requires desc.staticLens != [] ==> x < |desc.staticLens|
    ensures Charged(desc, used, leaves + {x}, Word(opt - 1),
                    if desc.staticLens == [] then stat else Word(stat - desc.staticLens[x]), opt0, stat0)
  {
    hide Sum, Word, Itself, Of;
    var g := Itself(Of(desc.staticLens));
    assert leaves + {x} - used == (leaves - used) + {x};
    assert x < |desc.staticLens| ==> g(x) == desc.staticLens[x] by { LengthAt(desc.staticLens, x); }
    SumAdd(leaves - used, g, x);
    WordAdd(opt0 - |leaves - used|, -1);
    if desc.staticLens != [] {
      var charge: int := desc.staticLens[x];
      WordAdd(stat0 - Sum(leaves - used, g), -charge);
    }
  }

  /** Force at least two codes. */
  method ForceTwo(tb: TreeBuilder, desc: TreeDesc, used: int) returns (maxCode: int, ghost leaves: set<nat>)
    requires tb.Shape() && tb.Apart(desc) && desc.Shape()
    requires tb.optLen < 0x1_0000_0000 && tb.staticLen < 0x1_0000_0000
    requires Holds(tb.heap[..], tb.heapLen, Used(desc.fc[..], desc.elems))
    requires -1 <= used < desc.elems && forall n :: used < n < desc.elems ==> desc.fc[n] == 0
    requires used >= 0 ==> desc.fc[used] != 0
    modifies tb`heapLen, tb`optLen, tb`staticLen, tb.heap, tb.depth, desc.fc
    ensures Used(old(desc.fc[..]), desc.elems) <= leaves
    ensures |Used(old(desc.fc[..]), desc.elems)| >= 2 ==> leaves == Used(old(desc.fc[..]), desc.elems)
    ensures |Used(old(desc.fc[..]), desc.elems)| < 2 ==> |leaves| == 2
    ensures ToppedUp(old(desc.fc[..]), desc.fc[..], desc.elems, leaves)
    ensures Holds(tb.heap[..], tb.heapLen, leaves) && tb.heapLen >= 2
    ensures Charged(desc, Used(old(desc.fc[..]), desc.elems), leaves, tb.optLen, tb.staticLen, old(tb.optLen),
              old(tb.staticLen))
    ensures 0 <= maxCode < desc.elems && maxCode in leaves && forall x :: x in leaves ==> x <= maxCode
  {
    hide Used, Pow2, Charged, ToppedUp, Word, Holds;
    ghost var first := Used(desc.fc[..], desc.elems);
    leaves := first;
    maxCode := used;
    UsedMembers(desc.fc[..], desc.elems);
    ToppedStart(desc.fc[..], desc.elems);
    ChargedNothing(desc, first, tb.optLen, tb.staticLen);
    HoldsMembers(tb.heap[..], tb.heapLen, leaves);
    while tb.heapLen < 2
      invariant first <= leaves && |leaves| == tb.heapLen
      invariant (|first| >= 2 ==> leaves == first) && (|first| < 2 ==> |leaves| <= 2)
      invariant ToppedUp(old(desc.fc[..]), desc.fc[..], desc.elems, leaves)
      invariant Holds(tb.heap[..], tb.heapLen, leaves)
      invariant Charged(desc, first, leaves, tb.optLen, tb.staticLen, old(tb.optLen), old(tb.staticLen))
      invariant -1 <= maxCode < desc.elems && (maxCode >= 0 ==> maxCode in leaves)
                  && forall x :: x in leaves ==> x <= maxCode
      decreases 2 - tb.heapLen
    {
      var code: nat;
      if maxCode < 2 {
        maxCode := maxCode + 1;
        code := maxCode;
      } else {
        code := 0;
        assert 0 !in leaves by { OnlyOne(leaves, maxCode); }
      }
      ToppedStep(old(desc.fc[..]), desc.fc[..], desc.elems, leaves, code);
      ChargeOne(desc, first, leaves, code, tb.optLen, tb.staticLen, old(tb.optLen), old(tb.staticLen));
      PushLeaf(tb, code, leaves);
      ghost var f := desc.fc[..];
      desc.fc[code] := 1;
      assert desc.fc[..] == f[code := 1];
      tb.optLen := Word(tb.optLen - 1);
      if desc.staticLens != [] {
        tb.staticLen := Word(tb.staticLen - desc.staticLens[code]);
      }
      leaves := leaves + {code};
    }
  }

  lemma OnlyOne(leaves: set<nat>, m: nat)
    requires |leaves| < 2 && m in leaves && m != 0
    ensures 0 !in leaves
  {
    assert |leaves - {m}| == 0;
    assert leaves - {m} == {};
  }

  // ---------------------------------------------------------------- the merge loop

  lemma NodesInRange(h: seq<nat>, len: nat, S: set<nat>, f: seq<nat>, d: seq<nat>)
    requires Holds(h, len, S) && forall x :: x in S ==> x < |f| && x < |d|
    ensures NodesOk(h, len, f, d)
  {
    HoldsMembers(h, len, S);
  }

  method Heapify(tb: TreeBuilder, desc: TreeDesc, ghost leaves: set<nat>)
    requires tb.Shape() && tb.Apart(desc) && desc.Shape()
    requires Holds(tb.heap[..], tb.heapLen, leaves) && forall x :: x in leaves ==> x < desc.elems
    modifies tb.heap
    ensures Holds(tb.heap[..], tb.heapLen, leaves)
    ensures NodesOk(tb.heap[..], tb.heapLen, desc.fc[..], tb.depth[..])
    ensures HeapFrom(tb.heap[..], tb.heapLen, desc.fc[..], tb.depth[..], 1)
  {
    hide Holds, NodesOk, HeapFrom, Pow2;
    var n := tb.heapLen / 2;
    NodesInRange(tb.heap[..], tb.heapLen, leaves, desc.fc[..], tb.depth[..]);
    HoldsLen(tb.heap[..], tb.heapLen, leaves);
    LowerHalf(tb.heap[..], tb.heapLen, desc.fc[..], tb.depth[..], n + 1);
    while n >= 1
      invariant 0 <= n <= tb.heapLen / 2
      invariant Holds(tb.heap[..], tb.heapLen, leaves)
      invariant NodesOk(tb.heap[..], tb.heapLen, desc.fc[..], tb.depth[..])
      invariant HeapFrom(tb.heap[..], tb.heapLen, desc.fc[..], tb.depth[..], n + 1)
    {
      ghost var h := tb.heap[..];
      PqDownHeap(tb.heap, tb.heapLen, desc.fc, tb.depth, n);
      HoldsPermuted(h, tb.heap[..], tb.heapLen, leaves);
      n := n - 1;
    }
  }

  lemma HoldsLen(h: seq<nat>, len: nat, S: set<nat>)
    requires Holds(h, len, S)
    ensures len < |h| && len == |S|
  {
    HoldsMembers(h, len, S);
  }

  lemma LowerHalf(h: seq<nat>, len: nat, f: seq<nat>, d: seq<nat>, k: nat)
    requires NodesOk(h, len, f, d) && 2 * k > len
    ensures HeapFrom(h, len, f, d, k)
  {
    forall p | k <= p <= len ensures SlotOk(h, len, f, d, p) {}
  }

  /** PQREMOVE: take the least node off the heap. */
  method PqRemove(tb: TreeBuilder, desc: TreeDesc, ghost S: set<nat>) returns (top: nat)
    requires tb.Shape() && tb.Apart(desc) && desc.Shape()
    requires Holds(tb.heap[..], tb.heapLen, S) && tb.heapLen >= 2
    requires NodesOk(tb.heap[..], tb.heapLen, desc.fc[..], tb.depth[..])
    requires HeapFrom(tb.heap[..], tb.heapLen, desc.fc[..], tb.depth[..], 1)
    modifies tb`heapLen, tb.heap
    ensures tb.heapLen == old(tb.heapLen) - 1
    ensures top in S && forall x :: x in S ==> x < desc.fc.Length && top < desc.fc.Length && desc.fc[top] <= desc.fc[x]
    ensures Holds(tb.heap[..], tb.heapLen, S - {top})
    ensures NodesOk(tb.heap[..], tb.heapLen, desc.fc[..], tb.depth[..])
    ensures HeapFrom(tb.heap[..], tb.heapLen, desc.fc[..], tb.depth[..], 1)
    ensures forall i :: old(tb.heapLen) < i < HEAP_SIZE ==> tb.heap[i] == old(tb.heap[i])
  {
    hide Holds, NodesOk, HeapFrom, Pow2;
    HoldsLen(tb.heap[..], tb.heapLen, S);
    LeastOf(tb.heap[..], tb.heapLen, desc.fc[..], tb.depth[..], S);
    HoldsRemove(tb.heap[..], tb.heapLen, S);
    ghost var h := tb.heap[..];
    HeapShorter(h, h[1 := h[tb.heapLen]], tb.heapLen, desc.fc[..], tb.depth[..]);
    top := tb.heap[1];
    tb.heap[1] := tb.heap[tb.heapLen];
    tb.heapLen := tb.heapLen - 1;
    assert tb.heap[..] == h[1 := h[tb.heapLen + 1]];
    ghost var t := tb.heap[..];
    PqDownHeap(tb.heap, tb.heapLen, desc.fc, tb.depth, 1);
    HoldsPermuted(t, tb.heap[..], tb.heapLen, S - {top});
  }

  /** Put a new node in place of the least one. */
  method PqReplace(tb: TreeBuilder, desc: TreeDesc, node: nat, ghost S: set<nat>)
    requires tb.Shape() && tb.Apart(desc) && desc.Shape() && node < desc.fc.Length
    requires Holds(tb.heap[..], tb.heapLen, S) && tb.heapLen >= 1 && node !in S
    requires NodesOk(tb.heap[..], tb.heapLen, desc.fc[..], tb.depth[..])
    requires HeapFrom(tb.heap[..], tb.heapLen, desc.fc[..], tb.depth[..], 2)
    modifies tb.heap
    ensures Holds(tb.heap[..], tb.heapLen, S - {old(tb.heap[1])} + {node})
    ensures NodesOk(tb.heap[..], tb.heapLen, desc.fc[..], tb.depth[..])
    ensures HeapFrom(tb.heap[..], tb.heapLen, desc.fc[..], tb.depth[..], 1)
    ensures forall i :: tb.heapLen < i < HEAP_SIZE ==> tb.heap[i] == old(tb.heap[i])
  {
    hide Holds, HeapFrom, Pow2;
    HoldsReplace(tb.heap[..], tb.heapLen, S, node);
    ghost var h := tb.heap[..];
    tb.heap[1] := node;
    assert tb.heap[..] == h[1 := node];
    ghost var t := tb.heap[..];
    HeapFrame(h, t, tb.heapLen, desc.fc[..], desc.fc[..], tb.depth[..], tb.depth[..], 2);
    PqDownHeap(tb.heap, tb.heapLen, desc.fc, tb.depth, 1);
    HoldsPermuted(t, tb.heap[..], tb.heapLen, S - {h[1]} + {node});
  }

  /** The merged nodes listed at the end of the heap array so far. */
  ghost predicate Lists(h: seq<nat>, heapMax: nat, ms: seq<Merge>) {
    && |h| == HEAP_SIZE && heapMax + 2 * |ms| == HEAP_SIZE
    && forall q :: 0 <= q < 2 * |ms| ==> h[HEAP_SIZE - 1 - q] == NodeAt(ms, q)
  }

  lemma ListsMore(h: seq<nat>, t: seq<nat>, heapMax: nat, ms: seq<Merge>, m: Merge)
    requires Lists(h, heapMax, ms) && heapMax >= 2 && |t| == |h|
    requires t[heapMax - 1] == m.small && t[heapMax - 2] == m.next
    requires forall i :: heapMax <= i < HEAP_SIZE ==> t[i] == h[i]
    ensures Lists(t, heapMax - 2, ms + [m])
  {
    var ns := ms + [m];
    forall q | 0 <= q < 2 * |ns| ensures t[HEAP_SIZE - 1 - q] == NodeAt(ns, q) {
      if q < 2 * |ms| {
        assert h[HEAP_SIZE - 1 - q] == NodeAt(ms, q);
        assert ns[q / 2] == ms[q / 2];
      }
    }
  }

  lemma FathersMore(leaves: set<nat>, ms: seq<Merge>, base: nat, dl: seq<nat>, m: Merge)
    requires Run(leaves, ms, base) && Run(leaves, ms + [m], base) && HasFathers(dl, ms, base) && base + |ms| < |dl|
    requires m.small < |dl| && m.next < |dl|
    ensures HasFathers(dl[m.next := base + |ms|][m.small := base + |ms|], ms + [m], base)
  {
    hide Run, Active;
    var ns := ms + [m];
    var e := dl[m.next := base + |ms|][m.small := base + |ms|];
    assert NodeAt(ns, 2 * |ms|) == m.small && NodeAt(ns, 2 * |ms| + 1) == m.next;
    forall q | 0 <= q < 2 * |ns| ensures NodeAt(ns, q) < |e| && e[NodeAt(ns, q)] == base + q / 2 {
      if q < 2 * |ms| {
        assert NodeAt(ns, q) == NodeAt(ms, q);
        Distinct(leaves, ns, base, q, 2 * |ms|);
        Distinct(leaves, ns, base, q, 2 * |ms| + 1);
      }
    }
  }

  /** The invariant of the merge loop. */
  ghost predicate Merging(h: seq<nat>, len: nat, heapMax: nat, f: seq<nat>, d: seq<nat>, dl: seq<nat>,
                          leaves: set<nat>, ms: seq<Merge>, base: nat)
  {
    && Holds(h, len, Active(leaves, ms, base, |ms|)) && len + |ms| == |leaves| <= base <= 286
    && |f| == |dl| == 2 * base + 1 && |d| == HEAP_SIZE
    && NodesOk(h, len, f, d) && HeapFrom(h, len, f, d, 1)
    && Growing(leaves, ms, base, f) && Lists(h, heapMax, ms) && HasFathers(dl, ms, base)
  }

  /** Which frequencies and fathers a merge may change. */
  ghost predicate OnlyNew(f0: seq<nat>, f: seq<nat>, dl0: seq<nat>, dl: seq<nat>, leaves: set<nat>, base: nat) {
    && |f| == |f0| && |dl| == |dl0| && base <= |f| && base <= |dl|
    && (forall n :: 0 <= n < base ==> f[n] == f0[n])
    && (forall n :: 0 <= n < base && n !in leaves ==> dl[n] == dl0[n])
  }

  lemma GrowAll(leaves: set<nat>, ms: seq<Merge>, base: nat, f: seq<nat>, f': seq<nat>, m: Merge)
    requires Growing(leaves, ms, base, f) && base + |ms| < |f|
    requires var S := Active(leaves, ms, base, |ms|);
             && m.small in S && m.next in S && m.small != m.next && m.small < |f| && m.next < |f|
             && f[m.small] <= f[m.next] && forall x :: x in S && x != m.small ==> x < |f| && f[m.next] <= f[x]
    requires f' == f[base + |ms| := f[m.small] + f[m.next]]
    ensures Growing(leaves, ms + [m], base, f')
  {
    hide Run, Active, Weighted, Greedy;
    GrowRun(leaves, ms, base, m);
    GrowWeighted(leaves, ms, base, f, f', m);
    GrowGreedy(leaves, ms, base, f, f', m, f[m.small] + f[m.next]);
  }

  lemma NoWrap(leaves: set<nat>, ms: seq<Merge>, base: nat, f: seq<nat>, n: nat, m: nat)
    requires Growing(leaves, ms, base, f) && Sum(leaves, Itself(Of(f))) < 0x1_0000
    requires var S := Active(leaves, ms, base, |ms|); n in S && m in S && n != m && n < |f| && m < |f|
    ensures f[n] + f[m] < 0x1_0000
  {
    hide Sum, Run, Active;
    TotalKept(leaves, ms, base, Of(f), |ms|);
    TwoOfTotal(Active(leaves, ms, base, |ms|), Of(f), n, m);
  }

  /** Take the two least nodes off the heap and list them; the second one stays in the root slot. */
  method TakeTwo(tb: TreeBuilder, desc: TreeDesc, ghost S: set<nat>, ghost ms: seq<Merge>) returns (n: nat, m: nat)
    requires tb.Shape() && tb.Apart(desc) && desc.Shape() && tb.heapLen >= 2 && tb.heapLen + 2 <= tb.heapMax
    requires Holds(tb.heap[..], tb.heapLen, S) && Lists(tb.heap[..], tb.heapMax, ms)
    requires NodesOk(tb.heap[..], tb.heapLen, desc.fc[..], tb.depth[..])
    requires HeapFrom(tb.heap[..], tb.heapLen, desc.fc[..], tb.depth[..], 1)
    modifies tb`heapLen, tb`heapMax, tb.heap
    ensures tb.heapLen == old(tb.heapLen) - 1 && tb.heapMax == old(tb.heapMax) - 2 && tb.heap[1] == m
    ensures n in S && m in S && n != m && n < desc.fc.Length && m < desc.fc.Length && desc.fc[n] <= desc.fc[m]
    ensures forall x :: x in S && x != n ==> x < desc.fc.Length && desc.fc[m] <= desc.fc[x]
    ensures Holds(tb.heap[..], tb.heapLen, S - {n})
    ensures NodesOk(tb.heap[..], tb.heapLen, desc.fc[..], tb.depth[..])
    ensures HeapFrom(tb.heap[..], tb.heapLen, desc.fc[..], tb.depth[..], 1)
    ensures Lists(tb.heap[..], tb.heapMax, ms + [Merge(n, m)])
  {
    hide Holds, NodesOk, HeapFrom, Pow2, Lists;
    ListsRoom(tb.heap[..], tb.heapMax, ms);
    n := PqRemove(tb, desc, S);
    LeastOf(tb.heap[..], tb.heapLen, desc.fc[..], tb.depth[..], S - {n});
    m := tb.heap[1];
    ghost var h := tb.heap[..];
    tb.heapMax := tb.heapMax - 1;
    tb.heap[tb.heapMax] := n;
    tb.heapMax := tb.heapMax - 1;
    tb.heap[tb.heapMax] := m;
    ListsFrame(old(tb.heap[..]), h, old(tb.heapMax), ms);
    ListsMore(h, tb.heap[..], old(tb.heapMax), ms, Merge(n, m));
    HoldsFrame(h, tb.heap[..], tb.heapLen, S - {n});
    HeapSame(h, tb.heap[..], tb.heapLen, desc.fc[..], tb.depth[..]);
  }

  lemma HeapSame(h: seq<nat>, t: seq<nat>, len: nat, f: seq<nat>, d: seq<nat>)
    requires NodesOk(h, len, f, d) && HeapFrom(h, len, f, d, 1)
    requires |t| == |h| && forall i :: 1 <= i <= len ==> t[i] == h[i]
    ensures NodesOk(t, len, f, d) && HeapFrom(t, len, f, d, 1)
  {
    HeapFrame(h, t, len, f, f, d, d, 1);
  }

  /** Create the father of `n` and `m`.  Freq is an unsigned short, depth an unsigned byte. */
  method NewFather(tb: TreeBuilder, desc: TreeDesc, n: nat, m: nat, node: nat)
    requires tb.Shape() && tb.Apart(desc) && desc.Shape() && n != m && node != n && node != m
    requires n < desc.fc.Length && m < desc.fc.Length && node < desc.fc.Length
    modifies tb.depth, desc.fc, desc.dl
    ensures desc.fc[..] == old(desc.fc[..])[node := (old(desc.fc[n]) + old(desc.fc[m])) % 0x1_0000]
    ensures forall i :: 0 <= i < HEAP_SIZE && i != node ==> tb.depth[i] == old(tb.depth[i])
    ensures desc.dl[..] == old(desc.dl[..])[m := node][n := node]
  {
    desc.fc[node] := (desc.fc[n] + desc.fc[m]) % 0x1_0000;
    tb.depth[node] := ((if tb.depth[n] >= tb.depth[m] then tb.depth[n] else tb.depth[m]) + 1) % 256;
    desc.dl[m] := node;
    desc.dl[n] := node;
  }

  method MergeTwo(tb: TreeBuilder, desc: TreeDesc, node: nat, ghost leaves: set<nat>, ghost ms: seq<Merge>)
    returns (ghost ns: seq<Merge>)
    requires tb.Shape() && tb.Apart(desc) && desc.Shape() && tb.heapLen >= 2 && node == desc.elems + |ms|
    requires Merging(tb.heap[..], tb.heapLen, tb.heapMax, desc.fc[..], tb.depth[..], desc.dl[..], leaves, ms,
               desc.elems)
    requires Sum(leaves, Itself(Of(desc.fc[..]))) < 0x1_0000
    modifies tb`heapLen, tb`heapMax, tb.heap, tb.depth, desc.fc, desc.dl
    ensures |ns| == |ms| + 1 && tb.heapLen == old(tb.heapLen) - 1
    ensures Merging(tb.heap[..], tb.heapLen, tb.heapMax, desc.fc[..], tb.depth[..], desc.dl[..], leaves, ns, desc.elems)
    ensures OnlyNew(old(desc.fc[..]), desc.fc[..], old(desc.dl[..]), desc.dl[..], leaves, desc.elems)
  {
    hide Holds, NodesOk, HeapFrom, Pow2, Growing, Lists, HasFathers, Active, Sum, Run;
    ghost var base, S := desc.elems, Active(leaves, ms, desc.elems, |ms|);
    ghost var f0: seq<nat>, d0: seq<nat>, dl0: seq<nat> := desc.fc[..], tb.depth[..], desc.dl[..];
    ActiveIn(leaves, ms, base, f0);
    ListsRoom(tb.heap[..], tb.heapMax, ms);
    var n, m := TakeTwo(tb, desc, S, ms);
    ns := ms + [Merge(n, m)];
    ghost var h := tb.heap[..];
    NoWrap(leaves, ms, base, f0, n, m);
    NewFather(tb, desc, n, m, node);
    GrowAll(leaves, ms, base, f0, desc.fc[..], Merge(n, m));
    GrownFathers(leaves, ms, base, f0, desc.fc[..], dl0, Merge(n, m));
    AfterMerge(h, h, tb.heapLen, f0, desc.fc[..], d0, tb.depth[..], S - {n}, node);
    PqReplace(tb, desc, node, S - {n});
    ListsFrame(h, tb.heap[..], tb.heapMax, ns);
    ActiveGrows(leaves, ms, base, n, m);
  }

  lemma ActiveIn(leaves: set<nat>, ms: seq<Merge>, base: nat, f: seq<nat>)
    requires Growing(leaves, ms, base, f)
    ensures forall x :: x in Active(leaves, ms, base, |ms|) ==> x < base + |ms| && (x < base ==> x in leaves)
  {
    ActiveBounds(leaves, ms, base, |ms|);
  }

  lemma ListsRoom(h: seq<nat>, heapMax: nat, ms: seq<Merge>)
    requires Lists(h, heapMax, ms)
    ensures heapMax + 2 * |ms| == HEAP_SIZE == |h|
  {
  }

  lemma ListsFrame(h: seq<nat>, t: seq<nat>, heapMax: nat, ms: seq<Merge>)
    requires Lists(h, heapMax, ms) && |t| == |h| && forall i :: heapMax <= i < HEAP_SIZE ==> t[i] == h[i]
    ensures Lists(t, heapMax, ms)
  {
    forall q | 0 <= q < 2 * |ms| ensures t[HEAP_SIZE - 1 - q] == NodeAt(ms, q) {
      assert h[HEAP_SIZE - 1 - q] == NodeAt(ms, q);
    }
  }

  lemma GrownFathers(leaves: set<nat>, ms: seq<Merge>, base: nat, f: seq<nat>, f': seq<nat>, dl: seq<nat>, m: Merge)
    requires Growing(leaves, ms, base, f) && Growing(leaves, ms + [m], base, f') && HasFathers(dl, ms, base)
    requires |f'| == |dl| && m.small < |dl| && m.next < |dl|
    ensures HasFathers(dl[m.next := base + |ms|][m.small := base + |ms|], ms + [m], base)
  {
    FathersMore(leaves, ms, base, dl, m);
  }

  lemma AfterMerge(h: seq<nat>, t: seq<nat>, len: nat, f: seq<nat>, f': seq<nat>, d: seq<nat>, d': seq<nat>,
                   S: set<nat>, node: nat)
    requires NodesOk(h, len, f, d) && HeapFrom(h, len, f, d, 1) && Holds(h, len, S) && node !in S
    requires |t| == |h| && |f'| == |f| && |d'| == |d| && forall i :: 1 <= i <= len ==> t[i] == h[i]
    requires forall n :: 0 <= n < |f| && n != node ==> f'[n] == f[n]
    requires forall n :: 0 <= n < |d| && n != node ==> d'[n] == d[n]
    ensures NodesOk(t, len, f', d') && HeapFrom(t, len, f', d', 2)
  {
    hide Holds, SlotOk;
    HoldsMembers(h, len, S);
    HeapFrame(h, t, len, f, f', d, d', 1);
  }

  lemma ActiveGrows(leaves: set<nat>, ms: seq<Merge>, base: nat, n: nat, m: nat)
    ensures Active(leaves, ms + [Merge(n, m)], base, |ms| + 1)
            == Active(leaves, ms, base, |ms|) - {n} - {m} + {base + |ms|}
  {
    ActivePrefix(leaves, ms, Merge(n, m), base, |ms|);
  }

  // ---------------------------------------------------------------- totals

  ghost function TopUp(f0: seq<nat>, leaves: set<nat>): (f: seq<nat>)
    ensures |f| == |f0|
  {
    seq(|f0|, n requires 0 <= n < |f0| => if n in leaves && f0[n] == 0 then 1 else f0[n])
  }

  /** Two codes that fill the Kraft sum have one bit each. */
  lemma TwoCodes(leaves: set<nat>, bl: seq<nat>, lens: seq<nat>, max: nat, x: nat)
    requires GoodLengths(bl, leaves, lens, max) && |leaves| == 2 && x in leaves
               && forall y :: y in leaves ==> y < |lens|
    ensures lens[x] == 1
  {
    hide Sum, Counts, Kraft, Pow2, Bounded;
    LensKraft(leaves, lens, max);
    var y := OtherOfTwo(leaves, x);
    SumOfTwo(leaves, KraftTerm(Of(lens), max), x, y);
    HalfEach(lens[x], lens[y], max);
  }

  lemma OtherOfTwo(s: set<nat>, x: nat) returns (y: nat)
    requires |s| == 2 && x in s
    ensures y != x && s == {x, y}
  {
    assert |s - {x}| == 1;
    y :| y in s - {x};
    assert |s - {x} - {y}| == 0;
  }

  lemma SumOfTwo(s: set<nat>, g: nat -> int, x: nat, y: nat)
    requires x != y && s == {x, y}
    ensures Sum(s, g) == g(x) + g(y)
  {
    hide Sum;
    SumRemove(s, g, x);
    SumRemove(s - {x}, g, y);
    assert s - {x} - {y} == {};
    SumZero(s - {x} - {y}, g);
  }

  lemma HalfEach(a: nat, b: nat, max: nat)
    requires 1 <= a <= max && 1 <= b <= max && Pow2(max - a) + Pow2(max - b) == Pow2(max)
    ensures a == 1 && b == 1
  {
    assert Pow2(max) == 2 * Pow2(max - 1);
    Pow2Mono(max - a, max - 1);
    Pow2Mono(max - b, max - 1);
    if a > 1 { Pow2Mono(max - a, max - 2); }
    if b > 1 { Pow2Mono(max - b, max - 2); }
  }

  /** Bits of all the leaves = bits of the symbols that occur, plus one code each for the forced ones. */
  lemma ForcedBits(desc: TreeDesc, used: set<nat>, leaves: set<nat>, f0: seq<nat>, f: seq<nat>, elems: nat,
                   l: nat -> nat)
    requires desc.Shape() && elems <= |f0| && elems <= |f| && used <= leaves
    requires forall x: nat :: x in used <==> x < elems && f0[x] != 0
    requires forall x :: x in leaves ==> x < elems && f[x] == (if f0[x] == 0 then 1 else f0[x])
    requires forall x :: x in leaves && f0[x] == 0 ==> x <= 2
    ensures desc.BitsOf(leaves, f, l) == desc.BitsOf(used, f0, l) + Sum(leaves - used, Itself(l))
  {
    hide Sum, Pow2;
    var g, g0 := BitTerm(Of(f), l, desc.ExtraOf()), BitTerm(Of(f0), l, desc.ExtraOf());
    assert leaves == used + (leaves - used);
    SumDisjoint(used, leaves - used, g);
    SumExt(used, g, g0);
    SumExt(leaves - used, g, Itself(l));
  }

  lemma {:induction false} SumOnes(S: set<nat>, l: nat -> nat)
    requires forall x :: x in S ==> l(x) == 1
    ensures Sum(S, Itself(l)) == |S|
  {
    if S != {} {
      var x :| x in S;
      SumRemove(S, Itself(l), x);
      SumOnes(S - {x}, l);
      assert |S - {x}| == |S| - 1;
    }
  }

  lemma SumNone(f: nat -> int)
    ensures Sum({}, f) == 0
  {
  }

  /** The codes forced in advance cancel out: the total counts exactly the symbols that occur. */
  lemma ChargesCancel(desc: TreeDesc, used: set<nat>, leaves: set<nat>, f0: seq<nat>, f: seq<nat>, dl: seq<nat>,
                      maxCode: nat,
                      bl: seq<nat>, opt: nat, opt1: nat, opt0: nat)
    requires desc.Shape() && desc.elems <= |f0| && desc.elems <= |f| && used <= leaves && maxCode < desc.elems <= |dl|
    requires forall x: nat :: x in used <==> x < desc.elems && f0[x] != 0
    requires forall x :: x in leaves ==> x <= maxCode && f[x] == (if f0[x] == 0 then 1 else f0[x])
    requires forall x :: x in leaves && f0[x] == 0 ==> x <= 2
    requires leaves == used || |leaves| == 2
    requires GoodLengths(bl, leaves, dl[..maxCode + 1], desc.maxLength)
    requires opt1 == Word(opt0 - |leaves - used|) && opt == Word(opt1 + desc.BitsOf(leaves, f, Of(dl)))
    ensures opt == Word(opt0 + desc.BitsOf(used, f0, Of(dl)))
  {
    hide Sum, Word, TreeDesc.BitsOf, GoodLengths, Itself;
    ForcedBits(desc, used, leaves, f0, f, desc.elems, Of(dl));
    WordAdd(opt0 - |leaves - used|, desc.BitsOf(leaves, f, Of(dl)));
    if leaves == used {
      assert leaves - used == {};
      SumNone(Itself(Of(dl)));
    } else {
      forall x | x in leaves - used ensures Of(dl)(x) == 1 {
        TwoCodes(leaves, bl, dl[..maxCode + 1], desc.maxLength, x);
      }
      SumOnes(leaves - used, Of(dl));
    }
  }

  lemma StaticCancels(desc: TreeDesc, used: set<nat>, leaves: set<nat>, f0: seq<nat>, f: seq<nat>, stat: nat,
                      stat1: nat, stat0: nat)
    requires desc.Shape() && desc.elems <= |f0| && desc.elems <= |f| && used <= leaves
    requires forall x: nat :: x in used <==> x < desc.elems && f0[x] != 0
    requires forall x :: x in leaves ==> x < desc.elems && f[x] == (if f0[x] == 0 then 1 else f0[x])
    requires forall x :: x in leaves && f0[x] == 0 ==> x <= 2
    requires var l := Of(desc.staticLens);
             stat1 == Word(stat0 - Sum(leaves - used, Itself(l))) && stat == Word(stat1 + desc.BitsOf(leaves, f, l))
    ensures stat == Word(stat0 + desc.BitsOf(used, f0, Of(desc.staticLens)))
  {
    hide Sum, Word, TreeDesc.BitsOf, Itself;
    var l := Of(desc.staticLens);
    ForcedBits(desc, used, leaves, f0, f, desc.elems, l);
    WordAdd(stat0 - Sum(leaves - used, Itself(l)), desc.BitsOf(leaves, f, l));
  }

  // ---------------------------------------------------------------- build_tree

  /** Which symbols get a code. */
  ghost predicate CodedSymbols(f0: seq<nat>, elems: nat, leaves: set<nat>, maxCode: int)
    requires elems <= |f0|
  {
    && Used(f0, elems) <= leaves && (|Used(f0, elems)| >= 2 ==> leaves == Used(f0, elems))
    && (|Used(f0, elems)| < 2 ==> |leaves| == 2)
    && 0 <= maxCode < elems && maxCode in leaves && (forall x :: x in leaves ==> x <= maxCode)
    && (forall x :: x in leaves && f0[x] == 0 ==> x <= 2)
  }

  /** No lengths allowed by the Kraft inequality give a smaller total of frequency times length. */
  ghost predicate LeastCost(leaves: set<nat>, f: seq<nat>, dl: seq<nat>) {
    forall l: nat -> nat, max: nat :: AtMost(leaves, l, max) && KraftOf(leaves, l, max) <= Pow2(max)
      ==> Cost(leaves, Of(f), Of(dl)) <= Cost(leaves, Of(f), l)
  }

  /** ... so no binary tree over the same symbols has a smaller total of frequency times depth. */
  lemma NoTreeCheaper(leaves: set<nat>, f: seq<nat>, dl: seq<nat>, t: Tree)
    requires LeastCost(leaves, f, dl) && Proper(t) && Symbols(t) == leaves
    ensures Cost(leaves, Of(f), Of(dl)) <= Cost(leaves, Of(f), LeafDepths(t))
  {
    hide Cost, KraftOf, Symbols, Proper, LeafDepths, Height, Pow2;
    TreeKraft(t);
    DepthsBound(t);
  }

  /** Every leaf has its code. */
  ghost predicate CodesHeld(fc: seq<nat>, lens: seq<nat>, leaves: set<nat>) {
    forall n :: n in leaves ==> n < |fc| && n < |lens| && HoldsCode(fc[n], lens, n)
  }

  ghost predicate ZeroAbove(dl: seq<nat>, maxCode: int, elems: nat) {
    -1 <= maxCode < elems <= |dl| && forall n :: maxCode < n < elems ==> dl[n] == 0
  }

  /** The whole merge loop: from the heap of leaves to a single tree. */
  method MergeAll(tb: TreeBuilder, desc: TreeDesc, ghost leaves: set<nat>) returns (ghost ms: seq<Merge>)
    requires tb.Shape() && tb.Apart(desc) && desc.Shape() && tb.heapLen >= 2 && tb.heapMax == HEAP_SIZE
    requires Holds(tb.heap[..], tb.heapLen, leaves) && forall x :: x in leaves ==> x < desc.elems
    requires NodesOk(tb.heap[..], tb.heapLen, desc.fc[..], tb.depth[..])
    requires HeapFrom(tb.heap[..], tb.heapLen, desc.fc[..], tb.depth[..], 1)
    requires Sum(leaves, Itself(Of(desc.fc[..]))) < 0x1_0000
    modifies tb`heapLen, tb`heapMax, tb.heap, tb.depth, desc.fc, desc.dl
    ensures Built(leaves, ms, desc.elems) && Growing(leaves, ms, desc.elems, desc.fc[..])
    ensures ListsTree(tb.heap[..], tb.heapMax, ms, desc.elems) && HasFathers(desc.dl[..], ms, desc.elems)
    ensures OnlyNew(old(desc.fc[..]), desc.fc[..], old(desc.dl[..]), desc.dl[..], leaves, desc.elems)
  {
    hide Merging, Pow2, Sum, OnlyNew, Holds;
    ms := [];
    var node := desc.elems;
    ghost var base := desc.elems;
    MergingStart(tb.heap[..], tb.heapLen, desc.fc[..], tb.depth[..], desc.dl[..], leaves, base);
    while tb.heapLen >= 2
      invariant node == base + |ms| && tb.heapLen + |ms| == |leaves| && tb.heapLen >= 1
      invariant Merging(tb.heap[..], tb.heapLen, tb.heapMax, desc.fc[..], tb.depth[..], desc.dl[..], leaves, ms, base)
      invariant OnlyNew(old(desc.fc[..]), desc.fc[..], old(desc.dl[..]), desc.dl[..], leaves, base)
      invariant Sum(leaves, Itself(Of(desc.fc[..]))) < 0x1_0000
      decreases tb.heapLen
    {
      ghost var f1: seq<nat>, dl1: seq<nat> := desc.fc[..], desc.dl[..];
      ms := MergeTwo(tb, desc, node, leaves, ms);
      OnlyNewChains(old(desc.fc[..]), f1, desc.fc[..], old(desc.dl[..]), dl1, desc.dl[..], leaves, base);
      SameTotal(f1, desc.fc[..], dl1, desc.dl[..], leaves, base);
      node := node + 1;
    }
    ghost var h := tb.heap[..];
    MergingEnd(h, tb.heapMax, desc.fc[..], tb.depth[..], desc.dl[..], leaves, ms, base);
    tb.heapMax := tb.heapMax - 1;
    tb.heap[tb.heapMax] := tb.heap[1];
    ListsRootLast(h, tb.heap[..], tb.heapMax, ms, base);
  }

  lemma MergingStart(h: seq<nat>, len: nat, f: seq<nat>, d: seq<nat>, dl: seq<nat>, leaves: set<nat>, base: nat)
    requires Holds(h, len, leaves) && NodesOk(h, len, f, d) && HeapFrom(h, len, f, d, 1) && |h| == HEAP_SIZE
    requires |f| == |dl| == 2 * base + 1 && |d| == HEAP_SIZE && base <= 286 && forall x :: x in leaves ==> x < base
    ensures len == |leaves| && Merging(h, len, HEAP_SIZE, f, d, dl, leaves, [], base)
    ensures OnlyNew(f, f, dl, dl, leaves, base)
  {
    hide Holds, HeapFrom;
    HoldsMembers(h, len, leaves);
    SubsetSize(leaves, base);
  }

  lemma OnlyNewChains(f0: seq<nat>, f1: seq<nat>, f: seq<nat>, dl0: seq<nat>, dl1: seq<nat>, dl: seq<nat>,
                      leaves: set<nat>, base: nat)
    requires OnlyNew(f0, f1, dl0, dl1, leaves, base) && OnlyNew(f1, f, dl1, dl, leaves, base)
    ensures OnlyNew(f0, f, dl0, dl, leaves, base)
  {
  }

  lemma SameTotal(f0: seq<nat>, f: seq<nat>, dl0: seq<nat>, dl: seq<nat>, leaves: set<nat>, base: nat)
    requires OnlyNew(f0, f, dl0, dl, leaves, base) && forall x :: x in leaves ==> x < base
    ensures Sum(leaves, Itself(Of(f))) == Sum(leaves, Itself(Of(f0)))
  {
    SumExt(leaves, Itself(Of(f)), Itself(Of(f0)));
  }

  lemma MergingEnd(h: seq<nat>, heapMax: nat, f: seq<nat>, d: seq<nat>, dl: seq<nat>, leaves: set<nat>,
                   ms: seq<Merge>, base: nat)
    requires Merging(h, 1, heapMax, f, d, dl, leaves, ms, base) && |leaves| >= 2
    ensures Built(leaves, ms, base) && Growing(leaves, ms, base, f) && HasFathers(dl, ms, base)
    ensures Lists(h, heapMax, ms) && heapMax >= 2 && h[1] == base + |ms| - 1
  {
    hide Holds, HeapFrom, NodesOk, Run, HasFathers;
    HoldsMembers(h, 1, Active(leaves, ms, base, |ms|));
    OnlyRoot(leaves, ms, base);
  }

  lemma ListsRootLast(h: seq<nat>, t: seq<nat>, heapMax: nat, ms: seq<Merge>, base: nat)
    requires Lists(h, heapMax + 1, ms) && |ms| >= 1 && t == h[heapMax := base + |ms| - 1]
    ensures ListsTree(t, heapMax, ms, base)
  {
    forall q | 0 <= q < 2 * |ms| ensures t[HEAP_SIZE - 1 - q] == NodeAt(ms, q) {
      assert h[HEAP_SIZE - 1 - q] == NodeAt(ms, q);
    }
  }

  /** Construct one Huffman tree: code lengths, codes, and the totals of the block. */
  method BuildTree(tb: TreeBuilder, desc: TreeDesc) returns (overflow: nat, ghost leaves: set<nat>)
    requires tb.Shape() && tb.Apart(desc) && desc.Shape()
    requires tb.optLen < 0x1_0000_0000 && tb.staticLen < 0x1_0000_0000
    requires SumTo(desc.elems, Itself(Of(desc.fc[..]))) < 0x1_0000 - 2
    modifies tb, tb.heap, tb.depth, tb.blCount, desc`maxCode, desc.fc, desc.dl
    ensures CodedSymbols(old(desc.fc[..]), desc.elems, leaves, desc.maxCode)
    ensures GoodLengths(tb.blCount[..], leaves, desc.dl[..desc.maxCode + 1], desc.maxLength)
    ensures CodesHeld(desc.fc[..], desc.dl[..desc.maxCode + 1], leaves)
    ensures ZeroAbove(desc.dl[..], desc.maxCode, desc.elems)
    ensures tb.optLen == Word(old(tb.optLen)
              + desc.BitsOf(Used(old(desc.fc[..]), desc.elems), old(desc.fc[..]), Of(desc.dl[..])))
    ensures tb.staticLen == if desc.staticLens == [] then old(tb.staticLen) else
              Word(old(tb.staticLen) + desc.BitsOf(Used(old(desc.fc[..]), desc.elems), old(desc.fc[..]),
                Of(desc.staticLens)))
    ensures overflow % 2 == 0
    ensures overflow == 0 ==> LeastCost(leaves, TopUp(old(desc.fc[..]), leaves), desc.dl[..])
  {
    hide Used, Pow2, Charged, ToppedUp, Word, GoodLengths, HoldsCode, LeastCost, Growing, ListsTree, HasFathers, Sum,
      TreeDesc.BitsOf, Run, Depths, SumTo, CodedSymbols;
    ghost var f0: seq<nat>, base := desc.fc[..], desc.elems;
    ghost var ms, f1;
    leaves, ms, f1 := GrowTree(tb, desc);
    ghost var f2: seq<nat>, opt1, stat1 := desc.fc[..], tb.optLen, tb.staticLen;
    CodedBounds(f0, base, leaves, desc.maxCode);
    overflow := tb.GenBitLen(desc, leaves, ms);
    TreeTotals(desc, leaves, f0, f1, f2, desc.dl[..], desc.maxCode, tb.blCount[..],
               tb.optLen, opt1, old(tb.optLen), tb.staticLen, stat1, old(tb.staticLen));
    if overflow == 0 {
      TreeOptimal(leaves, ms, base, f0, f1, f2, desc.dl[..]);
    }
    assert ZeroAbove(desc.dl[..], desc.maxCode, desc.elems);
    AssignCodes(tb, desc, leaves);
  }

  /** Generate the codes for the lengths. */
  method AssignCodes(tb: TreeBuilder, desc: TreeDesc, ghost leaves: set<nat>)
    requires tb.Shape() && tb.Apart(desc) && desc.Shape()
    requires 0 <= desc.maxCode < desc.elems && forall x :: x in leaves ==> x <= desc.maxCode
    requires GoodLengths(tb.blCount[..], leaves, desc.dl[..desc.maxCode + 1], desc.maxLength)
    modifies desc.fc
    ensures CodesHeld(desc.fc[..], desc.dl[..desc.maxCode + 1], leaves)
  {
    hide Pow2, HoldsCode;
    GoodKraft(tb.blCount[..], leaves, desc.dl[..desc.maxCode + 1], desc.maxLength);
    GenCodes(desc.fc, desc.dl, desc.maxCode, tb.blCount);
    assert forall n :: n in leaves ==> desc.fc[..][n] == desc.fc[n] && desc.dl[n] > 0;
  }

  lemma CodedBounds(f0: seq<nat>, elems: nat, leaves: set<nat>, maxCode: int)
    requires elems <= |f0| && CodedSymbols(f0, elems, leaves, maxCode)
    ensures 0 <= maxCode < elems && maxCode in leaves && (forall x :: x in leaves ==> x <= maxCode)
  {
  }

  /** The tree itself: leaves, merges, and the list of nodes in the heap array. */
  method GrowTree(tb: TreeBuilder, desc: TreeDesc)
    returns (ghost leaves: set<nat>, ghost ms: seq<Merge>, ghost f1: seq<nat>)
    requires tb.Shape() && tb.Apart(desc) && desc.Shape()
    requires tb.optLen < 0x1_0000_0000 && tb.staticLen < 0x1_0000_0000
    requires SumTo(desc.elems, Itself(Of(desc.fc[..]))) < 0x1_0000 - 2
    modifies tb, tb.heap, tb.depth, desc`maxCode, desc.fc, desc.dl
    ensures CodedSymbols(old(desc.fc[..]), desc.elems, leaves, desc.maxCode)
    ensures ToppedUp(old(desc.fc[..]), f1, desc.elems, leaves)
    ensures |f1| == desc.fc.Length && forall n :: 0 <= n < desc.elems ==> desc.fc[n] == f1[n]
    ensures Charged(desc, Used(old(desc.fc[..]), desc.elems), leaves, tb.optLen, tb.staticLen, old(tb.optLen),
              old(tb.staticLen))
    ensures tb.optLen < 0x1_0000_0000 && tb.staticLen < 0x1_0000_0000
    ensures Built(leaves, ms, desc.elems) && Growing(leaves, ms, desc.elems, desc.fc[..])
    ensures ListsTree(tb.heap[..], tb.heapMax, ms, desc.elems) && HasFathers(desc.dl[..], ms, desc.elems)
    ensures forall n :: 0 <= n < desc.elems && n !in leaves ==> desc.dl[n] == 0
  {
    hide Used, Pow2, Charged, ToppedUp, Word, Holds, Growing, ListsTree, HasFathers, Sum, NodesOk, HeapFrom, OnlyNew,
      Run, SumTo;
    ghost var f0: seq<nat>, base := desc.fc[..], desc.elems;
    var maxCode := CollectLeaves(tb, desc);
    ghost var dl0: seq<nat> := desc.dl[..];
    maxCode, leaves := ForceTwo(tb, desc, maxCode);
    desc.maxCode := maxCode;
    f1 := desc.fc[..];
    ToppedFacts(f0, f1, base, leaves, dl0);
    ToppedSum(f0, f1, base, leaves);
    ChargedBounds(desc, Used(f0, base), leaves, tb.optLen, tb.staticLen, old(tb.optLen), old(tb.staticLen));
    Heapify(tb, desc, leaves);
    ms := MergeAll(tb, desc, leaves);
    OnlyNewFacts(f1, desc.fc[..], dl0, desc.dl[..], leaves, base);
  }

  lemma ToppedFacts(f0: seq<nat>, f1: seq<nat>, base: nat, leaves: set<nat>, dl: seq<nat>)
    requires ToppedUp(f0, f1, base, leaves) && base <= |dl| && Used(f0, base) <= leaves
    requires forall n :: 0 <= n < base && f0[n] == 0 ==> dl[n] == 0
    ensures forall x :: x in leaves && f0[x] == 0 ==> x <= 2
    ensures forall n :: 0 <= n < base && n !in leaves ==> dl[n] == 0
  {
    UsedMembers(f0, base);
  }

  lemma ToppedSum(f0: seq<nat>, f1: seq<nat>, base: nat, leaves: set<nat>)
    requires ToppedUp(f0, f1, base, leaves) && base <= |f0| && SumTo(base, Itself(Of(f0))) < 0x1_0000 - 2
    requires Used(f0, base) <= leaves && (|Used(f0, base)| >= 2 ==> leaves == Used(f0, base))
    requires (|Used(f0, base)| < 2 ==> |leaves| == 2)
    ensures Sum(leaves, Itself(Of(f1))) < 0x1_0000
  {
    hide Sum, SumTo, Used, Itself, Of, ToppedUp;
    var used := Used(f0, base);
    TopTerms(f0, f1, base, leaves);
    UsedSum(f0, base);
    assert leaves == used + (leaves - used);
    SumDisjoint(used, leaves - used, Itself(Of(f1)));
    SumExt(used, Itself(Of(f1)), Itself(Of(f0)));
    SumOnes(leaves - used, Of(f1));
    FewForced(used, leaves);
  }

  lemma TopTerms(f0: seq<nat>, f1: seq<nat>, base: nat, leaves: set<nat>)
    requires ToppedUp(f0, f1, base, leaves) && Used(f0, base) <= leaves
    ensures base <= |f0| && forall x :: x in Used(f0, base) ==> Itself(Of(f1))(x) == Itself(Of(f0))(x)
    ensures forall x :: x in leaves - Used(f0, base) ==> Of(f1)(x) == 1
  {
    UsedMembers(f0, base);
  }

  lemma UsedSum(f0: seq<nat>, base: nat)
    requires base <= |f0|
    ensures Sum(Used(f0, base), Itself(Of(f0))) == SumTo(base, Itself(Of(f0)))
  {
    hide Sum, SumTo, Used;
    UsedMembers(f0, base);
    SumRange(base, Itself(Of(f0)));
    SumWiden(Used(f0, base), Below(base), Itself(Of(f0)));
  }

  lemma FewForced(used: set<nat>, leaves: set<nat>)
    requires used <= leaves && (leaves == used || |leaves| == 2)
    ensures |leaves - used| <= 2
  {
    if leaves == used { assert leaves - used == {}; }
    assert |leaves - used| == |leaves| - |used| by { assert leaves == used + (leaves - used); }
  }

  lemma OnlyNewFacts(f1: seq<nat>, f2: seq<nat>, dl0: seq<nat>, dl: seq<nat>, leaves: set<nat>, base: nat)
    requires OnlyNew(f1, f2, dl0, dl, leaves, base)
    requires forall n :: 0 <= n < base && n !in leaves ==> dl0[n] == 0
    ensures |f2| == |f1| && base <= |f2| && forall n :: 0 <= n < base ==> f2[n] == f1[n]
    ensures forall n :: 0 <= n < base && n !in leaves ==> dl[n] == 0
  {
  }

  lemma ChargedBounds(desc: TreeDesc, used: set<nat>, leaves: set<nat>, opt: nat, stat: nat, opt0: nat, stat0: nat)
    requires Charged(desc, used, leaves, opt, stat, opt0, stat0) && stat0 < 0x1_0000_0000
    ensures opt < 0x1_0000_0000 && stat < 0x1_0000_0000
  {
  }

  lemma TreeTotals(desc: TreeDesc, leaves: set<nat>, f0: seq<nat>, f1: seq<nat>, f2: seq<nat>, dl: seq<nat>,
                   maxCode: nat, bl: seq<nat>,
                   opt: nat, opt1: nat, opt0: nat, stat: nat, stat1: nat, stat0: nat)
    requires desc.Shape() && maxCode < desc.elems <= |dl| && ToppedUp(f0, f1, desc.elems, leaves)
    requires |f2| == |f1| && forall n :: 0 <= n < desc.elems ==> f2[n] == f1[n]
    requires CodedSymbols(f0, desc.elems, leaves, maxCode)
    requires Charged(desc, Used(f0, desc.elems), leaves, opt1, stat1, opt0, stat0)
    requires GoodLengths(bl, leaves, dl[..maxCode + 1], desc.maxLength)
    requires opt == Word(opt1 + desc.BitsOf(leaves, f2, Of(dl)))
    requires stat == if desc.staticLens == [] then stat1 else Word(stat1 + desc.BitsOf(leaves, f2, Of(desc.staticLens)))
    ensures opt == Word(opt0 + desc.BitsOf(Used(f0, desc.elems), f0, Of(dl)))
    ensures stat == if desc.staticLens == [] then stat0
              else Word(stat0 + desc.BitsOf(Used(f0, desc.elems), f0, Of(desc.staticLens)))
  {
    hide Sum, Word, TreeDesc.BitsOf, GoodLengths, Itself, Used, Pow2;
    var used := Used(f0, desc.elems);
    UsedMembers(f0, desc.elems);
    ChargesCancel(desc, used, leaves, f0, f2, dl, maxCode, bl, opt, opt1, opt0);
    if desc.staticLens != [] {
      StaticCancels(desc, used, leaves, f0, f2, stat, stat1, stat0);
    }
  }

  lemma TreeOptimal(leaves: set<nat>, ms: seq<Merge>, base: nat, f0: seq<nat>, f1: seq<nat>, f2: seq<nat>, dl: seq<nat>)
    requires Built(leaves, ms, base) && Growing(leaves, ms, base, f2) && Depths(ms, base, Of(dl))
    requires ToppedUp(f0, f1, base, leaves) && |f2| == |f1| && forall n :: 0 <= n < base ==> f2[n] == f1[n]
    ensures LeastCost(leaves, TopUp(f0, leaves), dl)
  {
    hide Run, Weighted, Greedy, Depths, KraftOf, AtMost, Sum, Pow2;
    forall l: nat -> nat, max: nat | AtMost(leaves, l, max) && KraftOf(leaves, l, max) <= Pow2(max)
      ensures Cost(leaves, Of(TopUp(f0, leaves)), Of(dl)) <= Cost(leaves, Of(TopUp(f0, leaves)), l)
    {
      Optimal(leaves, ms, base, Of(f2), Of(dl), l, max);
      SameCost(leaves, f2, TopUp(f0, leaves), Of(dl));
      SameCost(leaves, f2, TopUp(f0, leaves), l);
    }
  }

  lemma SameCost(leaves: set<nat>, f: seq<nat>, g: seq<nat>, l: nat -> nat)
    requires forall x :: x in leaves ==> x < |f| && x < |g| && f[x] == g[x]
    ensures Cost(leaves, Of(f), l) == Cost(leaves, Of(g), l)
  {
    SumExt(leaves, CostTerm(Of(f), l), CostTerm(Of(g), l));
  }

  lemma GoodKraft(bl: seq<nat>, leaves: set<nat>, lens: seq<nat>, max: nat)
    requires GoodLengths(bl, leaves, lens, max) && max <= MAX_BITS
    ensures Counts(bl, lens) && Bounded(lens, MAX_BITS) && Kraft(lens, |lens|, MAX_BITS) == Pow2(MAX_BITS)
    ensures forall n :: 0 <= n < |lens| ==> (n in leaves <==> lens[n] > 0)
  {
    ExactKraft(lens, max, MAX_BITS);
  }
}
