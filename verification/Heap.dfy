/** The priority queue of Huffman tree nodes: heap[1..heapLen], least frequent node first,
    ties broken by subtree depth. */
module Heaps {
  /** SMALLER(tree, n, m) */
  predicate Smaller(freq: seq<nat>, depth: seq<nat>, n: nat, m: nat)
    requires n < |freq| && m < |freq| && n < |depth| && m < |depth|
  {
    freq[n] < freq[m] || (freq[n] == freq[m] && depth[n] <= depth[m])
  }

  ghost predicate NodesOk(h: seq<nat>, len: nat, freq: seq<nat>, depth: seq<nat>) {
    len < |h| && forall i :: 1 <= i <= len ==> h[i] < |freq| && h[i] < |depth|
  }

  /** Slot `p` is no larger than its sons. */
  ghost predicate SlotOk(h: seq<nat>, len: nat, freq: seq<nat>, depth: seq<nat>, p: nat)
    requires NodesOk(h, len, freq, depth)
  {
    1 <= p ==>
      && (2 * p <= len ==> Smaller(freq, depth, h[p], h[2 * p]))
      && (2 * p + 1 <= len ==> Smaller(freq, depth, h[p], h[2 * p + 1]))
  }

  /** Every slot from `k` on is in heap order. */
  ghost predicate HeapFrom(h: seq<nat>, len: nat, freq: seq<nat>, depth: seq<nat>, k: nat)
    requires NodesOk(h, len, freq, depth)
  {
    forall p :: k <= p <= len ==> SlotOk(h, len, freq, depth, p)
  }

  /** Heap order from `k0` on, except that slot `k` may be larger than its sons; the father of
      slot `k` is no larger than the sons of `k`. */
  ghost predicate Sifting(h: seq<nat>, len: nat, freq: seq<nat>, depth: seq<nat>, k0: nat, k: nat)
    requires NodesOk(h, len, freq, depth)
  {
    && 1 <= k0 <= k <= len
    && (forall p :: k0 <= p <= len && p != k ==> SlotOk(h, len, freq, depth, p))
    && (k / 2 >= k0 ==>
          && (2 * k <= len ==> Smaller(freq, depth, h[k / 2], h[2 * k]))
          && (2 * k + 1 <= len ==> Smaller(freq, depth, h[k / 2], h[2 * k + 1])))
  }

  lemma {:induction false} RootIsLeast(h: seq<nat>, len: nat, freq: seq<nat>, depth: seq<nat>, i: nat)
    requires NodesOk(h, len, freq, depth) && HeapFrom(h, len, freq, depth, 1)
    requires 1 <= i <= len
    ensures Smaller(freq, depth, h[1], h[i])
  {
    if i > 1 {
      RootIsLeast(h, len, freq, depth, i / 2);
      assert SlotOk(h, len, freq, depth, i / 2);
      assert i == 2 * (i / 2) || i == 2 * (i / 2) + 1;
    }
  }

  lemma SwapMultiset(s: seq<nat>, i: nat, j: nat)
    requires i < j < |s|
    ensures multiset(s[i := s[j]][j := s[i]]) == multiset(s)
  {
    var t := s[i := s[j]][j := s[i]];
    assert s == s[..i] + [s[i]] + s[i + 1..j] + [s[j]] + s[j + 1..];
    assert t == s[..i] + [s[j]] + s[i + 1..j] + [s[i]] + s[j + 1..];
  }

  /** Slot `j` is the smallest son of slot `k`. */
  ghost predicate LeastSon(h: seq<nat>, len: nat, freq: seq<nat>, depth: seq<nat>, k: nat, j: nat)
    requires NodesOk(h, len, freq, depth)
  {
    && 1 <= k && (j == 2 * k || j == 2 * k + 1) && j <= len && Smaller(freq, depth, h[j], h[2 * k])
    && (2 * k + 1 <= len ==> Smaller(freq, depth, h[j], h[2 * k + 1]))
  }

  /** The heap is `s`, but for slot `k`, where `v` belongs. */
  ghost predicate Hole(h: seq<nat>, s: seq<nat>, k: nat, v: nat) {
    |h| == |s| && k < |s| && s[k] == v && forall i :: 0 <= i < |s| && i != k ==> h[i] == s[i]
  }

  /** Exchanging slot `k` with its smallest son `j` moves the defect down to `j`. */
  lemma SiftStep(h: seq<nat>, len: nat, freq: seq<nat>, depth: seq<nat>, k0: nat, k: nat, j: nat)
    requires NodesOk(h, len, freq, depth) && Sifting(h, len, freq, depth, k0, k)
    requires LeastSon(h, len, freq, depth, k, j) && Smaller(freq, depth, h[j], h[k])
    ensures var t := h[k := h[j]][j := h[k]];
            NodesOk(t, len, freq, depth) && Sifting(t, len, freq, depth, k0, j)
  {
    var t := h[k := h[j]][j := h[k]];
    assert SlotOk(h, len, freq, depth, j);
    forall p | k0 <= p <= len && p != j
      ensures SlotOk(t, len, freq, depth, p)
    {
      if p == k {
      } else {
        assert SlotOk(h, len, freq, depth, p);
        assert t[p] == h[p];
        assert 2 * p != j && 2 * p + 1 != j;
        if 2 * p == k || 2 * p + 1 == k {
          assert k / 2 == p;
        }
      }
    }
  }

  method PqDownHeap(heap: array<nat>, heapLen: nat, fc: array<nat>, depth: array<nat>, start: nat)
    requires heap != fc && heap != depth
    requires NodesOk(heap[..], heapLen, fc[..], depth[..])
    requires 1 <= start <= heapLen
    requires HeapFrom(heap[..], heapLen, fc[..], depth[..], start + 1)
    modifies heap
    ensures NodesOk(heap[..], heapLen, fc[..], depth[..])
    ensures HeapFrom(heap[..], heapLen, fc[..], depth[..], start)
    ensures multiset(heap[..]) == old(multiset(heap[..]))
    ensures forall i :: 0 <= i < start || heapLen < i < heap.Length ==> heap[i] == old(heap[i])
  {
    hide SlotOk, Smaller, HeapFrom, LeastSon;
    var k := start;
    var v := heap[k];
    var j := 2 * k;
    ghost var s, f, d := heap[..], fc[..], depth[..];
    StartSifting(s, heapLen, f, d, start);
    while j <= heapLen
      invariant j == 2 * k && NodesOk(s, heapLen, f, d)
      invariant Sifting(s, heapLen, f, d, start, k) && Hole(heap[..], s, k, v)
      invariant multiset(s) == old(multiset(heap[..]))
      invariant forall i :: 0 <= i < start || heapLen < i < |s| ==> s[i] == old(heap[i])
      decreases heapLen - k
    {
      j := SmallestSon(heap, heapLen, fc, depth, k, v, s);
      if Smaller(fc[..], depth[..], v, heap[j]) {
        SlotDone(s, heapLen, f, d, k, j);
        break;
      }
      NotSmaller(f, d, v, s[j]);
      SiftStep(s, heapLen, f, d, start, k, j);
      SwapMultiset(s, k, j);
      s := s[k := s[j]][j := s[k]];
      heap[k] := heap[j];
      k := j;
      j := 2 * j;
    }
    if j > heapLen {
      SlotAlone(s, heapLen, f, d, k);
    }
    heap[k] := v;
    assert heap[..] == s;
    DoneSifting(s, heapLen, f, d, start, k);
  }

  method SmallestSon(heap: array<nat>, heapLen: nat, fc: array<nat>, depth: array<nat>, k: nat, ghost v: nat,
                     ghost s: seq<nat>)
    returns (j: nat)
    requires 1 <= k && 2 * k <= heapLen && NodesOk(s, heapLen, fc[..], depth[..]) && Hole(heap[..], s, k, v)
    ensures LeastSon(s, heapLen, fc[..], depth[..], k, j) && k < j <= heapLen && heap[j] == s[j]
  {
    j := 2 * k;
    if j < heapLen && Smaller(fc[..], depth[..], heap[j + 1], heap[j]) {
      j := j + 1;
    }
  }

  lemma NotSmaller(freq: seq<nat>, depth: seq<nat>, n: nat, m: nat)
    requires n < |freq| && m < |freq| && n < |depth| && m < |depth| && !Smaller(freq, depth, n, m)
    ensures Smaller(freq, depth, m, n)
  {
  }

  lemma StartSifting(h: seq<nat>, len: nat, freq: seq<nat>, depth: seq<nat>, start: nat)
    requires NodesOk(h, len, freq, depth) && 1 <= start <= len && HeapFrom(h, len, freq, depth, start + 1)
    ensures Sifting(h, len, freq, depth, start, start)
  {
    hide SlotOk, Smaller;
  }

  lemma DoneSifting(h: seq<nat>, len: nat, freq: seq<nat>, depth: seq<nat>, start: nat, k: nat)
    requires NodesOk(h, len, freq, depth) && Sifting(h, len, freq, depth, start, k) && SlotOk(h, len, freq, depth, k)
    ensures HeapFrom(h, len, freq, depth, start)
  {
    hide SlotOk, Smaller;
  }

  lemma SlotDone(h: seq<nat>, len: nat, freq: seq<nat>, depth: seq<nat>, k: nat, j: nat)
    requires NodesOk(h, len, freq, depth) && LeastSon(h, len, freq, depth, k, j) && Smaller(freq, depth, h[k], h[j])
    ensures SlotOk(h, len, freq, depth, k)
  {
  }

  lemma SlotAlone(h: seq<nat>, len: nat, freq: seq<nat>, depth: seq<nat>, k: nat)
    requires NodesOk(h, len, freq, depth) && 1 <= k <= len < 2 * k
    ensures SlotOk(h, len, freq, depth, k)
  {
  }
}
