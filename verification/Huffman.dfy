/** The theory of Huffman's construction, as a run of merges over a set of weighted nodes.

    A run starts from the set of leaves; merge `i` replaces two nodes by the new node
    `base + i`, whose weight is the sum of theirs.  The runs in which every merge takes two
    nodes of least weight are shown to give code lengths of least total cost among all
    lengths that satisfy the Kraft inequality, hence among all binary trees on the leaves. */
module Huffman {
  import opened Arith
  import opened Bits
  import opened Sums

  datatype Merge = Merge(small: nat, next: nat)

  /** The nodes without a father after the first `i` merges. */
  ghost function Active(leaves: set<nat>, ms: seq<Merge>, base: nat, i: nat): set<nat>
    requires i <= |ms|
  {
    if i == 0 then leaves
    else Active(leaves, ms, base, i - 1) - {ms[i - 1].small, ms[i - 1].next} + {base + i - 1}
  }

  ghost predicate MergeOk(leaves: set<nat>, ms: seq<Merge>, base: nat, i: nat)
    requires i < |ms|
  {
    && ms[i].small != ms[i].next
    && ms[i].small in Active(leaves, ms, base, i)
    && ms[i].next in Active(leaves, ms, base, i)
  }

  ghost predicate Run(leaves: set<nat>, ms: seq<Merge>, base: nat) {
    && (forall x :: x in leaves ==> x < base)
    && (forall i :: 0 <= i < |ms| ==> MergeOk(leaves, ms, base, i))
  }

  /** A run that ends with a single tree. */
  ghost predicate Built(leaves: set<nat>, ms: seq<Merge>, base: nat) {
    Run(leaves, ms, base) && |ms| >= 1 && |leaves| == |ms| + 1
  }

  ghost predicate Weighted(ms: seq<Merge>, base: nat, w: nat -> nat) {
    forall i :: 0 <= i < |ms| ==> w(base + i) == w(ms[i].small) + w(ms[i].next)
  }

  /** Merge `i` takes two nodes of least weight. */
  ghost predicate TakesLeast(leaves: set<nat>, ms: seq<Merge>, base: nat, w: nat -> nat, i: nat)
    requires i < |ms|
  {
    && w(ms[i].small) <= w(ms[i].next)
    && forall x :: x in Active(leaves, ms, base, i) && x != ms[i].small ==> w(ms[i].next) <= w(x)
  }

  ghost predicate Greedy(leaves: set<nat>, ms: seq<Merge>, base: nat, w: nat -> nat) {
    forall i :: 0 <= i < |ms| ==> TakesLeast(leaves, ms, base, w, i)
  }

  /** Depth of every node of the finished tree. */
  ghost predicate Depths(ms: seq<Merge>, base: nat, d: nat -> nat) {
    && |ms| >= 1 && d(base + |ms| - 1) == 0
    && forall i :: 0 <= i < |ms| ==> d(ms[i].small) == d(base + i) + 1 && d(ms[i].next) == d(base + i) + 1
  }

  /** Total weight of the nodes created by the merges from `i` on. */
  ghost function MergeCost(w: nat -> nat, base: nat, i: nat, t: nat): nat
    decreases t - i
  {
    if i >= t then 0 else w(base + i) + MergeCost(w, base, i + 1, t)
  }

  ghost function Unit(max: nat, l: nat): nat { if l <= max then Pow2(max - l) else 0 }

  ghost function KraftTerm(l: nat -> nat, max: nat): nat -> int { (x: nat) => Unit(max, l(x)) }

  ghost function CostTerm(w: nat -> nat, l: nat -> nat): nat -> int { (x: nat) => w(x) * l(x) }

  ghost function Itself(l: nat -> nat): nat -> int { (x: nat) => l(x) }

  ghost function KraftOf(S: set<nat>, l: nat -> nat, max: nat): int { Sum(S, KraftTerm(l, max)) }

  ghost function Cost(S: set<nat>, w: nat -> nat, l: nat -> nat): int { Sum(S, CostTerm(w, l)) }

  // ---------------------------------------------------------------- shape of a run

  lemma {:induction false} ActiveBounds(leaves: set<nat>, ms: seq<Merge>, base: nat, i: nat)
    requires Run(leaves, ms, base) && i <= |ms|
    ensures forall x :: x in Active(leaves, ms, base, i) ==> x < base + i && (x < base ==> x in leaves)
    ensures |Active(leaves, ms, base, i)| == |leaves| - i
  {
    if i > 0 {
      ActiveBounds(leaves, ms, base, i - 1);
      var S := Active(leaves, ms, base, i - 1);
      assert MergeOk(leaves, ms, base, i - 1);
      assert |S - {ms[i - 1].small, ms[i - 1].next}| == |S| - 2 by {
        assert S - {ms[i - 1].small, ms[i - 1].next} == S - {ms[i - 1].small} - {ms[i - 1].next};
      }
    }
  }

  lemma OnlyRoot(leaves: set<nat>, ms: seq<Merge>, base: nat)
    requires Built(leaves, ms, base)
    ensures Active(leaves, ms, base, |ms|) == {base + |ms| - 1}
  {
    hide Run;
    ActiveBounds(leaves, ms, base, |ms|);
    var S, root := Active(leaves, ms, base, |ms|), base + |ms| - 1;
    assert root in S && |S| == 1;
    assert |S - {root}| == 0;
    assert S == S - {root} + {root};
  }

  /** The sum over the active nodes before a merge, from the sum after it. */
  lemma StepSum(leaves: set<nat>, ms: seq<Merge>, base: nat, i: nat, g: nat -> int)
    requires Run(leaves, ms, base) && i < |ms|
    ensures Sum(Active(leaves, ms, base, i), g)
            == Sum(Active(leaves, ms, base, i + 1), g) - g(base + i) + g(ms[i].small) + g(ms[i].next)
  {
    hide Sum;
    var S := Active(leaves, ms, base, i);
    var n, m := ms[i].small, ms[i].next;
    assert MergeOk(leaves, ms, base, i);
    ActiveBounds(leaves, ms, base, i);
    SumRemove(S, g, n);
    SumRemove(S - {n}, g, m);
    assert S - {n, m} == S - {n} - {m};
    SumAdd(S - {n, m}, g, base + i);
  }

  // ---------------------------------------------------------------- the tree that was built

  lemma {:induction false} CostFrom(leaves: set<nat>, ms: seq<Merge>, base: nat, w: nat -> nat, d: nat -> nat, i: nat)
    requires Built(leaves, ms, base) && Weighted(ms, base, w) && Depths(ms, base, d) && i <= |ms|
    ensures Cost(Active(leaves, ms, base, i), w, d) == MergeCost(w, base, i, |ms|)
    decreases |ms| - i
  {
    hide Run, Sum, CostTerm, Weighted, Depths;
    if i == |ms| {
      OnlyRoot(leaves, ms, base);
      RootIsFree(ms, base, w, d);
      SumZero(Active(leaves, ms, base, i), CostTerm(w, d));
    } else {
      CostFrom(leaves, ms, base, w, d, i + 1);
      StepSum(leaves, ms, base, i, CostTerm(w, d));
      FatherPays(ms, base, w, d, i);
    }
  }

  lemma RootIsFree(ms: seq<Merge>, base: nat, w: nat -> nat, d: nat -> nat)
    requires Depths(ms, base, d)
    ensures |ms| >= 1 && CostTerm(w, d)(base + |ms| - 1) == 0
  {
  }

  /** Moving two sons one level below their father adds the father's weight to the cost. */
  lemma FatherPays(ms: seq<Merge>, base: nat, w: nat -> nat, d: nat -> nat, i: nat)
    requires Weighted(ms, base, w) && Depths(ms, base, d) && i < |ms|
    ensures CostTerm(w, d)(ms[i].small) + CostTerm(w, d)(ms[i].next) == CostTerm(w, d)(base + i) + w(base + i)
  {
    OneDeeper(w(ms[i].small), w(ms[i].next), d(base + i));
  }

  lemma OneDeeper(a: nat, b: nat, k: nat)
    ensures a * (k + 1) + b * (k + 1) == (a + b) * k + (a + b)
  {
  }

  /** Total cost of the leaves = total weight of the inner nodes. */
  lemma CostIsMerges(leaves: set<nat>, ms: seq<Merge>, base: nat, w: nat -> nat, d: nat -> nat)
    requires Built(leaves, ms, base) && Weighted(ms, base, w) && Depths(ms, base, d)
    ensures Cost(leaves, w, d) == MergeCost(w, base, 0, |ms|)
  {
    CostFrom(leaves, ms, base, w, d, 0);
  }

  // ---------------------------------------------------------------- exchange

  function Swapped(l: nat -> nat, p: nat, q: nat): nat -> nat {
    (x: nat) => if x == p then l(q) else if x == q then l(p) else l(x)
  }

  lemma SwapSum(S: set<nat>, g: nat -> int, h: nat -> int, p: nat, q: nat)
    requires p in S && q in S && p != q
    requires forall x :: x in S && x != p && x != q ==> g(x) == h(x)
    ensures Sum(S, h) == Sum(S, g) - g(p) - g(q) + h(p) + h(q)
  {
    hide Sum;
    SumRemove(S, g, p);
    SumRemove(S - {p}, g, q);
    SumRemove(S, h, p);
    SumRemove(S - {p}, h, q);
    SumExt(S - {p} - {q}, g, h);
  }

  /** Giving the longer code to the lighter node does not cost more. */
  lemma SwapHelps(S: set<nat>, w: nat -> nat, l: nat -> nat, p: nat, q: nat, max: nat)
    requires p in S && q in S && w(p) <= w(q) && l(p) <= l(q)
    ensures Cost(S, w, Swapped(l, p, q)) <= Cost(S, w, l)
    ensures KraftOf(S, Swapped(l, p, q), max) == KraftOf(S, l, max)
  {
    hide Sum, Unit;
    var k := Swapped(l, p, q);
    var g, h := CostTerm(w, l), CostTerm(w, k);
    var u, v := KraftTerm(l, max), KraftTerm(k, max);
    if p == q {
      SumExt(S, g, h);
      SumExt(S, u, v);
    } else {
      SwapSum(S, g, h, p, q);
      SwapSum(S, u, v, p, q);
      Rearrange(w(p), w(q), l(p), l(q));
    }
  }

  lemma Rearrange(a: nat, b: nat, x: nat, y: nat)
    requires a <= b && x <= y
    ensures a * y + b * x <= a * x + b * y
  {
    MulMono(a, b, y - x);
    assert a * y == a * x + a * (y - x);
    assert b * y == b * x + b * (y - x);
  }

  // ---------------------------------------------------------------- longest codes

  ghost predicate Longest(S: set<nat>, l: nat -> nat, z: nat) {
    z in S && forall x :: x in S ==> l(x) <= l(z)
  }

  lemma {:induction false} LongestExists(S: set<nat>, l: nat -> nat) returns (z: nat)
    requires S != {}
    ensures Longest(S, l, z)
    decreases S
  {
    var x :| x in S;
    if S == {x} {
      z := x;
    } else {
      var y := LongestExists(S - {x}, l);
      z := if l(x) >= l(y) then x else y;
    }
  }

  ghost predicate Multiple(v: int, q: int) { exists c: int :: v == c * q }

  lemma {:induction false} SumIsMultiple(S: set<nat>, g: nat -> int, q: nat) returns (k: int)
    requires q > 0 && forall x :: x in S ==> Multiple(g(x), q)
    ensures Sum(S, g) == k * q
    decreases S
  {
    if S == {} {
      k := 0;
    } else {
      var x :| x in S;
      var c :| g(x) == c * q;
      var r := SumIsMultiple(S - {x}, g, q);
      SumRemove(S, g, x);
      k := c + r;
      Distribute(c, r, q);
    }
  }

  lemma HalfStep(a: int, b: int, q: nat)
    requires q > 0 && a * (2 * q) + q <= b * (2 * q)
    ensures a * (2 * q) + 2 * q <= b * (2 * q)
  {
    if a >= b { MulMono(b, a, 2 * q); }
    Distribute(a, 1, 2 * q);
    if a + 1 <= b { MulMono(a + 1, b, 2 * q); }
  }

  function Shortened(l: nat -> nat, z: nat): nat -> nat {
    (x: nat) => if x == z && l(z) > 0 then l(z) - 1 else l(x)
  }

  /** A longest code that stands alone can be shortened by one bit. */
  lemma ShortenLone(S: set<nat>, l: nat -> nat, z: nat, max: nat)
    requires Longest(S, l, z) && 0 < l(z) <= max
    requires forall x :: x in S && x != z ==> l(x) < l(z)
    requires KraftOf(S, l, max) <= Pow2(max)
    ensures KraftOf(S, Shortened(l, z), max) <= Pow2(max)
  {
    hide Sum;
    hide KraftTerm;
    var k := Shortened(l, z);
    var u, v := KraftTerm(l, max), KraftTerm(k, max);
    SumRemove(S, u, z);
    SumRemove(S, v, z);
    LoneTerms(S, l, z, max);
    OthersAreMultiples(S, l, z, max);
    SumExt(S - {z}, u, v);
    var q := Pow2(max - l(z));
    var a := SumIsMultiple(S - {z}, u, 2 * q);
    Pow2Add(l(z) - 1, max - l(z) + 1);
    HalfStep(a, Pow2(l(z) - 1), q);
  }

  lemma ShorterIsMultiple(max: nat, long: nat, short: nat)
    requires short < long <= max
    ensures Multiple(Pow2(max - short), 2 * Pow2(max - long))
  {
    hide Pow2;
    Pow2Add(long - short, max - long);
    Pow2Add(1, long - short - 1);
    Pow2Values();
    var a, q := Pow2(long - short - 1), Pow2(max - long);
    assert (2 * a) * q == a * (2 * q);
  }

  lemma LoneTerms(S: set<nat>, l: nat -> nat, z: nat, max: nat)
    requires Longest(S, l, z) && 0 < l(z) <= max
    requires forall x :: x in S && x != z ==> l(x) < l(z)
    ensures KraftTerm(l, max)(z) == Pow2(max - l(z))
    ensures KraftTerm(Shortened(l, z), max)(z) == 2 * Pow2(max - l(z))
    ensures forall x :: x in S - {z} ==> KraftTerm(l, max)(x) == KraftTerm(Shortened(l, z), max)(x)
  {
  }

  lemma OthersAreMultiples(S: set<nat>, l: nat -> nat, z: nat, max: nat)
    requires Longest(S, l, z) && 0 < l(z) <= max
    requires forall x :: x in S && x != z ==> l(x) < l(z)
    ensures forall x :: x in S - {z} ==> Multiple(KraftTerm(l, max)(x), 2 * Pow2(max - l(z)))
  {
    hide Multiple, Pow2;
    forall x | x in S - {z}
      ensures Multiple(KraftTerm(l, max)(x), 2 * Pow2(max - l(z)))
    {
      ShorterIsMultiple(max, l(z), l(x));
    }
  }

  lemma ShortenCosts(S: set<nat>, w: nat -> nat, l: nat -> nat, z: nat)
    requires z in S && 0 < l(z)
    ensures Cost(S, w, Shortened(l, z)) <= Cost(S, w, l)
    ensures Sum(S, Itself(Shortened(l, z))) == Sum(S, Itself(l)) - 1
  {
    hide Sum;
    var k := Shortened(l, z);
    var g, h := CostTerm(w, k), CostTerm(w, l);
    forall x | x in S ensures g(x) <= h(x) {
      MulMono(k(x), l(x), w(x));
    }
    SumBounded(S, g, h);
    var m, n := Itself(k), Itself(l);
    SumRemove(S, m, z);
    SumRemove(S, n, z);
    SumExt(S - {z}, m, n);
  }

  /** Two or more nodes cannot all have the empty code. */
  lemma SomeBits(S: set<nat>, l: nat -> nat, z: nat, max: nat)
    requires |S| >= 2 && Longest(S, l, z) && KraftOf(S, l, max) <= Pow2(max)
    ensures l(z) > 0
  {
    hide Sum;
    if l(z) == 0 {
      var u := KraftTerm(l, max);
      assert |S - {z}| >= 1;
      var y :| y in S - {z};
      SumRemove(S, u, z);
      SumRemove(S - {z}, u, y);
      SumNonneg(S - {z} - {y}, u);
    }
  }

  // ---------------------------------------------------------------- optimality

  ghost predicate AtMost(S: set<nat>, l: nat -> nat, max: nat) { forall x :: x in S ==> l(x) <= max }

  function Joined(l: nat -> nat, node: nat, len: nat): nat -> nat {
    (x: nat) => if x == node then len else l(x)
  }

  /** Joining two sons of equal length into their father keeps the Kraft sum and lowers the cost
      by the father's weight. */
  lemma JoinSons(leaves: set<nat>, ms: seq<Merge>, base: nat, w: nat -> nat, i: nat, l: nat -> nat, max: nat)
    requires Run(leaves, ms, base) && Weighted(ms, base, w) && i < |ms|
    requires 0 < l(ms[i].small) <= max && l(ms[i].next) == l(ms[i].small)
    ensures var k := Joined(l, base + i, l(ms[i].small) - 1);
            && Cost(Active(leaves, ms, base, i), w, l) == Cost(Active(leaves, ms, base, i + 1), w, k) + w(base + i)
            && KraftOf(Active(leaves, ms, base, i), l, max) == KraftOf(Active(leaves, ms, base, i + 1), k, max)
  {
    hide Sum, CostTerm, KraftTerm, Run, Weighted, Joined;
    var S := Active(leaves, ms, base, i);
    var k := Joined(l, base + i, l(ms[i].small) - 1);
    JoinTerms(leaves, ms, base, w, i, l, max);
    StepSum(leaves, ms, base, i, CostTerm(w, k));
    StepSum(leaves, ms, base, i, KraftTerm(k, max));
    SumExt(S, CostTerm(w, l), CostTerm(w, k));
    SumExt(S, KraftTerm(l, max), KraftTerm(k, max));
  }

  lemma JoinTerms(leaves: set<nat>, ms: seq<Merge>, base: nat, w: nat -> nat, i: nat, l: nat -> nat, max: nat)
    requires Run(leaves, ms, base) && Weighted(ms, base, w) && i < |ms|
    requires 0 < l(ms[i].small) <= max && l(ms[i].next) == l(ms[i].small)
    ensures var k := Joined(l, base + i, l(ms[i].small) - 1);
            && (forall x :: x in Active(leaves, ms, base, i) ==> CostTerm(w, l)(x) == CostTerm(w, k)(x))
            && (forall x :: x in Active(leaves, ms, base, i) ==> KraftTerm(l, max)(x) == KraftTerm(k, max)(x))
            && CostTerm(w, k)(ms[i].small) + CostTerm(w, k)(ms[i].next) == CostTerm(w, k)(base + i) + w(base + i)
            && KraftTerm(k, max)(ms[i].small) + KraftTerm(k, max)(ms[i].next) == KraftTerm(k, max)(base + i)
  {
    hide Joined, Active, Run, Pow2, CostTerm, KraftTerm;
    var k := Joined(l, base + i, l(ms[i].small) - 1);
    JoinedAgrees(leaves, ms, base, i, l);
    SameTerms(Active(leaves, ms, base, i), w, l, k, max);
    SonTerms(w, k, ms[i].small, ms[i].next, base + i, max);
  }

  lemma JoinedAgrees(leaves: set<nat>, ms: seq<Merge>, base: nat, i: nat, l: nat -> nat)
    requires Run(leaves, ms, base) && i < |ms| && 0 < l(ms[i].small)
    ensures var k := Joined(l, base + i, l(ms[i].small) - 1);
            && (forall x :: x in Active(leaves, ms, base, i) ==> k(x) == l(x))
            && k(base + i) == l(ms[i].small) - 1
            && k(ms[i].small) == l(ms[i].small) && k(ms[i].next) == l(ms[i].next)
  {
    hide Active;
    ActiveBounds(leaves, ms, base, i);
    assert MergeOk(leaves, ms, base, i);
  }

  lemma SameTerms(S: set<nat>, w: nat -> nat, l: nat -> nat, k: nat -> nat, max: nat)
    requires forall x :: x in S ==> k(x) == l(x)
    ensures forall x :: x in S ==> CostTerm(w, l)(x) == CostTerm(w, k)(x)
    ensures forall x :: x in S ==> KraftTerm(l, max)(x) == KraftTerm(k, max)(x)
  {
  }

  lemma SonTerms(w: nat -> nat, k: nat -> nat, n: nat, m: nat, dad: nat, max: nat)
    requires w(dad) == w(n) + w(m) && k(n) == k(dad) + 1 && k(m) == k(dad) + 1 && k(n) <= max
    ensures CostTerm(w, k)(n) + CostTerm(w, k)(m) == CostTerm(w, k)(dad) + w(dad)
    ensures KraftTerm(k, max)(n) + KraftTerm(k, max)(m) == KraftTerm(k, max)(dad)
  {
    OneDeeper(w(n), w(m), k(dad));
  }

  /** Exchanging lengths so that the two nodes about to be merged get the longest codes. */
  lemma BothLongest(S: set<nat>, w: nat -> nat, l: nat -> nat, a: nat, b: nat, z: nat, y: nat, max: nat)
    returns (k: nat -> nat)
    requires a in S && b in S && a != b && w(a) <= w(b)
    requires forall x :: x in S && x != a ==> w(b) <= w(x)
    requires Longest(S, l, z) && y in S && y != z && l(y) == l(z)
    ensures k(a) == l(z) && k(b) == l(z) && AtMost(S, k, l(z))
    ensures Cost(S, w, k) <= Cost(S, w, l) && KraftOf(S, k, max) == KraftOf(S, l, max)
  {
    hide Cost, KraftOf;
    var za, zb := if z == b || y == a then y else z, if z == b || y == a then z else y;
    var k1 := Swapped(l, a, za);
    SwapHelps(S, w, l, a, za, max);
    k := Swapped(k1, b, zb);
    SwapHelps(S, w, k1, b, zb, max);
  }

  /** One merge further: the cost of any admissible lengths drops by no more than the new node's weight. */
  lemma Descend(leaves: set<nat>, ms: seq<Merge>, base: nat, w: nat -> nat, i: nat, l: nat -> nat, z: nat, y: nat,
                max: nat)
    returns (k: nat -> nat)
    requires Built(leaves, ms, base) && Weighted(ms, base, w) && Greedy(leaves, ms, base, w) && i < |ms|
    requires var S := Active(leaves, ms, base, i);
             Longest(S, l, z) && y in S && y != z && l(y) == l(z) && 0 < l(z) <= max
    ensures AtMost(Active(leaves, ms, base, i + 1), k, max)
    ensures KraftOf(Active(leaves, ms, base, i + 1), k, max) == KraftOf(Active(leaves, ms, base, i), l, max)
    ensures Cost(Active(leaves, ms, base, i + 1), w, k) + w(base + i) <= Cost(Active(leaves, ms, base, i), w, l)
  {
    hide Run, Weighted, KraftOf, Cost, Active, Greedy, AtMost;
    var S := Active(leaves, ms, base, i);
    StepFacts(leaves, ms, base, w, i);
    var s := BothLongest(S, w, l, ms[i].small, ms[i].next, z, y, max);
    JoinSons(leaves, ms, base, w, i, s, max);
    k := Joined(s, base + i, l(z) - 1);
    NextBounds(leaves, ms, base, i, s, l(z), max);
  }

  lemma {:induction false} LowerBound(leaves: set<nat>, ms: seq<Merge>, base: nat, w: nat -> nat, i: nat,
                                      l: nat -> nat, max: nat)
    requires Built(leaves, ms, base) && Weighted(ms, base, w) && Greedy(leaves, ms, base, w) && i <= |ms|
    requires AtMost(Active(leaves, ms, base, i), l, max)
    requires KraftOf(Active(leaves, ms, base, i), l, max) <= Pow2(max)
    ensures Cost(Active(leaves, ms, base, i), w, l) >= MergeCost(w, base, i, |ms|)
    decreases |ms| - i, Sum(Active(leaves, ms, base, i), Itself(l))
  {
    hide Run, Weighted, KraftOf, Pow2, Sum, Itself, Cost, Active, Greedy;
    var S := Active(leaves, ms, base, i);
    ItselfPositive(S, l);
    if i == |ms| {
      CostPositive(S, w, l);
    } else {
      StepFacts(leaves, ms, base, w, i);
      var z := LongestExists(S, l);
      SomeBits(S, l, z, max);
      if y :| y in S && y != z && l(y) == l(z) {
        var k := Descend(leaves, ms, base, w, i, l, z, y, max);
        LowerBound(leaves, ms, base, w, i + 1, k, max);
      } else {
        ShortenLone(S, l, z, max);
        ShortenCosts(S, w, l, z);
        ItselfPositive(S, Shortened(l, z));
        LowerBound(leaves, ms, base, w, i, Shortened(l, z), max);
      }
    }
  }

  lemma ItselfPositive(S: set<nat>, l: nat -> nat)
    ensures Sum(S, Itself(l)) >= 0
  {
    SumNonneg(S, Itself(l));
  }

  lemma CostPositive(S: set<nat>, w: nat -> nat, l: nat -> nat)
    ensures Cost(S, w, l) >= 0
  {
    forall x | x in S ensures CostTerm(w, l)(x) >= 0 {
      MulMono(0, w(x), l(x));
    }
    SumNonneg(S, CostTerm(w, l));
  }

  lemma StepFacts(leaves: set<nat>, ms: seq<Merge>, base: nat, w: nat -> nat, i: nat)
    requires Built(leaves, ms, base) && Greedy(leaves, ms, base, w) && i < |ms|
    ensures MergeOk(leaves, ms, base, i) && TakesLeast(leaves, ms, base, w, i)
    ensures |Active(leaves, ms, base, i)| >= 2 && Active(leaves, ms, base, i) != {}
  {
    ActiveBounds(leaves, ms, base, i);
  }

  lemma NextBounds(leaves: set<nat>, ms: seq<Merge>, base: nat, i: nat, k: nat -> nat, len: nat, max: nat)
    requires i < |ms| && 0 < len <= max && AtMost(Active(leaves, ms, base, i), k, len)
    ensures AtMost(Active(leaves, ms, base, i + 1), Joined(k, base + i, len - 1), max)
  {
  }

  /** Huffman's construction is optimal: no lengths allowed by the Kraft inequality cost less. */
  lemma Optimal(leaves: set<nat>, ms: seq<Merge>, base: nat, w: nat -> nat, d: nat -> nat, l: nat -> nat, max: nat)
    requires Built(leaves, ms, base) && Weighted(ms, base, w) && Greedy(leaves, ms, base, w) && Depths(ms, base, d)
    requires AtMost(leaves, l, max) && KraftOf(leaves, l, max) <= Pow2(max)
    ensures Cost(leaves, w, d) <= Cost(leaves, w, l)
  {
    CostIsMerges(leaves, ms, base, w, d);
    LowerBound(leaves, ms, base, w, 0, l, max);
  }

  // ---------------------------------------------------------------- binary trees

  datatype Tree = Leaf(sym: nat) | Node(left: Tree, right: Tree)

  ghost function Symbols(t: Tree): set<nat> {
    match t
    case Leaf(s) => {s}
    case Node(l, r) => Symbols(l) + Symbols(r)
  }

  /** Every symbol labels one leaf. */
  ghost predicate Proper(t: Tree) {
    match t
    case Leaf(s) => true
    case Node(l, r) => Proper(l) && Proper(r) && Symbols(l) !! Symbols(r)
  }

  ghost function Height(t: Tree): nat {
    match t
    case Leaf(_) => 0
    case Node(l, r) => 1 + if Height(l) >= Height(r) then Height(l) else Height(r)
  }

  /** Depth of the leaf labelled `x`. */
  ghost function LeafDepth(t: Tree, x: nat): nat {
    match t
    case Leaf(_) => 0
    case Node(l, r) => 1 + if x in Symbols(l) then LeafDepth(l, x) else LeafDepth(r, x)
  }

  ghost function LeafDepths(t: Tree): nat -> nat { (x: nat) => LeafDepth(t, x) }

  lemma {:induction false} SumDisjoint(S: set<nat>, T: set<nat>, f: nat -> int)
    requires S !! T
    ensures Sum(S + T, f) == Sum(S, f) + Sum(T, f)
    decreases S
  {
    if S == {} {
      assert S + T == T;
    } else {
      var x :| x in S;
      SumRemove(S, f, x);
      SumRemove(S + T, f, x);
      assert S + T - {x} == S - {x} + T;
      SumDisjoint(S - {x}, T, f);
    }
  }

  lemma {:induction false} DepthBound(t: Tree, x: nat)
    ensures LeafDepth(t, x) <= Height(t)
  {
    match t
    case Leaf(_) =>
    case Node(l, r) => DepthBound(l, x); DepthBound(r, x);
  }

  lemma {:induction false} TreeKraftAt(t: Tree, extra: nat, max: nat)
    requires Proper(t) && extra + Height(t) <= max
    ensures Sum(Symbols(t), (x: nat) => Unit(max, extra + LeafDepth(t, x))) == Pow2(max - extra)
    decreases t
  {
    hide Sum;
    var f: nat -> int := (x: nat) => Unit(max, extra + LeafDepth(t, x));
    match t
    case Leaf(s) =>
      SumRemove({s}, f, s);
      SumZero({s} - {s}, f);
    case Node(l, r) =>
      TreeKraftAt(l, extra + 1, max);
      TreeKraftAt(r, extra + 1, max);
      SumDisjoint(Symbols(l), Symbols(r), f);
      SumExt(Symbols(l), f, (x: nat) => Unit(max, extra + 1 + LeafDepth(l, x)));
      SumExt(Symbols(r), f, (x: nat) => Unit(max, extra + 1 + LeafDepth(r, x)));
  }

  /** The leaf depths of a binary tree fill the Kraft sum exactly. */
  lemma TreeKraft(t: Tree)
    requires Proper(t)
    ensures KraftOf(Symbols(t), LeafDepths(t), Height(t)) == Pow2(Height(t))
  {
    hide Sum;
    TreeKraftAt(t, 0, Height(t));
    SumExt(Symbols(t), KraftTerm(LeafDepths(t), Height(t)), (x: nat) => Unit(Height(t), 0 + LeafDepth(t, x)));
  }

  lemma DepthsBound(t: Tree)
    ensures AtMost(Symbols(t), LeafDepths(t), Height(t))
  {
    forall x | x in Symbols(t) ensures LeafDepths(t)(x) <= Height(t) {
      DepthBound(t, x);
    }
  }
}
