/** The sliding window of the string matcher and its chains of strings with equal keys. */
module Windows {
  import opened Bits
  import opened Hashing

  const WSIZE: nat := 0x8000
  const WINDOW_SIZE: nat := 0x1_0000      // 2 * WSIZE
  const MAX_COMMON: nat := 258            // MAX_MATCH
  const MIN_LOOKAHEAD: nat := 262         // MAX_MATCH + MIN_MATCH + 1
  const MAX_DIST: nat := 32506            // WSIZE - MIN_LOOKAHEAD

  /** Comparisons near the end of the input run up to MAX_MATCH bytes past the window proper. */
  const WINDOW_SPAN: nat := 0x1_0000 + 258

  function KeyAt(hb: nat, w: seq<byte>, p: nat): nat
    requires p + 2 < |w|
  {
    Hash3(hb, w[p], w[p + 1], w[p + 2])
  }

  /** No position between `q` and `p` has key `h`. */
  ghost predicate NoneBetween(hb: nat, w: seq<byte>, q: nat, p: nat, h: nat) {
    forall r :: q < r < p && r + 2 < |w| ==> KeyAt(hb, w, r) != h
  }

  /** `q` is the latest position before `p` with the key of `p`, or 0 when there is none from 1 on. */
  ghost predicate LinkOk(hb: nat, w: seq<byte>, p: nat, q: nat) {
    && p + 2 < |w| && (q == 0 || (q < p && KeyAt(hb, w, q) == KeyAt(hb, w, p)))
    && NoneBetween(hb, w, q, p, KeyAt(hb, w, p))
  }

  /** `q` is the latest position before `s` with key `h`, or 0 when there is none from 1 on. */
  ghost predicate HeadOk(hb: nat, w: seq<byte>, s: nat, h: nat, q: nat) {
    && (q == 0 || (q < s && q + 2 < |w| && KeyAt(hb, w, q) == h))
    && NoneBetween(hb, w, q, s, h)
  }

  /** The chain heads, when the strings before `s` are in the dictionary. */
  ghost predicate HeadsOk(hb: nat, w: seq<byte>, s: nat, head: seq<nat>) {
    |head| == Pow2(hb) && forall h :: 0 <= h < |head| ==> HeadOk(hb, w, s, h, head[h])
  }

  /** The links of the last WSIZE strings before `s`. */
  ghost predicate ChainsOk(hb: nat, w: seq<byte>, s: nat, prev: seq<nat>) {
    |prev| == WSIZE && forall p :: 0 <= p < s && s - WSIZE <= p ==> LinkOk(hb, w, p, prev[p % WSIZE])
  }

  // ---------------------------------------------------------------- inserting a string

  lemma HeadsInsert(hb: nat, w: seq<byte>, s: nat, head: seq<nat>)
    requires HeadsOk(hb, w, s, head) && s + 2 < |w|
    ensures KeyAt(hb, w, s) < |head| && HeadsOk(hb, w, s + 1, head[KeyAt(hb, w, s) := s])
  {
    hide Hash3;
    var k := KeyAt(hb, w, s);
    var head' := head[k := s];
    forall h | 0 <= h < |head'| ensures HeadOk(hb, w, s + 1, h, head'[h]) {
      assert HeadOk(hb, w, s, h, head[h]);
    }
  }

  lemma OtherSlot(p: nat, s: nat)
    requires p < s < p + WSIZE
    ensures p % WSIZE != s % WSIZE
  {
  }

  lemma ChainsInsert(hb: nat, w: seq<byte>, s: nat, prev: seq<nat>, q: nat)
    requires ChainsOk(hb, w, s, prev) && LinkOk(hb, w, s, q)
    ensures ChainsOk(hb, w, s + 1, prev[s % WSIZE := q])
  {
    hide LinkOk;
    var prev' := prev[s % WSIZE := q];
    forall p | 0 <= p < s + 1 && s + 1 - WSIZE <= p ensures LinkOk(hb, w, p, prev'[p % WSIZE]) {
      if p < s { OtherSlot(p, s); }
    }
  }

  // ---------------------------------------------------------------- changing the window

  ghost predicate AgreeTo(w: seq<byte>, v: seq<byte>, n: nat) {
    |w| == |v| && n <= |w| && forall i :: 0 <= i < n ==> w[i] == v[i]
  }

  lemma KeyKept(hb: nat, w: seq<byte>, v: seq<byte>, s: nat, p: nat)
    requires AgreeTo(w, v, s + 2) && p < s
    ensures p + 2 < |w| && KeyAt(hb, w, p) == KeyAt(hb, v, p)
  {
    assert w[p] == v[p] && w[p + 1] == v[p + 1] && w[p + 2] == v[p + 2];
  }

  lemma NoneKept(hb: nat, w: seq<byte>, v: seq<byte>, s: nat, q: nat, p: nat, h: nat)
    requires NoneBetween(hb, w, q, p, h) && p <= s && (s == 0 || AgreeTo(w, v, s + 2))
    ensures NoneBetween(hb, v, q, p, h)
  {
    hide Hash3;
    forall r | q < r < p && r + 2 < |v| ensures KeyAt(hb, v, r) != h {
      KeyKept(hb, w, v, s, r);
    }
  }

  /** Bytes past the strings in the dictionary can be overwritten. */
  lemma HeadsKept(hb: nat, w: seq<byte>, v: seq<byte>, s: nat, head: seq<nat>)
    requires HeadsOk(hb, w, s, head) && (s == 0 || AgreeTo(w, v, s + 2))
    ensures HeadsOk(hb, v, s, head)
  {
    hide Hash3;
    forall h | 0 <= h < |head| ensures HeadOk(hb, v, s, h, head[h]) {
      assert HeadOk(hb, w, s, h, head[h]);
      NoneKept(hb, w, v, s, head[h], s, h);
      if head[h] != 0 { KeyKept(hb, w, v, s, head[h]); }
    }
  }

  lemma ChainsKept(hb: nat, w: seq<byte>, v: seq<byte>, s: nat, prev: seq<nat>)
    requires ChainsOk(hb, w, s, prev) && (s == 0 || AgreeTo(w, v, s + 2))
    ensures ChainsOk(hb, v, s, prev)
  {
    hide Hash3;
    forall p | 0 <= p < s && s - WSIZE <= p ensures LinkOk(hb, v, p, prev[p % WSIZE]) {
      var q := prev[p % WSIZE];
      assert LinkOk(hb, w, p, q);
      KeyKept(hb, w, v, s, p);
      NoneKept(hb, w, v, s, q, p, KeyAt(hb, w, p));
      if q != 0 { KeyKept(hb, w, v, s, q); }
    }
  }

  /** The upper half of the window has moved to the lower one. */
  ghost predicate Slid(w: seq<byte>, v: seq<byte>) {
    |w| == |v| && |w| >= WINDOW_SIZE && forall i :: 0 <= i < WSIZE ==> v[i] == w[i + WSIZE]
  }

  /** A position after the window has moved, 0 when it has left. */
  function Moved(m: nat): nat { if m >= WSIZE then m - WSIZE else 0 }

  ghost predicate AllMoved(a: seq<nat>, b: seq<nat>) {
    |a| == |b| && forall i :: 0 <= i < |a| ==> b[i] == Moved(a[i])
  }

  lemma KeySlid(hb: nat, w: seq<byte>, v: seq<byte>, p: nat)
    requires Slid(w, v) && WSIZE <= p && p + 2 < WINDOW_SIZE
    ensures KeyAt(hb, v, p - WSIZE) == KeyAt(hb, w, p)
  {
    hide Hash3;
    var i := p - WSIZE;
    assert v[i] == w[i + WSIZE] && v[i + 1] == w[i + 1 + WSIZE] && v[i + 2] == w[i + 2 + WSIZE];
  }

  lemma NoneSlid(hb: nat, w: seq<byte>, v: seq<byte>, q: nat, p: nat, h: nat)
    requires NoneBetween(hb, w, q, p, h) && Slid(w, v) && WSIZE <= p && p + 1 < WINDOW_SIZE
    ensures NoneBetween(hb, v, Moved(q), p - WSIZE, h)
  {
    hide Hash3;
    forall r | Moved(q) < r < p - WSIZE && r + 2 < |v| ensures KeyAt(hb, v, r) != h {
      KeySlid(hb, w, v, r + WSIZE);
    }
  }

  lemma HeadsSlid(hb: nat, w: seq<byte>, v: seq<byte>, s: nat, head: seq<nat>, head': seq<nat>)
    requires HeadsOk(hb, w, s, head) && Slid(w, v) && AllMoved(head, head') && WSIZE <= s && s + 2 <= WINDOW_SIZE
    ensures HeadsOk(hb, v, s - WSIZE, head')
  {
    hide Hash3;
    forall h | 0 <= h < |head'| ensures HeadOk(hb, v, s - WSIZE, h, head'[h]) {
      assert HeadOk(hb, w, s, h, head[h]);
      NoneSlid(hb, w, v, head[h], s, h);
      if head[h] >= WSIZE { KeySlid(hb, w, v, head[h]); }
    }
  }

  lemma LinkSlid(hb: nat, w: seq<byte>, v: seq<byte>, p: nat, q: nat)
    requires LinkOk(hb, w, p, q) && Slid(w, v) && WSIZE <= p && p + 2 < WINDOW_SIZE
    ensures LinkOk(hb, v, p - WSIZE, Moved(q))
  {
    hide Hash3;
    KeySlid(hb, w, v, p);
    NoneSlid(hb, w, v, q, p, KeyAt(hb, w, p));
    if q >= WSIZE { KeySlid(hb, w, v, q); }
  }

  lemma ChainsSlid(hb: nat, w: seq<byte>, v: seq<byte>, s: nat, prev: seq<nat>, prev': seq<nat>)
    requires ChainsOk(hb, w, s, prev) && Slid(w, v) && AllMoved(prev, prev') && WSIZE <= s && s + 2 <= WINDOW_SIZE
    ensures ChainsOk(hb, v, s - WSIZE, prev')
  {
    hide LinkOk;
    forall p | 0 <= p < s - WSIZE && s - WSIZE - WSIZE <= p ensures LinkOk(hb, v, p, prev'[p % WSIZE]) {
      assert (p + WSIZE) % WSIZE == p % WSIZE;
      assert LinkOk(hb, w, p + WSIZE, prev[(p + WSIZE) % WSIZE]);
      LinkSlid(hb, w, v, p + WSIZE, prev[p % WSIZE]);
    }
  }

  // ---------------------------------------------------------------- common prefixes

  ghost predicate SameByte(w: seq<byte>, a: nat, b: nat, j: nat) {
    a + j < |w| && b + j < |w| && w[a + j] == w[b + j]
  }

  /** The `n` bytes at `a` and at `b` are the same. */
  ghost predicate Repeats(w: seq<byte>, a: nat, b: nat, n: nat) { forall j :: 0 <= j < n ==> SameByte(w, a, b, j) }

  /** How many of the next `n` bytes at `a` and at `b` agree. */
  function Common(w: seq<byte>, a: nat, b: nat, n: nat): (c: nat)
    requires a + n <= |w| && b + n <= |w|
    ensures c <= n && Repeats(w, a, b, c) && (c < n ==> w[a + c] != w[b + c])
    decreases n
  {
    if n == 0 || w[a] != w[b] then 0
    else
      var c := Common(w, a + 1, b + 1, n - 1);
      assert forall j :: 0 < j < c + 1 && SameByte(w, a + 1, b + 1, j - 1) ==> SameByte(w, a, b, j);
      c + 1
  }

  lemma CommonIs(w: seq<byte>, a: nat, b: nat, n: nat, c: nat)
    requires a + n <= |w| && b + n <= |w| && c <= n
    requires Repeats(w, a, b, c) && (c < n ==> w[a + c] != w[b + c])
    ensures Common(w, a, b, n) == c
  {
    var d := Common(w, a, b, n);
    assert d < c ==> SameByte(w, a, b, d);
    assert c < d ==> SameByte(w, a, b, c);
  }

  /** The positions that a search from `cur` looks at: `n` at most, all links above `limit`. */
  function Candidates(prev: seq<nat>, cur: nat, limit: nat, n: nat): (r: seq<nat>)
    requires |prev| == WSIZE
    decreases n
  {
    if n == 0 then []
    else if prev[cur % WSIZE] > limit then [cur] + Candidates(prev, prev[cur % WSIZE], limit, n - 1)
    else [cur]
  }

  /** No candidate has a longer common prefix with `s` than `best`. */
  ghost predicate NoneLonger(w: seq<byte>, s: nat, cs: seq<nat>, best: nat) {
    s + MAX_COMMON <= |w| &&
    forall i :: 0 <= i < |cs| ==> cs[i] < s && Common(w, s, cs[i], MAX_COMMON) <= best
  }

  // ---------------------------------------------------------------- chains

  /** Positions that a search visits strictly decrease, reach down to the limit, and share the key of `s`. */
  ghost predicate ChainOf(hb: nat, w: seq<byte>, s: nat, limit: nat, cs: seq<nat>) {
    && s + 2 < |w| && (forall i :: 0 <= i < |cs| ==> 0 < cs[i] && limit <= cs[i] < s)
    && (forall i :: 0 <= i < |cs| ==> KeyAt(hb, w, cs[i]) == KeyAt(hb, w, s))
    && forall i, j :: 0 <= i < j < |cs| ==> cs[i] > cs[j]
  }

  /** The chain from `cur` down is a chain of the strings with the key of `s`, and when it was not cut
      short it has all of them. */
  lemma {:induction false} CandidatesAre(hb: nat, w: seq<byte>, s: nat, prev: seq<nat>, cur: nat, limit: nat, n: nat)
    requires ChainsOk(hb, w, s + 1, prev) && s + 2 < |w| && s - MAX_DIST <= limit <= cur < s && 0 < cur
    requires KeyAt(hb, w, cur) == KeyAt(hb, w, s)
    ensures var cs := Candidates(prev, cur, limit, n);
            && ChainOf(hb, w, s, limit, cs) && (|cs| > 0 ==> cs[0] == cur)
            && (|cs| < n ==> forall r :: limit < r <= cur && KeyAt(hb, w, r) == KeyAt(hb, w, s) ==> r in cs)
    decreases n
  {
    hide Hash3;
    if n > 0 {
      var q := prev[cur % WSIZE];
      assert LinkOk(hb, w, cur, q);
      if q > limit {
        CandidatesAre(hb, w, s, prev, q, limit, n - 1);
      }
    }
  }

  lemma SameKey(hb: nat, w: seq<byte>, a: nat, b: nat)
    requires a + 2 < |w| && b + 2 < |w| && Repeats(w, a, b, 3)
    ensures KeyAt(hb, w, a) == KeyAt(hb, w, b)
  {
    assert SameByte(w, a, b, 0) && SameByte(w, a, b, 1) && SameByte(w, a, b, 2);
  }

  /** When the chain was followed to its end, no string in reach matches more than the best candidate. */
  lemma LongestOfAll(hb: nat, w: seq<byte>, s: nat, prev: seq<nat>, cur: nat, limit: nat, n: nat, best: nat, r: nat)
    requires ChainsOk(hb, w, s + 1, prev) && s + MAX_COMMON <= |w|
    requires s - MAX_DIST <= limit <= cur < s && 0 < cur && LinkOk(hb, w, s, cur)
    requires NoneLonger(w, s, Candidates(prev, cur, limit, n), best) && |Candidates(prev, cur, limit, n)| < n
    requires limit < r < s && best >= 2
    ensures Common(w, s, r, MAX_COMMON) <= best
  {
    hide Hash3, Candidates, Common;
    if Common(w, s, r, MAX_COMMON) > best {
      assert Repeats(w, s, r, 3);
      SameKey(hb, w, s, r);
      CandidatesAre(hb, w, s, prev, cur, limit, n);
    }
  }
}
