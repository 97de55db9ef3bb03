/** Sums of a function over a finite set of naturals, and over an initial range. */
module Sums {

  ghost function Sum(S: set<nat>, f: nat -> int): int
  {
    if S == {} then 0 else
      var x :| x in S;
      f(x) + Sum(S - {x}, f)
  }

  lemma {:induction false} SumRemove(S: set<nat>, f: nat -> int, x: nat)
    requires x in S
    ensures Sum(S, f) == f(x) + Sum(S - {x}, f)
  {
    var y :| y in S && Sum(S, f) == f(y) + Sum(S - {y}, f);
    if y != x {
      SumRemove(S - {y}, f, x);
      SumRemove(S - {x}, f, y);
      assert S - {y} - {x} == S - {x} - {y};
    }
  }

  lemma SumAdd(S: set<nat>, f: nat -> int, x: nat)
    requires x !in S
    ensures Sum(S + {x}, f) == f(x) + Sum(S, f)
  {
    SumRemove(S + {x}, f, x);
    assert S + {x} - {x} == S;
  }

  lemma {:induction false} SumExt(S: set<nat>, f: nat -> int, g: nat -> int)
    requires forall x :: x in S ==> f(x) == g(x)
    ensures Sum(S, f) == Sum(S, g)
  {
    if S != {} {
      var x :| x in S;
      SumRemove(S, f, x);
      SumRemove(S, g, x);
      SumExt(S - {x}, f, g);
    }
  }

  lemma {:induction false} SumPlus(S: set<nat>, f: nat -> int, g: nat -> int, h: nat -> int)
    requires forall x :: x in S ==> h(x) == f(x) + g(x)
    ensures Sum(S, h) == Sum(S, f) + Sum(S, g)
  {
    if S != {} {
      var x :| x in S;
      SumRemove(S, f, x);
      SumRemove(S, g, x);
      SumRemove(S, h, x);
      SumPlus(S - {x}, f, g, h);
    }
  }

  /** Elements on which `f` vanishes do not contribute. */
  lemma {:induction false} SumWiden(S: set<nat>, T: set<nat>, f: nat -> int)
    requires S <= T && forall x :: x in T - S ==> f(x) == 0
    ensures Sum(S, f) == Sum(T, f)
    decreases T
  {
    if S != T {
      var x :| x in T && x !in S;
      SumRemove(T, f, x);
      SumWiden(S, T - {x}, f);
    }
  }

  lemma {:induction false} SumBounded(S: set<nat>, f: nat -> int, g: nat -> int)
    requires forall x :: x in S ==> f(x) <= g(x)
    ensures Sum(S, f) <= Sum(S, g)
  {
    if S != {} {
      var x :| x in S;
      SumRemove(S, f, x);
      SumRemove(S, g, x);
      SumBounded(S - {x}, f, g);
    }
  }

  lemma SumNonneg(S: set<nat>, f: nat -> int)
    requires forall x :: x in S ==> f(x) >= 0
    ensures Sum(S, f) >= 0
  {
    SumBounded(S, _ => 0, f);
    SumZero(S, _ => 0);
  }

  lemma {:induction false} SumZero(S: set<nat>, f: nat -> int)
    requires forall x :: x in S ==> f(x) == 0
    ensures Sum(S, f) == 0
  {
    if S != {} {
      var x :| x in S;
      SumRemove(S, f, x);
      SumZero(S - {x}, f);
    }
  }

  /** f(0) + ... + f(n - 1) */
  function SumTo(n: nat, f: nat -> int): int {
    if n == 0 then 0 else SumTo(n - 1, f) + f(n - 1)
  }

  lemma SumToStep(n: nat, f: nat -> int)
    ensures SumTo(0, f) == 0 && SumTo(n + 1, f) == SumTo(n, f) + f(n)
  {
  }

  function Below(n: nat): (s: set<nat>)
    ensures forall x: nat :: x in s <==> x < n
  {
    if n == 0 then {} else Below(n - 1) + {n - 1}
  }

  lemma {:induction false} SumRange(n: nat, f: nat -> int)
    ensures Sum(Below(n), f) == SumTo(n, f)
  {
    if n > 0 {
      SumRange(n - 1, f);
      assert Below(n) == Below(n - 1) + {n - 1};
      SumAdd(Below(n - 1), f, n - 1);
    }
  }

  lemma {:induction false} SumToExt(n: nat, f: nat -> int, g: nat -> int)
    requires forall x: nat :: x < n ==> f(x) == g(x)
    ensures SumTo(n, f) == SumTo(n, g)
  {
    if n > 0 { SumToExt(n - 1, f, g); }
  }

  /** Changing `f` at one point below `n` changes the sum by the difference. */
  lemma {:induction false} SumToUpdate(n: nat, f: nat -> int, g: nat -> int, k: nat)
    requires k < n && forall x: nat :: x < n && x != k ==> f(x) == g(x)
    ensures SumTo(n, g) == SumTo(n, f) - f(k) + g(k)
  {
    if k == n - 1 {
      SumToExt(n - 1, f, g);
    } else {
      SumToUpdate(n - 1, f, g, k);
    }
  }

  lemma {:induction false} SumToPlus(n: nat, f: nat -> int, g: nat -> int, h: nat -> int)
    requires forall x: nat :: x < n ==> h(x) == f(x) + g(x)
    ensures SumTo(n, h) == SumTo(n, f) + SumTo(n, g)
  {
    if n > 0 { SumToPlus(n - 1, f, g, h); }
  }

  lemma {:induction false} SumToBounded(n: nat, f: nat -> int, g: nat -> int)
    requires forall x: nat :: x < n ==> f(x) <= g(x)
    ensures SumTo(n, f) <= SumTo(n, g)
  {
    if n > 0 { SumToBounded(n - 1, f, g); }
  }
}
