/** Divisibility and primes, for the factoring program. */
module Primes {
  import opened Arith

  predicate Divides(d: nat, n: nat)
    requires d > 0
  {
    n % d == 0
  }

  ghost predicate Prime(p: nat) {
    p >= 2 && forall d :: 2 <= d < p ==> !Divides(d, p)
  }

  /** No number from 2 to `f - 1` divides `n`. */
  ghost predicate NoDivisorBelow(n: nat, f: nat) {
    forall d :: 2 <= d < f ==> !Divides(d, n)
  }

  function Product(s: seq<nat>): nat { if s == [] then 1 else s[0] * Product(s[1..]) }

  function Power(n: nat, k: nat): nat { if k == 0 then 1 else n * Power(n, k - 1) }

  function Repeat(n: nat, k: nat): (s: seq<nat>)
    ensures |s| == k && forall i :: 0 <= i < k ==> s[i] == n
  {
    seq(k, _ => n)
  }

  predicate Sorted(s: seq<nat>) { forall i, j :: 0 <= i < j < |s| ==> s[i] <= s[j] }

  // ---------------------------------------------------------------- divisibility

  lemma DividesTimes(d: nat, n: nat, q: nat)
    requires d > 0 && n == d * q
    ensures Divides(d, n) && n / d == q
  {
    ModUnique(n, d, q, 0);
  }

  lemma Quotient(d: nat, n: nat)
    requires d > 0 && Divides(d, n)
    ensures n == d * (n / d)
  {
  }

  lemma DividesTrans(a: nat, b: nat, n: nat)
    requires a > 0 && b > 0 && Divides(a, b) && Divides(b, n)
    ensures Divides(a, n)
  {
    hide Divides;
    Quotient(a, b);
    Quotient(b, n);
    var q, r := b / a, n / b;
    assert n == (a * q) * r == a * (q * r);
    DividesTimes(a, n, q * r);
  }

  /** A least divisor is prime. */
  lemma LeastIsPrime(n: nat, f: nat)
    requires f >= 2 && Divides(f, n) && NoDivisorBelow(n, f)
    ensures Prime(f)
  {
    hide Divides;
    forall d | 2 <= d < f ensures !Divides(d, f) {
      if Divides(d, f) { DividesTrans(d, f, n); }
    }
  }

  lemma QuotientKeeps(n: nat, f: nat, q: nat)
    requires n == f * q && q > 0 && NoDivisorBelow(n, f)
    ensures NoDivisorBelow(q, f)
  {
    hide Divides;
    forall d | 2 <= d < f ensures !Divides(d, q) {
      if Divides(d, q) {
        Shuffled(q, f, n);
        DividesTrans(d, q, n);
      }
    }
  }

  lemma Shuffled(q: nat, f: nat, n: nat)
    requires q > 0 && n == f * q
    ensures Divides(q, n)
  {
    assert n == q * f;
    DividesTimes(q, n, f);
  }

  /** A number without divisors up to its square root is prime. */
  lemma NoSmallDivisor(n: nat, s: nat)
    requires n >= 2 && n < (s + 1) * (s + 1) && NoDivisorBelow(n, s + 1)
    ensures Prime(n)
  {
    hide Divides;
    forall d | 2 <= d < n ensures !Divides(d, n) {
      if Divides(d, n) {
        Quotient(d, n);
        var e := n / d;
        Cofactor(n, d, e, s);
        Shuffled(e, d, n);
      }
    }
  }

  lemma Cofactor(n: nat, d: nat, e: nat, s: nat)
    requires n == d * e && 2 <= d < n && n < (s + 1) * (s + 1)
    ensures 2 <= e && (d <= s || e <= s)
  {
    if d > s && e > s { TooLarge(d, e, s + 1); }
  }

  lemma TooLarge(d: nat, e: nat, s: nat)
    requires d >= s && e >= s
    ensures d * e >= s * s
  {
    MulMono(s, e, d);
    MulMono(s, d, s);
  }

  // ---------------------------------------------------------------- lists of factors

  lemma {:induction false} ProductAppend(a: seq<nat>, b: seq<nat>)
    ensures Product(a + b) == Product(a) * Product(b)
    decreases |a|
  {
    if a == [] {
      assert a + b == b;
    } else {
      assert (a + b)[1..] == a[1..] + b;
      ProductAppend(a[1..], b);
      assert a[0] * (Product(a[1..]) * Product(b)) == (a[0] * Product(a[1..])) * Product(b);
    }
  }

  lemma {:induction false} ProductRepeat(n: nat, k: nat)
    ensures Product(Repeat(n, k)) == Power(n, k)
  {
    if k > 0 {
      assert Repeat(n, k)[1..] == Repeat(n, k - 1);
      ProductRepeat(n, k - 1);
    }
  }

  lemma {:induction false} PowerTimes(a: nat, b: nat, k: nat)
    ensures Power(a * b, k) == Power(a, k) * Power(b, k)
  {
    if k > 0 {
      PowerTimes(a, b, k - 1);
      FourWay(a, b, Power(a, k - 1), Power(b, k - 1));
    }
  }

  lemma FourWay(a: nat, b: nat, x: nat, y: nat)
    ensures (a * b) * (x * y) == (a * x) * (b * y)
  {
    assert (a * b) * (x * y) == a * (b * (x * y));
    assert b * (x * y) == x * (b * y);
    assert a * (x * (b * y)) == (a * x) * (b * y);
  }

  lemma {:induction false} PowerAdd(n: nat, j: nat, k: nat)
    ensures Power(n, j + k) == Power(n, j) * Power(n, k)
  {
    if j > 0 {
      PowerAdd(n, j - 1, k);
      assert n * (Power(n, j - 1) * Power(n, k)) == (n * Power(n, j - 1)) * Power(n, k);
    }
  }

  /** The square of `s` to the power `k` is `s` to the power `2 * k`. */
  lemma PowerOfSquare(s: nat, k: nat)
    ensures Power(s * s, k) == Power(s, 2 * k)
  {
    PowerTimes(s, s, k);
    PowerAdd(s, k, k);
  }

  lemma {:induction false} PowerOfOne(k: nat)
    ensures Power(1, k) == 1
  {
    if k > 0 { PowerOfOne(k - 1); }
  }
}
