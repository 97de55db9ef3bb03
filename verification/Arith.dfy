/** Facts about multiplication, division and remainder used across the project. */
module Arith {

  lemma {:induction false} MulStrict(a: int, b: int, p: nat)
    requires a < b && p > 0
    ensures a * p < b * p
  {
    if p > 1 { MulStrict(a, b, p - 1); }
  }

  lemma {:induction false} MulMono(a: int, b: int, p: nat)
    requires a <= b
    ensures a * p <= b * p
  {
    if p > 0 { MulMono(a, b, p - 1); }
  }

  lemma ModUnique(a: int, p: nat, q: int, r: nat)
    requires r < p && a == p * q + r
    ensures a / p == q && a % p == r
  {
    var d := a / p - q;
    assert a == p * (a / p) + a % p;
    assert p * d == p * (a / p) - p * q;
    assert d >= 1 ==> p * d >= p * 1;
    assert d <= -1 ==> p * d <= p * (-1);
  }

  lemma DivBound(v: nat, p: nat, q: nat)
    requires p > 0 && v < q * p
    ensures v / p < q
  {
    assert v == (v / p) * p + v % p;
    if v / p >= q { MulMono(q, v / p, p); }
  }

  /** Scaling commutes with remainder. */
  lemma ModScale(v: nat, p: nat, q: nat)
    requires p > 0 && q > 0
    ensures q * p > 0 && (v * p) % (q * p) == (v % q) * p
  {
    var d, m := v / q, v % q;
    MulStrict(m, q, p);
    assert m * p >= 0 by { MulMono(0, m, p); }
    assert q * p > 0 by { MulStrict(0, q, p); }
    calc {
      v * p;
      (q * d + m) * p;
      { Distribute(q * d, m, p); }
      (q * d) * p + m * p;
      { Shuffle(q, d, p); }
      (q * p) * d + m * p;
    }
    ModUnique(v * p, q * p, d, m * p);
  }

  lemma Distribute(a: int, b: int, p: int)
    ensures (a + b) * p == a * p + b * p
  {
  }

  lemma Shuffle(a: int, b: int, c: int)
    ensures (a * b) * c == (a * c) * b
  {
  }

  lemma ModHalves(a: nat, p: nat, m: nat)
    requires p > 0 && m == 2 * p
    ensures (a % m) % 2 == a % 2
    ensures (a % m) / 2 == (a / 2) % p
  {
    var q, r := (a / 2) / p, (a / 2) % p;
    assert a / 2 == p * q + r;
    assert (2 * p) * q == 2 * (p * q);
    ModUnique(a, m, q, 2 * r + a % 2);
  }

  lemma SmallMod(x: nat, m: nat)
    requires x < m
    ensures x % m == x
  {
  }

  lemma ModOfMultiple(x: nat, p: nat, q: nat)
    requires p > 0 && q > 0
    ensures p * q > 0 && (x % (p * q)) % p == x % p
  {
    MulStrict(0, q, p);
    var m := p * q;
    assert m > 0;
    SplitTwice(x, p, q, x / m, x % m);
  }

  lemma SplitTwice(x: nat, p: nat, q: nat, d: nat, y: nat)
    requires p > 0 && x == (p * q) * d + y
    ensures x % p == y % p
  {
    var e, r := y / p, y % p;
    assert (p * q) * d == p * (q * d);
    assert p * (q * d + e) == p * (q * d) + p * e;
    ModUnique(x, p, q * d + e, r);
  }

  lemma AddMod(a: nat, b: nat, m: nat)
    requires m > 0
    ensures (a % m + b) % m == (a + b) % m
  {
    var q, r := a / m, (a % m + b) % m;
    var t := (a % m + b) / m;
    assert a == m * q + a % m;
    assert a % m + b == m * t + r;
    Distribute(q, t, m);
    ModUnique(a + b, m, q + t, r);
  }

  /** Division of natural numbers. */
  function Quot(v: nat, p: nat): nat
    requires p > 0
  {
    v / p
  }
}
