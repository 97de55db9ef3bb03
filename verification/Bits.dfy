/** Powers of two, bit strings, and the bitwise C operators on unsigned words.

    A bit string is a `seq<bool>` in the order in which the bits are sent: least
    significant bit first, as in section 3.1.1 of RFC 1951. */
module Bits {
  import opened Arith

  type byte = x: int | 0 <= x < 256

  type bits = seq<bool>

  function Pow2(n: nat): (p: nat)
    ensures p > 0
  {
    if n == 0 then 1 else 2 * Pow2(n - 1)
  }

  /** The low `n` bits of `v`, least significant first. */
  function ToBits(v: nat, n: nat): (b: bits)
    ensures |b| == n
  {
    if n == 0 then [] else [v % 2 == 1] + ToBits(v / 2, n - 1)
  }

  function BitValue(b: bool): nat { if b then 1 else 0 }

  /** The number whose bits, least significant first, are `b`. */
  function FromBits(b: bits): (v: nat)
  {
    if b == [] then 0 else BitValue(b[0]) + 2 * FromBits(b[1..])
  }

  function BytesToBits(s: seq<byte>): (b: bits)
    ensures |b| == 8 * |s|
  {
    if s == [] then [] else ToBits(s[0], 8) + BytesToBits(s[1..])
  }

  function Zeros(n: nat): (b: bits)
    ensures |b| == n && forall i :: 0 <= i < n ==> !b[i]
  {
    seq(n, i => false)
  }

  function Reverse<T>(s: seq<T>): (r: seq<T>)
    ensures |r| == |s|
  {
    if s == [] then [] else Reverse(s[1..]) + [s[0]]
  }

  // ---------------------------------------------------------------- C operators

  /** `a | b` */
  function Or(a: nat, b: nat): nat
    decreases a + b
  {
    if a == 0 && b == 0 then 0
    else (if a % 2 == 1 || b % 2 == 1 then 1 else 0) + 2 * Or(a / 2, b / 2)
  }

  /** `a ^ b` */
  function Xor(a: nat, b: nat): nat
    decreases a + b
  {
    if a == 0 && b == 0 then 0
    else (if a % 2 != b % 2 then 1 else 0) + 2 * Xor(a / 2, b / 2)
  }

  /** `v << k` on a 32-bit unsigned word. */
  function Shl32(v: nat, k: nat): nat {
    (v * Pow2(k)) % 0x1_0000_0000
  }

  /** `v >> k` */
  function Shr(v: nat, k: nat): nat {
    Quot(v, Pow2(k))
  }

  // ---------------------------------------------------------------- powers

  lemma Pow2Values()
    ensures Pow2(0) == 1 && Pow2(1) == 2 && Pow2(2) == 4 && Pow2(3) == 8 && Pow2(4) == 16
    ensures Pow2(5) == 32 && Pow2(6) == 64 && Pow2(7) == 128 && Pow2(8) == 256
    ensures Pow2(9) == 512 && Pow2(10) == 1024 && Pow2(11) == 2048 && Pow2(12) == 4096
    ensures Pow2(13) == 8192 && Pow2(14) == 16384 && Pow2(15) == 32768 && Pow2(16) == 65536
  {
    assert Pow2(4) == 16;
    assert Pow2(8) == 256;
    assert Pow2(12) == 4096;
  }

  lemma {:induction false} Pow2Add(m: nat, n: nat)
    ensures Pow2(m + n) == Pow2(m) * Pow2(n)
  {
    if m == 0 {
    } else {
      Pow2Add(m - 1, n);
    }
  }

  lemma Pow2At32()
    ensures Pow2(32) == 0x1_0000_0000
  {
    Pow2Values();
    Pow2Add(16, 16);
  }

  lemma {:induction false} Pow2Mono(m: nat, n: nat)
    requires m <= n
    ensures Pow2(m) <= Pow2(n)
  {
    if m < n { Pow2Mono(m, n - 1); }
  }

  // ---------------------------------------------------------------- bit strings

  lemma {:induction false} HalfBound(v: nat, n: nat)
    requires n > 0 && v < Pow2(n)
    ensures v / 2 < Pow2(n - 1)
  {
  }

  lemma {:induction false} ToBitsSplit(v: nat, n: nat, w: nat, m: nat)
    requires v < Pow2(n)
    ensures ToBits(v + w * Pow2(n), n + m) == ToBits(v, n) + ToBits(w, m)
  {
    if n == 0 {
      assert v + w * Pow2(n) == w;
    } else {
      var p := Pow2(n - 1);
      assert w * Pow2(n) == 2 * (w * p);
      assert (v + 2 * (w * p)) / 2 == v / 2 + w * p;
      assert (v + 2 * (w * p)) % 2 == v % 2;
      ToBitsSplit(v / 2, n - 1, w, m);
      assert ToBits(v + w * Pow2(n), n + m) == [v % 2 == 1] + (ToBits(v / 2, n - 1) + ToBits(w, m));
    }
  }

  lemma {:induction false} FromBitsBound(b: bits)
    ensures FromBits(b) < Pow2(|b|)
  {
    if b != [] { FromBitsBound(b[1..]); }
  }

  lemma {:induction false} FromToBits(v: nat, n: nat)
    requires v < Pow2(n)
    ensures FromBits(ToBits(v, n)) == v
  {
    if n > 0 {
      FromToBits(v / 2, n - 1);
      assert ToBits(v, n)[1..] == ToBits(v / 2, n - 1);
    }
  }

  lemma {:induction false} ToFromBits(b: bits)
    ensures ToBits(FromBits(b), |b|) == b
  {
    if b != [] {
      ToFromBits(b[1..]);
      assert b == [b[0]] + b[1..];
    }
  }

  lemma {:induction false} BytesToBitsAppend(s: seq<byte>, t: seq<byte>)
    ensures BytesToBits(s + t) == BytesToBits(s) + BytesToBits(t)
  {
    if s == [] {
      assert s + t == t;
    } else {
      assert (s + t)[1..] == s[1..] + t;
      BytesToBitsAppend(s[1..], t);
    }
  }

  lemma BytesToBitsOne(c: byte)
    ensures BytesToBits([c]) == ToBits(c, 8)
  {
    assert BytesToBits([c]) == ToBits(c, 8) + BytesToBits([]);
  }

  lemma {:induction false} ReverseAppend<T>(s: seq<T>, t: seq<T>)
    ensures Reverse(s + t) == Reverse(t) + Reverse(s)
  {
    if s == [] {
      assert s + t == t;
    } else {
      assert (s + t)[1..] == s[1..] + t;
      ReverseAppend(s[1..], t);
    }
  }

  lemma {:induction false} ReverseReverse<T>(s: seq<T>)
    ensures Reverse(Reverse(s)) == s
  {
    if s != [] {
      ReverseAppend(Reverse(s[1..]), [s[0]]);
      ReverseReverse(s[1..]);
      assert Reverse([s[0]]) == [s[0]];
    }
  }

  lemma {:induction false} ZerosToBits(n: nat)
    ensures ToBits(0, n) == Zeros(n)
  {
    if n > 0 {
      ZerosToBits(n - 1);
      assert Zeros(n) == [false] + Zeros(n - 1);
    }
  }

  // ---------------------------------------------------------------- operators

  lemma {:induction false} OrZero(b: nat)
    ensures Or(0, b) == b
  {
    if b > 0 { OrZero(b / 2); }
  }

  /** `|` of words with disjoint bits is addition. */
  lemma {:induction false} OrDisjoint(a: nat, b: nat, k: nat)
    requires a < Pow2(k)
    ensures Or(a, b * Pow2(k)) == a + b * Pow2(k)
  {
    if k == 0 {
      OrZero(b);
    } else {
      var p := Pow2(k - 1);
      assert b * Pow2(k) == 2 * (b * p);
      OrDisjoint(a / 2, b, k - 1);
      assert (2 * (b * p)) / 2 == b * p;
      if a == 0 && b * p == 0 {
      } else {
        assert Or(a, 2 * (b * p)) == a % 2 + 2 * Or(a / 2, b * p);
      }
    }
  }

  lemma {:induction false} XorInjective(a: nat, b: nat, c: nat)
    requires Xor(a, b) == Xor(a, c)
    ensures b == c
    decreases a + b + c
  {
    if a != 0 || b != 0 || c != 0 {
      XorInjective(a / 2, b / 2, c / 2);
    }
  }

  /** `& (2^k - 1)` distributes over `^`. */
  lemma {:induction false} XorMod(a: nat, b: nat, k: nat)
    ensures Xor(a, b) % Pow2(k) == Xor(a % Pow2(k), b % Pow2(k))
  {
    if k == 0 {
    } else {
      var p := Pow2(k - 1);
      XorMod(a / 2, b / 2, k - 1);
      ModHalves(a, p, Pow2(k));
      ModHalves(b, p, Pow2(k));
      ModHalves(Xor(a, b), p, Pow2(k));
      if a != 0 || b != 0 {
        XorHalves(a, b);
        XorHalves(a % Pow2(k), b % Pow2(k));
      }
    }
  }

  lemma {:induction false} XorHalves(a: nat, b: nat)
    ensures Xor(a, b) / 2 == Xor(a / 2, b / 2)
    ensures Xor(a, b) % 2 == (a + b) % 2
  {
  }
}
