/** The rolling hash of the string matcher. */
module Hashing {
  import opened Arith
  import opened Bits

  /** H_SHIFT: after three updates the oldest byte has left the key. */
  function HashShift(hashBits: nat): (s: nat)
    ensures 3 * s >= hashBits
  {
    (hashBits + 2) / 3
  }

  /** UPDATE_HASH.  The shifted key stays far below 32 bits. */
  function Update(hashBits: nat, h: nat, c: nat): (r: nat)
    ensures r < Pow2(hashBits)
  {
    Xor(h * Pow2(HashShift(hashBits)), c) % Pow2(hashBits)
  }

  /** The key of a three-byte string. */
  function Hash3(hashBits: nat, a: nat, b: nat, c: nat): (r: nat)
    ensures r < Pow2(hashBits)
  {
    Update(hashBits, Update(hashBits, Update(hashBits, 0, a), b), c)
  }

  /** `h` is a key that the two bytes `a`, `b` went into last. */
  ghost predicate Primed(hashBits: nat, h: nat, a: nat, b: nat) {
    exists h0: nat :: h == Update(hashBits, Update(hashBits, h0, a), b)
  }

  lemma ModTwice(x: nat, m: nat, k: nat)
    requires k <= m
    ensures (x % Pow2(m)) % Pow2(k) == x % Pow2(k)
  {
    hide Pow2;
    Pow2Add(k, m - k);
    ModOfMultiple(x, Pow2(k), Pow2(m - k));
  }

  /** Keys that agree on their low `k` bits agree on `k + HashShift` bits after the next byte. */
  lemma UpdateAgrees(hashBits: nat, g: nat, h: nat, c: nat, k: nat, n: nat)
    requires g % Pow2(k) == h % Pow2(k) && n <= k + HashShift(hashBits) && n <= hashBits
    ensures Update(hashBits, g, c) % Pow2(n) == Update(hashBits, h, c) % Pow2(n)
  {
    hide Pow2, Xor;
    var s := HashShift(hashBits);
    var gs, hs := g * Pow2(s), h * Pow2(s);
    Pow2Add(k, s);
    ModScale(g, Pow2(s), Pow2(k));
    ModScale(h, Pow2(s), Pow2(k));
    assert gs % Pow2(k + s) == hs % Pow2(k + s);
    ModTwice(gs, k + s, n);
    ModTwice(hs, k + s, n);
    assert gs % Pow2(n) == hs % Pow2(n);
    ModTwice(Xor(gs, c), hashBits, n);
    ModTwice(Xor(hs, c), hashBits, n);
    XorMod(gs, c, n);
    XorMod(hs, c, n);
  }

  function Least(a: nat, b: nat): nat { if a <= b then a else b }

  /** The key depends on the last three bytes only. */
  lemma KeyOfThree(hashBits: nat, h: nat, a: nat, b: nat, c: nat)
    requires Primed(hashBits, h, a, b)
    ensures Update(hashBits, h, c) == Hash3(hashBits, a, b, c)
  {
    hide Pow2, Update, HashShift;
    var h0: nat :| h == Update(hashBits, Update(hashBits, h0, a), b);
    var s := HashShift(hashBits);
    var m, n := Least(s, hashBits), Least(2 * s, hashBits);
    Pow2Zero();
    UpdateAgrees(hashBits, h0, 0, a, 0, m);
    var g1, h1 := Update(hashBits, h0, a), Update(hashBits, 0, a);
    UpdateAgrees(hashBits, g1, h1, b, m, n);
    var g2, h2 := Update(hashBits, g1, b), Update(hashBits, h1, b);
    UpdateAgrees(hashBits, g2, h2, c, n, hashBits);
    SmallMod(Update(hashBits, g2, c), Pow2(hashBits));
    SmallMod(Update(hashBits, h2, c), Pow2(hashBits));
  }

  lemma Pow2Zero()
    ensures Pow2(0) == 1
  {
  }

  lemma Rolls(hashBits: nat, h: nat, a: nat, b: nat, c: nat)
    requires Primed(hashBits, h, a, b)
    ensures Primed(hashBits, Update(hashBits, h, c), b, c)
  {
    hide Update;
    var h0: nat :| h == Update(hashBits, Update(hashBits, h0, a), b);
    assert Update(hashBits, h, c) == Update(hashBits, Update(hashBits, Update(hashBits, h0, a), b), c);
  }

  /** Strings with equal keys that agree on two bytes agree on the third: the key has room for a byte. */
  lemma ThirdByte(hashBits: nat, a: nat, b: nat, c: byte, d: byte)
    requires hashBits >= 8 && Hash3(hashBits, a, b, c) == Hash3(hashBits, a, b, d)
    ensures c == d
  {
    hide Update;
    var h := Update(hashBits, Update(hashBits, 0, a), b);
    LastByte(hashBits, h, c, d);
  }

  lemma LastByte(hashBits: nat, h: nat, c: byte, d: byte)
    requires hashBits >= 8 && Update(hashBits, h, c) == Update(hashBits, h, d)
    ensures c == d
  {
    hide Pow2, Xor, HashShift;
    var k := h * Pow2(HashShift(hashBits));
    Pow2Values();
    Pow2Mono(8, hashBits);
    XorMod(k, c, hashBits);
    XorMod(k, d, hashBits);
    SmallMod(c, Pow2(hashBits));
    SmallMod(d, Pow2(hashBits));
    XorInjective(k % Pow2(hashBits), c, d);
  }
}
