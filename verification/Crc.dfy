/** The CRC-32 of gzip: a table of 256 entries does the work of eight shifts per byte. */
module Crc32 {
  import opened Arith
  import opened Bits

  const POLYNOMIAL: nat := 0xEDB8_8320
  const ONES: nat := 0xFFFF_FFFF
  const WORD: nat := 0x1_0000_0000

  // ---------------------------------------------------------------- the definition

  /** One step of the shift register: divide by the polynomial, lowest bit first. */
  function Shift(c: nat): nat { if c % 2 == 1 then Xor(c / 2, POLYNOMIAL) else c / 2 }

  function Shifts(c: nat, n: nat): nat { if n == 0 then c else Shift(Shifts(c, n - 1)) }

  /** The register after `data`, bit by bit. */
  function Register(c: nat, data: seq<byte>): nat {
    if data == [] then c else Shifts(Xor(Register(c, data[..|data| - 1]), data[|data| - 1]), 8)
  }

  /** Section 8 of RFC 1952: the register starts and ends complemented. */
  function Crc(data: seq<byte>): (r: nat)
    ensures r < WORD
  {
    RegisterFits(ONES, data);
    ONES - Register(ONES, data)
  }

  lemma CrcIs(data: seq<byte>)
    ensures Crc(data) == ONES - Register(ONES, data)
  {
  }

  lemma {:induction false} RegisterAppend(c: nat, a: seq<byte>, b: seq<byte>)
    ensures Register(c, a + b) == Register(Register(c, a), b)
    decreases |b|
  {
    hide Shifts, Xor;
    if b == [] {
      assert a + b == a;
    } else {
      RegisterAppend(c, a, b[..|b| - 1]);
      assert (a + b)[..|a + b| - 1] == a + b[..|b| - 1];
    }
  }

  // ---------------------------------------------------------------- exclusive or

  lemma SameHalves(a: nat, b: nat)
    requires a / 2 == b / 2 && a % 2 == b % 2
    ensures a == b
  {
  }

  lemma {:induction false} XorZero(a: nat)
    ensures Xor(a, 0) == a && Xor(0, a) == a
  {
    if a > 0 { XorZero(a / 2); }
  }

  lemma {:induction false} XorAssoc(a: nat, b: nat, c: nat)
    ensures Xor(Xor(a, b), c) == Xor(a, Xor(b, c))
    decreases a + b + c
  {
    hide Xor;
    XorHalves(a, b);
    XorHalves(b, c);
    XorHalves(Xor(a, b), c);
    XorHalves(a, Xor(b, c));
    if a == 0 {
      XorZero(b);
      XorZero(Xor(b, c));
    } else {
      XorAssoc(a / 2, b / 2, c / 2);
      SameHalves(Xor(Xor(a, b), c), Xor(a, Xor(b, c)));
    }
  }

  lemma {:induction false} XorComm(a: nat, b: nat)
    ensures Xor(a, b) == Xor(b, a)
    decreases a + b
  {
    if a != 0 || b != 0 { XorComm(a / 2, b / 2); }
  }

  lemma {:induction false} XorSelf(a: nat)
    ensures Xor(a, a) == 0
  {
    if a > 0 { XorSelf(a / 2); }
  }

  /** A common term cancels, and a single one can be moved out. */
  lemma Cancels(a: nat, b: nat, p: nat)
    ensures Xor(Xor(a, p), Xor(b, p)) == Xor(a, b)
    ensures Xor(Xor(a, p), b) == Xor(Xor(a, b), p) && Xor(a, Xor(b, p)) == Xor(Xor(a, b), p)
  {
    hide Xor;
    XorAssoc(a, b, p);
    XorAssoc(a, p, b);
    XorComm(p, b);
    XorAssoc(Xor(a, p), b, p);
    XorAssoc(Xor(a, b), p, p);
    XorSelf(p);
    XorZero(Xor(a, b));
  }

  lemma XorFits(a: nat, b: nat, k: nat)
    requires a < Pow2(k) && b < Pow2(k)
    ensures Xor(a, b) < Pow2(k)
  {
    hide Xor;
    XorMod(a, b, k);
    SmallMod(a, Pow2(k));
    SmallMod(b, Pow2(k));
  }

  lemma {:induction false} XorDiv(a: nat, b: nat, k: nat)
    ensures Quot(Xor(a, b), Pow2(k)) == Xor(Quot(a, Pow2(k)), Quot(b, Pow2(k)))
  {
    hide Xor;
    if k > 0 {
      XorDiv(a / 2, b / 2, k - 1);
      XorHalves(a, b);
      var p := Pow2(k - 1);
      DivTwice(a, p);
      DivTwice(b, p);
      DivTwice(Xor(a, b), p);
    }
  }

  lemma DivTwice(a: nat, p: nat)
    requires p > 0
    ensures a / (2 * p) == a / 2 / p
  {
    var q := a / 2 / p;
    var r := a / 2 % p;
    assert a == 2 * (p * q + r) + a % 2;
    assert 2 * (p * q) == (2 * p) * q;
    ModUnique(a, 2 * p, q, 2 * r + a % 2);
  }

  /** A word and a byte: the byte only meets the low one. */
  lemma XorByte(c: nat, b: nat)
    requires b < 256
    ensures Xor(c, b) == Xor(Xor(c % 256, b), 256 * (c / 256)) && Xor(c % 256, b) < 256
  {
    hide Xor, Pow2;
    Pow2Values();
    XorFits(c % 256, b, 8);
    var k, h := Xor(c % 256, b), 256 * (c / 256);
    XorMod(c, b, 8);
    XorDiv(c, b, 8);
    XorMod(k, h, 8);
    XorDiv(k, h, 8);
    XorZero(c / 256);
    XorZero(k);
  }

  // ---------------------------------------------------------------- the register is linear

  lemma ShiftLinear(x: nat, y: nat)
    ensures Shift(Xor(x, y)) == Xor(Shift(x), Shift(y))
  {
    hide Xor;
    XorHalves(x, y);
    Cancels(x / 2, y / 2, POLYNOMIAL);
  }

  lemma {:induction false} ShiftsLinear(x: nat, y: nat, n: nat)
    ensures Shifts(Xor(x, y), n) == Xor(Shifts(x, n), Shifts(y, n))
  {
    hide Shift, Xor;
    if n > 0 {
      ShiftsLinear(x, y, n - 1);
      ShiftLinear(Shifts(x, n - 1), Shifts(y, n - 1));
    }
  }

  /** Bits above the low ones only move down. */
  lemma {:induction false} ShiftsPlain(h: nat, n: nat)
    ensures Shifts(Pow2(n) * h, n) == h
    decreases n
  {
    hide Xor;
    if n > 0 {
      ShiftsPlain(2 * h, n - 1);
      assert Pow2(n) * h == Pow2(n - 1) * (2 * h);
    }
  }

  // ---------------------------------------------------------------- words stay words

  lemma ShiftFits(c: nat)
    requires c < WORD
    ensures Shift(c) < WORD
  {
    hide Xor, Pow2;
    Pow2At32();
    XorFits(c / 2, POLYNOMIAL, 32);
  }

  lemma {:induction false} ShiftsFit(c: nat, n: nat)
    requires c < WORD
    ensures Shifts(c, n) < WORD
  {
    hide Shift;
    if n > 0 {
      ShiftsFit(c, n - 1);
      ShiftFits(Shifts(c, n - 1));
    }
  }

  lemma {:induction false} RegisterFits(c: nat, data: seq<byte>)
    requires c < WORD
    ensures Register(c, data) < WORD
    decreases |data|
  {
    hide Shifts, Xor, Pow2;
    if data != [] {
      RegisterFits(c, data[..|data| - 1]);
      Pow2At32();
      XorFits(Register(c, data[..|data| - 1]), data[|data| - 1], 32);
      ShiftsFit(Xor(Register(c, data[..|data| - 1]), data[|data| - 1]), 8);
    }
  }

  // ---------------------------------------------------------------- the table

  ghost predicate TableOk(t: seq<nat>) { |t| == 256 && forall i :: 0 <= i < 256 ==> t[i] == Shifts(i, 8) }

  method FillTable(table: array<nat>)
    requires table.Length == 256
    modifies table
    ensures TableOk(table[..])
  {
    hide Shifts;
    for i := 0 to 256
      invariant forall k :: 0 <= k < i ==> table[k] == Shifts(k, 8)
    {
      table[i] := EightSteps(i);
    }
  }

  method EightSteps(i: nat) returns (c: nat)
    ensures c == Shifts(i, 8)
  {
    hide Shift;
    c := i;
    var j := 8;
    while j > 0
      invariant 0 <= j <= 8 && c == Shifts(i, 8 - j)
    {
      c := StepOf(c);
      j := j - 1;
    }
  }

  method StepOf(c: nat) returns (r: nat)
    ensures r == Shift(c)
  {
    r := if c % 2 != 0 then Xor(c / 2, POLYNOMIAL) else c / 2;
  }

  /** One table look-up is eight steps of the register. */
  lemma LookUp(c: nat, b: byte, t: seq<nat>)
    requires TableOk(t)
    ensures Xor(c % 256, b) < 256 && Xor(t[Xor(c % 256, b)], c / 256) == Shifts(Xor(c, b), 8)
  {
    hide Shifts, Xor, Pow2;
    XorByte(c, b);
    ShiftsLinear(Xor(c % 256, b), 256 * (c / 256), 8);
    Pow2Values();
    ShiftsPlain(c / 256, 8);
  }

  /** crc32_block_endian0 */
  method Update(val: nat, buf: seq<byte>, table: array<nat>) returns (r: nat)
    requires TableOk(table[..])
    ensures r == Register(val, buf)
  {
    hide Shifts, Xor, TableOk;
    r := val;
    assert buf[..0] == [];
    for i := 0 to |buf|
      invariant r == Register(val, buf[..i])
    {
      TableLength(table[..]);
      LookUp(r, buf[i], table[..]);
      RegisterNext(val, buf, i);
      r := Xor(table[Xor(r % 256, buf[i])], r / 256);
    }
    assert buf[..|buf|] == buf;
  }

  lemma TableLength(t: seq<nat>)
    requires TableOk(t)
    ensures |t| == 256
  {
  }

  lemma RegisterNext(c: nat, data: seq<byte>, i: nat)
    requires i < |data|
    ensures Register(c, data[..i + 1]) == Shifts(Xor(Register(c, data[..i]), data[i]), 8)
  {
    hide Shifts, Xor;
    assert data[..i + 1][..i] == data[..i];
  }

  // ---------------------------------------------------------------- what it detects

  /** The polynomial's highest bit tells whether the lowest one was set. */
  lemma ShiftInjective(x: nat, y: nat)
    requires x < WORD && y < WORD && Shift(x) == Shift(y)
    ensures x == y
  {
    hide Xor, Pow2;
    TopBit(x / 2);
    TopBit(y / 2);
    XorComm(x / 2, POLYNOMIAL);
    XorComm(y / 2, POLYNOMIAL);
    if x % 2 == 1 && y % 2 == 1 { XorInjective(POLYNOMIAL, x / 2, y / 2); }
  }

  lemma TopBit(a: nat)
    requires a < 0x8000_0000
    ensures Xor(a, POLYNOMIAL) >= 0x8000_0000
  {
    hide Xor, Pow2;
    assert Pow2(31) == 0x8000_0000 by {
      Pow2Values();
      Pow2Add(16, 15);
    }
    XorDiv(a, POLYNOMIAL, 31);
    XorZero(1);
  }

  lemma {:induction false} ShiftsInjective(x: nat, y: nat, n: nat)
    requires x < WORD && y < WORD && Shifts(x, n) == Shifts(y, n)
    ensures x == y
  {
    hide Shift;
    if n > 0 {
      ShiftsFit(x, n - 1);
      ShiftsFit(y, n - 1);
      ShiftInjective(Shifts(x, n - 1), Shifts(y, n - 1));
      ShiftsInjective(x, y, n - 1);
    }
  }

  lemma {:induction false} RegisterInjective(c: nat, d: nat, data: seq<byte>)
    requires c < WORD && d < WORD && Register(c, data) == Register(d, data)
    ensures c == d
    decreases |data|
  {
    hide Shifts, Xor, Pow2;
    if data != [] {
      var front, b := data[..|data| - 1], data[|data| - 1];
      var x, y := Register(c, front), Register(d, front);
      ByteStep(x, b, y, b, c, d, front);
      XorComm(x, b);
      XorComm(y, b);
      XorInjective(b, x, y);
      RegisterInjective(c, d, front);
    }
  }

  lemma ByteStep(x: nat, a: byte, y: nat, b: byte, c: nat, d: nat, front: seq<byte>)
    requires c < WORD && d < WORD && x == Register(c, front) && y == Register(d, front)
    requires Shifts(Xor(x, a), 8) == Shifts(Xor(y, b), 8)
    ensures Xor(x, a) == Xor(y, b)
  {
    hide Shifts, Xor, Pow2;
    RegisterFits(c, front);
    RegisterFits(d, front);
    Pow2At32();
    XorFits(x, a, 32);
    XorFits(y, b, 32);
    ShiftsInjective(Xor(x, a), Xor(y, b), 8);
  }

  /** Data in which one byte was changed has another CRC. */
  lemma OneByteDetected(a: seq<byte>, x: byte, y: byte, b: seq<byte>)
    requires Crc(a + [x] + b) == Crc(a + [y] + b)
    ensures x == y
  {
    hide Shifts, Xor;
    RegisterAppend(ONES, a + [x], b);
    RegisterAppend(ONES, a + [y], b);
    RegisterFits(ONES, a + [x]);
    RegisterFits(ONES, a + [y]);
    RegisterInjective(Register(ONES, a + [x]), Register(ONES, a + [y]), b);
    var c := Register(ONES, a);
    assert (a + [x])[..|a|] == a && (a + [y])[..|a|] == a;
    ByteStep(c, x, c, y, ONES, ONES, a);
    XorInjective(c, x, y);
  }
}
