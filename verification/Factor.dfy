/** The table of steps that unpack_wheel fills in. */
module WheelTable {
  import opened Wheels

  function RowSum(row: seq<nat>, i: nat): nat
    requires i <= |row|
  {
    if i == 0 then 0 else RowSum(row, i - 1) + row[i - 1]
  }

  /** Entry `w` of the table. */
  function Step(w: nat): nat
    requires w < WHEEL_SIZE
  {
    if w == 0 then 1 else if w == 1 then 2
    else
      RowIsOk((w - 2) / 21);
      ROWS[(w - 2) / 21][(w - 2) % 21]
  }

  function Wheel(): (s: seq<nat>)
    ensures |s| == WHEEL_SIZE && forall w :: 0 <= w < WHEEL_SIZE ==> s[w] == Step(w)
  {
    seq(WHEEL_SIZE, w requires 0 <= w < WHEEL_SIZE => Step(w))
  }

  /** The divisor reached in the first round when entry `w` comes next. */
  function Pos(w: nat): nat
    requires w <= WHEEL_SIZE
  {
    if w < 2 then 2 + w
    else if w == WHEEL_SIZE then 2323
    else
      RowIsOk((w - 2) / 21);
      STARTS[(w - 2) / 21] + RowSum(ROWS[(w - 2) / 21], (w - 2) % 21)
  }

  lemma {:induction false} RowReach(row: seq<nat>, pos: nat, end: nat, j: nat)
    requires RowFrom(row, 0, pos, end) && pos % 2 == 1 && j <= |row|
    ensures RowFrom(row, j, pos + RowSum(row, j), end) && (pos + RowSum(row, j)) % 2 == 1
  {
    hide Skippable;
    if j > 0 { RowReach(row, pos, end, j - 1); }
  }

  lemma LastStart()
    ensures |STARTS| == 24 && STARTS[0] == 5 && STARTS[23] == 2323
  {
  }

  lemma RowIndex(w: nat)
    requires 2 <= w < WHEEL_SIZE
    ensures var k, i := (w - 2) / 21, (w - 2) % 21;
            && k < 23 && (i < 20 ==> (w - 1) / 21 == k && (w - 1) % 21 == i + 1)
            && (i == 20 ==> (w - 1) / 21 == k + 1 && (w - 1) % 21 == 0 && (k == 22 <==> w + 1 == WHEEL_SIZE))
            && (w + 1 == WHEEL_SIZE ==> i == 20)
  {
  }

  /** Each entry leads to the next divisor, and only skips numbers that cannot be prime. */
  lemma PosStep(w: nat)
    requires w < WHEEL_SIZE
    ensures Pos(w + 1) == Pos(w) + Step(w) && GapOk(Pos(w), Step(w)) && 1 <= Step(w) <= 14
  {
    hide EvenGapOk, Skippable, RowFrom, ROWS, STARTS;
    LastStart();
    if w < 2 {
      EarlySteps();
      RowIsOk(0);
    } else {
      var k, i := (w - 2) / 21, (w - 2) % 21;
      RowIndex(w);
      RowIsOk(k);
      RowStep(ROWS[k], STARTS[k], STARTS[k + 1], i);
    }
  }

  lemma EarlySteps()
    ensures GapOk(2, 1) && GapOk(3, 2)
  {
  }

  lemma RowStep(row: seq<nat>, pos: nat, end: nat, i: nat)
    requires RowFrom(row, 0, pos, end) && pos % 2 == 1 && pos > 2 && i < |row|
    ensures GapOk(pos + RowSum(row, i), row[i]) && 2 <= row[i] <= 14 && row[i] % 2 == 0
    ensures i + 1 == |row| ==> pos + RowSum(row, i) + row[i] == end
  {
    hide EvenGapOk, Skippable;
    RowReach(row, pos, end, i);
    EvenGap(pos + RowSum(row, i), row[i]);
  }

  /** One round of the wheel. */
  lemma FullRound()
    ensures Pos(0) == 2 && Pos(WHEEL_SIZE) == Pos(WHEEL_START) + ROUND
  {
    hide ROWS, STARTS, RowFrom;
    LastStart();
    FirstRow();
  }

  lemma FirstRow()
    ensures |ROWS| == 23 && |ROWS[0]| == 21 && RowSum(ROWS[0], 3) == 8
  {
    assert ROWS[0] == ROW0;
    RowSumThree(ROW0);
  }

  lemma RowSumThree(row: seq<nat>)
    requires |row| >= 3
    ensures RowSum(row, 3) == row[0] + row[1] + row[2]
  {
    assert RowSum(row, 1) == row[0];
  }

  // ---------------------------------------------------------------- the packed form

  /** The fields of a packed word, without the low bit that every word has spare. */
  function Pack(row: seq<nat>): nat { if row == [] then 0 else row[0] / 2 + 8 * Pack(row[1..]) }

  ghost predicate StepsOk(row: seq<nat>) { forall i :: 0 <= i < |row| ==> row[i] % 2 == 0 && 2 <= row[i] <= 14 }

  lemma RowSteps(k: nat)
    requires k < 23
    ensures |ROWS| == 23 && |ROWS[k]| == 21 && StepsOk(ROWS[k])
  {
    hide EvenGapOk, Skippable, RowFrom, ROWS, STARTS;
    RowIsOk(k);
    forall i | 0 <= i < 21 ensures ROWS[k][i] % 2 == 0 && 2 <= ROWS[k][i] <= 14 {
      RowStep(ROWS[k], STARTS[k], STARTS[k + 1], i);
    }
  }

  /** `v & 0xe` and `v >>= 3` peel one step off. */
  lemma Peel(row: seq<nat>, j: nat, v: nat)
    requires StepsOk(row) && j < |row| && v / 2 == Pack(row[j..])
    ensures v / 2 % 8 * 2 == row[j] && v / 8 / 2 == Pack(row[j + 1..])
  {
    assert row[j..][1..] == row[j + 1..];
    var h, rest := row[j] / 2, Pack(row[j + 1..]);
    assert v / 2 == h + 8 * rest && h < 8;
    assert v / 8 / 2 == v / 2 / 8;
  }

  method UnpackWheel(tab: array<nat>)
    requires tab.Length == WHEEL_SIZE
    modifies tab
    ensures tab[..] == Wheel()
  {
    hide Wheel, ROWS, STARTS, RowFrom, StepsOk, Pack;
    tab[0] := 1;
    tab[1] := 2;
    for i := 0 to 23
      invariant forall w :: 0 <= w < 2 + 21 * i ==> tab[w] == Step(w)
    {
      RowSteps(i);
      UnpackWord(tab, 2 + 21 * i, ROWS[i]);
      forall w | 2 + 21 * i <= w < 23 + 21 * i ensures tab[w] == Step(w) {
        FlatIndex(i, w - 2 - 21 * i);
        assert w == 2 + 21 * i + (w - 2 - 21 * i);
      }
    }
    WheelIs(tab[..]);
  }

  lemma WheelIs(s: seq<nat>)
    requires |s| == WHEEL_SIZE && forall w :: 0 <= w < WHEEL_SIZE ==> s[w] == Step(w)
    ensures s == Wheel()
  {
    hide Step;
  }

  lemma FlatIndex(i: nat, j: nat)
    requires i < 23 && j < 21
    ensures (2 + 21 * i + j - 2) / 21 == i && (2 + 21 * i + j - 2) % 21 == j
  {
  }

  /** Unpack one word: the steps go to tab[p..]. */
  method UnpackWord(tab: array<nat>, p: nat, row: seq<nat>)
    requires |row| == 21 && StepsOk(row) && p + 21 <= tab.Length
    modifies tab
    ensures forall w :: 0 <= w < tab.Length && !(p <= w < p + 21) ==> tab[w] == old(tab[w])
    ensures forall j :: 0 <= j < 21 ==> tab[p + j] == row[j]
  {
    hide Pack;
    var v, j := 2 * Pack(row), 0;
    assert row[0..] == row;
    while v / 2 % 8 * 2 != 0
      invariant j <= 21 && v / 2 == Pack(row[j..])
      invariant forall w :: 0 <= w < tab.Length && !(p <= w < p + j) ==> tab[w] == old(tab[w])
      invariant forall k :: 0 <= k < j ==> tab[p + k] == row[k]
      decreases v
    {
      if j == 21 { NothingLeft(row); }
      Peel(row, j, v);
      tab[p + j] := v / 2 % 8 * 2;
      v := v / 8;
      j := j + 1;
    }
    if j < 21 { Peel(row, j, v); }
  }

  lemma NothingLeft(row: seq<nat>)
    ensures Pack(row[|row|..]) == 0
  {
  }
}

/** Trial division on 64-bit numbers with 32-bit divisors. */
module Factoring {
  import opened Arith
  import opened Bits
  import opened Primes
  import opened Wheels
  import opened WheelTable

  const WIDE: nat := 0x1_0000_0000_0000_0000
  const HALF: nat := 0x1_0000_0000

  /** Primes that divide `n`. */
  ghost predicate PrimeList(ps: seq<nat>, n: nat) {
    forall i :: 0 <= i < |ps| ==> Prime(ps[i]) && Divides(ps[i], n)
  }

  /** The prime factors of `n` in order, each `k` times as often as it divides `n`. */
  ghost predicate Factored(ps: seq<nat>, n: nat, k: nat) {
    PrimeList(ps, n) && Sorted(ps) && Product(ps) == Power(n, k)
  }

  /** Part of the way: `ps` has been printed, `n` is left of `whole`, and it has no divisor below `f`. */
  ghost predicate Partly(ps: seq<nat>, whole: nat, n: nat, k: nat, f: nat) {
    && PrimeList(ps, whole) && Sorted(ps) && (forall i :: 0 <= i < |ps| ==> ps[i] <= f)
    && Product(ps) * Power(n, k) == Power(whole, k) && 0 < n && Divides(n, whole) && NoDivisorBelow(n, f)
  }

  lemma PartlyStart(n: nat, k: nat)
    requires n > 0
    ensures Partly([], n, n, k, 2)
  {
  }

  lemma PartlyOn(ps: seq<nat>, whole: nat, n: nat, k: nat, f: nat, g: nat)
    requires Partly(ps, whole, n, k, f) && f <= g && NoDivisorBelow(n, g)
    ensures Partly(ps, whole, n, k, g)
  {
  }

  lemma PrimeListMore(ps: seq<nat>, n: nat, m: nat)
    requires PrimeList(ps, n) && n > 0 && Divides(n, m)
    ensures PrimeList(ps, m)
  {
    hide Divides;
    forall i | 0 <= i < |ps| ensures Prime(ps[i]) && Divides(ps[i], m) {
      DividesTrans(ps[i], n, m);
    }
  }

  lemma PrimePositive(p: nat)
    requires Prime(p)
    ensures p >= 2
  {
  }

  lemma SortedJoin(a: seq<nat>, b: seq<nat>, f: nat)
    requires Sorted(a) && Sorted(b) && (forall i :: 0 <= i < |a| ==> a[i] <= f)
    requires (forall i :: 0 <= i < |b| ==> f <= b[i])
    ensures Sorted(a + b)
  {
  }

  /** Print a divisor and divide by it. */
  lemma PartlyDivide(ps: seq<nat>, whole: nat, n: nat, k: nat, f: nat)
    requires Partly(ps, whole, n, k, f) && f >= 2 && Divides(f, n)
    ensures Partly(ps + Repeat(f, k), whole, n / f, k, f)
  {
    hide Divides, Product, Power, Prime, Sorted, NoDivisorBelow;
    var q := n / f;
    Quotient(f, n);
    QuotientPositive(f, n);
    LeastIsPrime(n, f);
    QuotientKeeps(n, f, q);
    DividesTrans(f, n, whole);
    Shuffled(q, f, n);
    DividesTrans(q, n, whole);
    ProductAppend(ps, Repeat(f, k));
    ProductRepeat(f, k);
    PowerTimes(f, q, k);
    Regroup(Product(ps), Power(f, k), Power(q, k));
    RepeatSorted(f, k);
    SortedJoin(ps, Repeat(f, k), f);
  }

  lemma QuotientPositive(f: nat, n: nat)
    requires f > 0 && n > 0 && Divides(f, n)
    ensures n / f > 0
  {
    Quotient(f, n);
  }

  lemma Regroup(a: nat, b: nat, c: nat)
    ensures (a * b) * c == a * (b * c)
  {
  }

  lemma RepeatSorted(f: nat, k: nat)
    ensures Sorted(Repeat(f, k))
  {
  }

  /** Everything above the last divisor: the rest completes the list. */
  lemma PartlyEnd(ps: seq<nat>, whole: nat, n: nat, k: nat, f: nat, qs: seq<nat>)
    requires Partly(ps, whole, n, k, f) && Factored(qs, n, k)
    ensures Factored(ps + qs, whole, k)
  {
    hide Divides, Product, Power, Prime, Sorted;
    ProductAppend(ps, qs);
    PrimeListMore(qs, n, whole);
    forall i | 0 <= i < |qs| ensures f <= qs[i] {
      PrimePositive(qs[i]);
      assert Divides(qs[i], n);
    }
    SortedJoin(ps, qs, f);
  }

  lemma PrimeFactored(n: nat, k: nat)
    requires Prime(n)
    ensures Factored(Repeat(n, k), n, k)
  {
    hide Product, Power;
    ProductRepeat(n, k);
    RepeatSorted(n, k);
    DividesTimes(n, n, 1);
  }

  /** Factors of the root, twice as often, are factors of the square. */
  lemma SquareFactored(qs: seq<nat>, s: nat, k: nat)
    requires s > 0 && Factored(qs, s, 2 * k)
    ensures Factored(qs, s * s, k)
  {
    hide Divides, Product, Power, Prime;
    PowerOfSquare(s, k);
    DividesTimes(s, s * s, s);
    PrimeListMore(qs, s, s * s);
  }

  // ---------------------------------------------------------------- the square root

  /** `r` is the integer square root of `n`. */
  ghost predicate IsRoot(n: nat, r: nat) { r * r <= n < (r + 1) * (r + 1) }

  /** Two more bits of the number give one more bit of the root. */
  lemma RootStep(n: nat, m: nat, x: nat)
    requires IsRoot(n, x) && 4 * n <= m <= 4 * n + 3
    ensures if (2 * x + 1) * (2 * x + 1) > m then IsRoot(m, 2 * x) else IsRoot(m, 2 * x + 1)
  {
    assert (2 * x) * (2 * x) == 4 * (x * x);
    assert (2 * x + 2) * (2 * x + 2) == 4 * ((x + 1) * (x + 1));
  }

  lemma ShiftTwo(n: nat, shift: nat)
    ensures Pow2(shift) > 0 && Pow2(shift + 2) > 0
    ensures 4 * (n / Pow2(shift + 2)) <= n / Pow2(shift) <= 4 * (n / Pow2(shift + 2)) + 3
  {
    hide Pow2;
    Pow2Step(shift);
    Quarter(n, Pow2(shift));
  }

  lemma Quarter(n: nat, p: nat)
    requires p > 0
    ensures n / (4 * p) == n / p / 4
  {
    var m, r := n / p, n % p;
    var a, b := m / 4, m % 4;
    assert n == p * m + r;
    assert p * m == p * (4 * a + b) == (4 * p) * a + p * b;
    MulMono(b, 3, p);
    ModUnique(n, 4 * p, a, p * b + r);
  }

  lemma Pow2Step(shift: nat)
    ensures Pow2(shift + 2) == 4 * Pow2(shift) && Pow2(shift) > 0
  {
  }

  lemma Pow2At64()
    ensures Pow2(64) == WIDE && Pow2(0) == 1
  {
    hide Pow2;
    Pow2At32();
    Pow2Add(32, 32);
    Pow2Values();
  }

  method Isqrt(n: nat) returns (x: nat)
    requires n < WIDE
    ensures IsRoot(n, x) && x < HALF
  {
    hide Pow2, IsRoot;
    Pow2At64();
    RootOfZero(n);
    var shift := 62;
    x := 0;
    while shift >= 0
      invariant -2 <= shift <= 62 && shift % 2 == 0 && IsRoot(n / Pow2(shift + 2), x)
    {
      ShiftTwo(n, shift);
      RootStep(n / Pow2(shift + 2), n / Pow2(shift), x);
      x := 2 * x + 1;
      if x * x > n / Pow2(shift) { x := x - 1; }
      shift := shift - 2;
    }
    RootSmall(n, x);
  }

  lemma RootOfZero(n: nat)
    requires n < WIDE
    ensures IsRoot(n / WIDE, 0)
  {
  }

  lemma RootSmall(n: nat, x: nat)
    requires n < WIDE && IsRoot(n / 1, x)
    ensures IsRoot(n, x) && x < HALF
  {
    if x >= HALF { MulMono(HALF, x, x); MulMono(HALF, x, HALF); }
  }

  // ---------------------------------------------------------------- the wheel

  lemma ProperDivisor(r: nat, k: nat) returns (q: nat)
    requires Skippable(r) && r > 0
    ensures 2 <= q < r + ROUND * k && Divides(q, r + ROUND * k)
  {
    q := if r % 2 == 0 && r != 2 then 2 else if r % 3 == 0 && r != 3 then 3 else if r % 5 == 0 && r != 5 then 5
         else if r % 7 == 0 && r != 7 then 7 else 11;
    RoundDivides(q, ROUND / q, r, k);
  }

  lemma RoundDivides(q: nat, m: nat, r: nat, k: nat)
    requires q > 0 && ROUND == q * m && r % q == 0
    ensures Divides(q, r + ROUND * k)
  {
    assert r == q * (r / q);
    assert ROUND * k == q * (m * k);
    Distribute(r / q, m * k, q);
    DividesTimes(q, r + ROUND * k, r / q + m * k);
  }

  /** Nothing that the wheel skips divides `n`. */
  lemma {:induction false} SkipTo(n: nat, r: nat, k: nat, step: nat, j: nat)
    requires NoDivisorBelow(n, r + ROUND * k + 1) && GapOk(r, step) && 1 <= j <= step
    ensures NoDivisorBelow(n, r + ROUND * k + j)
    decreases j
  {
    hide Divides, Skippable;
    if j > 1 {
      SkipTo(n, r, k, step, j - 1);
      var x := r + ROUND * k + (j - 1);
      if Divides(x, n) {
        assert Skippable(r + (j - 1));
        var q := ProperDivisor(r + (j - 1), k);
        DividesTrans(q, x, n);
      }
    }
  }

  /** `(s - 1) | 1`: the largest odd number up to `s`. */
  function OddFloor(s: nat): nat
    requires s > 0
  {
    if s % 2 == 1 then s else s - 1
  }

  /** What is left when all divisors up to the root have been tried is prime. */
  lemma RestIsPrime(n: nat, root: nat, f: nat)
    requires n >= 2 && IsRoot(n, root) && root > 0 && NoDivisorBelow(n, f + 1) && f >= 2 && f >= OddFloor(root)
    ensures Prime(n)
  {
    hide Divides, Prime;
    forall d | 2 <= d < root + 1 ensures !Divides(d, n) {
      if d > f && Divides(d, n) {
        EvenDivisor(d);
        DividesTrans(2, d, n);
      }
    }
    NoSmallDivisor(n, root);
  }

  lemma EvenDivisor(d: nat)
    requires d % 2 == 0
    ensures Divides(2, d)
  {
  }

  // ---------------------------------------------------------------- the program

  /** Numbers at recursion depth `d` are below this. */
  function Limit(d: nat): nat
    requires d <= 5
  {
    if d == 0 then WIDE else if d == 1 then HALF else if d == 2 then 65536 else if d == 3 then 256
      else if d == 4 then 16 else 4
  }

  lemma RootLimit(s: nat, d: nat)
    requires d <= 4 && s * s < Limit(d)
    ensures s < Limit(d + 1)
  {
    var l := Limit(d + 1);
    assert l * l == Limit(d);
    if s >= l { MulMono(l, s, l); MulMono(l, s, s); }
  }

  class Factorizer {
    const wheelTab: array<nat>
    var squareCount: nat
    var out: seq<nat>          // what has been printed

    constructor ()
      ensures wheelTab[..] == Wheel() && fresh(wheelTab) && out == []
    {
      wheelTab := new nat[WHEEL_SIZE];
      squareCount, out := 1, [];
      new;
      UnpackWheel(wheelTab);
    }

    /** Print a factor, as often as the squares around it ask for. */
    method PrintW(n: nat)
      requires squareCount > 0
      modifies this`out
      ensures out == old(out) + Repeat(n, squareCount)
    {
      var rep := squareCount;
      while true
        invariant 1 <= rep <= squareCount && out == old(out) + Repeat(n, squareCount - rep)
        decreases rep
      {
        out := out + [n];
        assert Repeat(n, squareCount - rep) + [n] == Repeat(n, squareCount - rep + 1);
        rep := rep - 1;
        if rep == 0 { break; }
      }
    }

    /** The largest odd divisor to try for `n`; 0 when `n` is a square, whose factors are printed. */
    method IsqrtOdd(n: nat, ghost d: nat, ghost top: nat) returns (s: nat, ghost root: nat, ghost ps: seq<nat>)
      requires wheelTab[..] == Wheel() && 1 <= n <= top && d <= 4 && 4 <= top < Limit(d) && squareCount == Pow2(d)
      modifies this
      ensures out == old(out) + ps && (s == 0 ==> Factored(ps, n, old(squareCount)))
      ensures s != 0 ==> ps == [] && squareCount == old(squareCount) && Left(n, top, s, root)
      decreases top, 0
    {
      hide Factored, Pow2, Wheel;
      s := Isqrt(n);
      root := s;
      ps := [];
      if s * s == n {
        RootLimit(s, d);
        RootBelow(s, n, top);
        Pow2Double(d);
        squareCount := 2 * squareCount;
        ps := Factorize(s, d + 1);
        SquareFactored(ps, s, old(squareCount));
        s := 0;
        return;
      }
      assert s > 0 && n >= 2 by { RootPositive(n, s); }
      s := OddFloor(s);
    }

    /** Print the prime factors of `n`. */
    method Factorize(n0: nat, ghost d: nat) returns (ghost ps: seq<nat>)
      requires wheelTab[..] == Wheel() && d <= 5 && n0 < Limit(d) && squareCount == Pow2(d)
      modifies this
      ensures out == old(out) + ps
      ensures if n0 == 0 then ps == [] else Factored(ps, n0, old(squareCount))
      decreases n0, 3
    {
      hide Factored, Partly, Pow2, Wheel, IsRoot, Prime, NoDivisorBelow;
      ghost var c := squareCount;
      Pow2Positive(d);
      ps := [];
      if n0 < 4 {
        SmallFactored(n0, c);
        if n0 > 1 {
          PrintW(n0);
          ps := Repeat(n0, c);
        }
        return;
      }
      var maxFactor;
      ghost var root;
      maxFactor, root, ps := IsqrtOdd(n0, d, n0);
      if maxFactor == 0 { return; }
      PartlyStart(n0, c);
      ps := TrialDivide(n0, maxFactor, d, root);
    }

    /** Divide by `factor` as often as it goes; max is 0 when a square was left and has been dealt with. */
    method DivideOut(n0: nat, nIn: nat, maxIn: nat, factor: nat, ghost d: nat, ghost rootIn: nat, ghost ps: seq<nat>)
      returns (n: nat, max: nat, ghost root: nat, ghost added: seq<nat>)
      requires wheelTab[..] == Wheel() && d <= 4 && 4 <= n0 < Limit(d) && squareCount == Pow2(d) && 2 <= factor
      requires maxIn != 0 && Left(nIn, n0, maxIn, rootIn) && Partly(ps, n0, nIn, squareCount, factor)
      modifies this
      ensures out == old(out) + added
      ensures max == 0 ==> Factored(ps + added, n0, old(squareCount))
      ensures max != 0 ==> squareCount == old(squareCount) && n % factor != 0 && Left(n, n0, max, root)
      ensures max != 0 ==> Partly(ps + added, n0, n, squareCount, factor)
      decreases n0, 1
    {
      hide Factored, Partly, Pow2, Wheel, IsRoot, Prime, NoDivisorBelow;
      ghost var c := squareCount;
      Pow2Positive(d);
      n, max, root, added := nIn, maxIn, rootIn, [];
      assert ps + [] == ps;
      while n % factor == 0
        invariant wheelTab[..] == Wheel() && squareCount == c && out == old(out) + added
        invariant max != 0 && Left(n, n0, max, root) && Partly(ps + added, n0, n, c, factor)
        decreases n
      {
        PartlyDivide(ps + added, n0, n, c, factor);
        QuotientPositive(factor, n);
        QuotientSmaller(factor, n);
        n := n / factor;
        PrintW(factor);
        assert ps + added + Repeat(factor, c) == ps + (added + Repeat(factor, c));
        added := added + Repeat(factor, c);
        ghost var qs;
        max, root, qs := IsqrtOdd(n, d, n0);
        if max == 0 {
          PartlyEnd(ps + added, n0, n, c, factor, qs);
          assert ps + added + qs == ps + (added + qs);
          added := added + qs;
          return;
        }
        assert out == old(out) + added;
      }
    }

    /** Try the divisors of the wheel up to the square root of what is left. */
    method TrialDivide(n0: nat, max0: nat, ghost d: nat, ghost root0: nat) returns (ghost ps: seq<nat>)
      requires wheelTab[..] == Wheel() && d <= 4 && 4 <= n0 < Limit(d) && squareCount == Pow2(d)
      requires max0 != 0 && Left(n0, n0, max0, root0)
      modifies this
      ensures out == old(out) + ps && Factored(ps, n0, old(squareCount))
      decreases n0, 2
    {
      hide Factored, Partly, Pow2, Wheel, IsRoot, Prime, NoDivisorBelow, Pos, Step;
      ghost var c := squareCount;
      Pow2Positive(d);
      PartlyStart(n0, c);
      FullRound();
      var n, max, factor, w: nat := n0, max0, 2, 0;
      ghost var root, k := root0, 0;
      ps := [];
      while true
        invariant wheelTab[..] == Wheel() && squareCount == c && out == old(out) + ps
        invariant max != 0 && Left(n, n0, max, root) && Partly(ps, n0, n, c, factor)
        invariant 2 <= factor < HALF && w < WHEEL_SIZE && factor == Pos(w) + ROUND * k
        decreases HALF - factor
      {
        ghost var added;
        n, max, root, added := DivideOut(n0, n, max, factor, d, root, ps);
        ps := ps + added;
        if max == 0 { return; }
        NotDividing(ps, n0, n, c, factor);
        if factor >= max {
          RestIsPrime(n, root, factor);
          break;
        }
        PosStep(w);
        SkipTo(n, Pos(w), k, Step(w), Step(w));
        WheelAt(wheelTab[..], w);
        var fw := (factor + wheelTab[w]) % HALF;
        if fw < factor {
          RestIsPrime(n, root, factor + Step(w) - 1);
          break;
        }
        PartlyOn(ps, n0, n, c, factor, fw);
        factor := fw;
        w := w + 1;
        if w >= WHEEL_SIZE {
          w := WHEEL_START;
          k := k + 1;
        }
      }
      PrintW(n);
      PrimeFactored(n, c);
      PartlyEnd(ps, n0, n, c, factor, Repeat(n, c));
      ps := ps + Repeat(n, c);
    }
  }

  /** `n` is left of `n0`, is no square, and needs divisors up to `max`. */
  ghost predicate Left(n: nat, n0: nat, max: nat, root: nat) {
    2 <= n <= n0 && IsRoot(n, root) && 0 < root < HALF && max == OddFloor(root)
  }

  lemma NotDividing(ps: seq<nat>, whole: nat, n: nat, k: nat, f: nat)
    requires Partly(ps, whole, n, k, f) && f >= 2 && n % f != 0
    ensures NoDivisorBelow(n, f + 1)
  {
  }

  lemma QuotientSmaller(f: nat, n: nat)
    requires f >= 2 && n > 0
    ensures n / f < n
  {
    var q := n / f;
    assert n == f * q + n % f;
    if q >= n { MulMono(2, f, q); }
  }

  lemma WheelAt(tab: seq<nat>, w: nat)
    requires tab == Wheel() && w < WHEEL_SIZE
    ensures |tab| == WHEEL_SIZE && tab[w] == Step(w)
  {
  }

  lemma SmallFactored(n: nat, k: nat)
    requires n < 4
    ensures n > 1 ==> Factored(Repeat(n, k), n, k)
    ensures n == 1 ==> Factored([], n, k)
  {
    if n > 1 {
      assert Prime(n);
      PrimeFactored(n, k);
    }
    PowerOfOne(k);
  }

  lemma RootBelow(s: nat, n: nat, top: nat)
    requires s * s == n && 1 <= n <= top && top >= 4
    ensures 0 < s < top
  {
    if s > 1 { MulMono(2, s, s); }
  }

  lemma RootPositive(n: nat, s: nat)
    requires IsRoot(n, s) && n > 0 && s * s != n
    ensures s > 0 && n >= 2
  {
    if n == 1 { if s > 1 { MulMono(2, s, s); } }
  }

  lemma Pow2Double(d: nat)
    ensures Pow2(d + 1) == 2 * Pow2(d)
  {
  }

  lemma Pow2Positive(d: nat)
    ensures Pow2(d) > 0
  {
  }

  /** factor: print the prime factors of a 64-bit number. */
  method FactorNumber(f: Factorizer, n: nat) returns (ghost ps: seq<nat>)
    requires f.wheelTab[..] == Wheel() && n < WIDE
    modifies f
    ensures f.out == old(f.out) + ps && (n > 0 ==> Factored(ps, n, 1)) && (n == 0 ==> ps == [])
  {
    f.squareCount := 1;
    ps := f.Factorize(n, 0);
  }
}
