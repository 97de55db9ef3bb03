/** The order of Debian package versions. */
module Versions {
  import opened Bits
  import opened Options

  predicate IsDigit(c: byte) { 48 <= c <= 57 }

  predicate IsAlpha(c: byte) { 65 <= c <= 90 || 97 <= c <= 122 }

  const TILDE: byte := 126
  const COLON: byte := 58
  const DASH: byte := 45

  /** order: the weight of a character; the end of the string and digits weigh 0. */
  function Order(c: byte): (w: int)
    ensures w == 0 <==> c == 0 || IsDigit(c)
  {
    if c == TILDE then -1 else if c == 0 then 0 else if IsDigit(c) then 0 else if IsAlpha(c) then c else c + 256
  }

  /** Different non-digits have different weights. */
  lemma OrderInjective(c: byte, d: byte)
    requires Order(c) == Order(d) && Order(c) != 0
    ensures c == d
  {
  }

  /** A C string: no zero byte. */
  predicate Text(s: seq<byte>) { forall i :: 0 <= i < |s| ==> s[i] != 0 }

  // ---------------------------------------------------------------- the reference order

  function Digit(c: byte): nat
    requires IsDigit(c)
  {
    c - 48
  }

  /** The number that a string of digits stands for. */
  function Value(ds: seq<byte>): nat
    requires forall i :: 0 <= i < |ds| ==> IsDigit(ds[i])
  {
    if ds == [] then 0 else 10 * Value(ds[..|ds| - 1]) + Digit(ds[|ds| - 1])
  }

  /** How many digits `s` starts with. */
  function DigitRun(s: seq<byte>): (n: nat)
    ensures n <= |s| && (forall i :: 0 <= i < n ==> IsDigit(s[i])) && (n < |s| ==> !IsDigit(s[n]))
    ensures s != [] && IsDigit(s[0]) ==> n > 0
  {
    if s == [] || !IsDigit(s[0]) then 0
    else
      var n := DigitRun(s[1..]);
      assert forall i :: 1 <= i < n + 1 ==> s[i] == s[1..][i - 1];
      1 + n
  }

  /** The alternating parts of a version: the weights of a run of non-digits, then 0 and the number
      that follows it. */
  function Key(s: seq<byte>): seq<int>
    decreases |s|
  {
    if s == [] then []
    else if !IsDigit(s[0]) then [Order(s[0])] + Key(s[1..])
    else
      var n := DigitRun(s);
      [0, Value(s[..n])] + Key(s[n..])
  }

  function Sign(x: int): int { if x < 0 then -1 else if x > 0 then 1 else 0 }

  function Head(a: seq<int>): int { if a == [] then 0 else a[0] }

  function Tail(a: seq<int>): seq<int> { if a == [] then [] else a[1..] }

  /** Lexicographic comparison; a sequence that has ended goes on with zeros. */
  function Cmp(a: seq<int>, b: seq<int>): (r: int)
    ensures -1 <= r <= 1
    decreases |a| + |b|
  {
    if a == [] && b == [] then 0
    else if Head(a) != Head(b) then Sign(Head(a) - Head(b))
    else Cmp(Tail(a), Tail(b))
  }

  lemma {:induction false} CmpReflexive(a: seq<int>)
    ensures Cmp(a, a) == 0
    decreases |a|
  {
    if a != [] { CmpReflexive(Tail(a)); }
  }

  lemma {:induction false} CmpAntisymmetric(a: seq<int>, b: seq<int>)
    ensures Cmp(b, a) == -Cmp(a, b)
    decreases |a| + |b|
  {
    if (a != [] || b != []) && Head(a) == Head(b) { CmpAntisymmetric(Tail(a), Tail(b)); }
  }

  lemma {:induction false} CmpTransitive(a: seq<int>, b: seq<int>, c: seq<int>)
    requires Cmp(a, b) <= 0 && Cmp(b, c) <= 0
    ensures Cmp(a, c) <= 0 && (Cmp(a, c) == 0 <==> Cmp(a, b) == 0 && Cmp(b, c) == 0)
    decreases |a| + |b| + |c|
  {
    if (a != [] || b != [] || c != []) && Head(a) == Head(b) == Head(c) {
      CmpTransitive(Tail(a), Tail(b), Tail(c));
    }
  }

  /** Element `k`, zero past the end. */
  function Elem(a: seq<int>, k: nat): int { if k < |a| then a[k] else 0 }

  /** The first difference decides. */
  lemma {:induction false} CmpIsFirstDifference(a: seq<int>, b: seq<int>, k: nat)
    requires (forall i: nat :: i < k ==> Elem(a, i) == Elem(b, i)) && Elem(a, k) != Elem(b, k)
    ensures Cmp(a, b) == Sign(Elem(a, k) - Elem(b, k))
    decreases k
  {
    if k > 0 {
      assert Elem(a, 0) == Elem(b, 0);
      forall i: nat | i < k ensures Elem(Tail(a), i) == Elem(a, i + 1) && Elem(Tail(b), i) == Elem(b, i + 1) {
      }
      CmpIsFirstDifference(Tail(a), Tail(b), k - 1);
    }
  }

  /** Without a difference, and only then, the versions count as equal. */
  lemma {:induction false} CmpIsZero(a: seq<int>, b: seq<int>)
    ensures Cmp(a, b) == 0 <==> forall i: nat :: Elem(a, i) == Elem(b, i)
    decreases |a| + |b|
  {
    if a != [] || b != [] {
      CmpIsZero(Tail(a), Tail(b));
      assert Elem(a, 0) == Head(a) && Elem(b, 0) == Head(b);
      forall i: nat ensures Elem(Tail(a), i) == Elem(a, i + 1) && Elem(Tail(b), i) == Elem(b, i + 1) {
      }
      if Cmp(a, b) == 0 {
        forall i: nat ensures Elem(a, i) == Elem(b, i) {
          if i > 0 { assert Elem(Tail(a), i - 1) == Elem(Tail(b), i - 1); }
        }
      }
    }
  }

  // ---------------------------------------------------------------- numbers

  function Pow10(n: nat): (p: nat)
    ensures p > 0
  {
    if n == 0 then 1 else 10 * Pow10(n - 1)
  }

  predicate Digits(ds: seq<byte>) { forall i :: 0 <= i < |ds| ==> IsDigit(ds[i]) }

  lemma {:induction false} ValueBound(ds: seq<byte>)
    requires Digits(ds)
    ensures Value(ds) < Pow10(|ds|)
    decreases |ds|
  {
    if ds != [] { ValueBound(ds[..|ds| - 1]); }
  }

  lemma {:induction false} ValueAtLeast(ds: seq<byte>)
    requires Digits(ds) && ds != [] && ds[0] != 48
    ensures Value(ds) >= Pow10(|ds| - 1)
    decreases |ds|
  {
    if |ds| > 1 {
      ValueAtLeast(ds[..|ds| - 1]);
    } else {
      assert ds[..0] == [];
      assert Value(ds) == 10 * Value(ds[..0]) + Digit(ds[0]);
    }
  }

  lemma {:induction false} Pow10Mono(m: nat, n: nat)
    requires m <= n
    ensures Pow10(m) <= Pow10(n)
  {
    if m < n { Pow10Mono(m, n - 1); }
  }

  /** Of two numbers without leading zeros the longer one is larger. */
  lemma LongerIsLarger(a: seq<byte>, b: seq<byte>)
    requires Digits(a) && Digits(b) && |a| > |b| && a[0] != 48
    ensures Value(a) > Value(b)
  {
    hide Value, Pow10;
    ValueAtLeast(a);
    ValueBound(b);
    Pow10Mono(|b|, |a| - 1);
  }

  lemma ValueSnoc(ds: seq<byte>, d: byte)
    requires Digits(ds) && IsDigit(d)
    ensures Digits(ds + [d]) && Value(ds + [d]) == 10 * Value(ds) + Digit(d)
  {
    assert (ds + [d])[..|ds|] == ds;
  }

  lemma {:induction false} LeadingZero(ds: seq<byte>)
    requires Digits(ds) && ds != [] && ds[0] == 48
    ensures Value(ds) == Value(ds[1..])
    decreases |ds|
  {
    if |ds| == 1 {
      assert ds[1..] == [] && ds[..0] == [];
    } else {
      var n := |ds| - 1;
      LeadingZero(ds[..n]);
      assert ds[..n][1..] == ds[1..][..n - 1];
      assert ds[1..][n - 1] == ds[n];
    }
  }

  // ---------------------------------------------------------------- keys

  /** At the end or at a digit. */
  predicate AtNumber(s: seq<byte>) { s == [] || IsDigit(s[0]) }

  /** One side is at a non-digit: its weight decides, or both go on. */
  lemma NonDigitStep(a: seq<byte>, b: seq<byte>)
    requires Text(a) && Text(b) && !(AtNumber(a) && AtNumber(b))
    ensures var x := if a == [] then 0 else Order(a[0]);
            var y := if b == [] then 0 else Order(b[0]);
            if x != y then Cmp(Key(a), Key(b)) == Sign(x - y)
            else a != [] && b != [] && Cmp(Key(a), Key(b)) == Cmp(Key(a[1..]), Key(b[1..]))
  {
    hide Value, DigitRun;
    KeyHead(a);
    KeyHead(b);
  }

  lemma KeyHead(s: seq<byte>)
    ensures Head(Key(s)) == if s == [] then 0 else Order(s[0])
    ensures s != [] && !IsDigit(s[0]) ==> Key(s) != [] && Tail(Key(s)) == Key(s[1..])
  {
  }

  /** Both sides are at a number. */
  lemma NumberStep(a: seq<byte>, b: seq<byte>)
    requires AtNumber(a) && AtNumber(b)
    ensures var m, n := DigitRun(a), DigitRun(b);
            var x, y := Value(a[..m]), Value(b[..n]);
            if x != y then Cmp(Key(a), Key(b)) == Sign(x - y) else Cmp(Key(a), Key(b)) == Cmp(Key(a[m..]), Key(b[n..]))
  {
    hide Value;
    NumberKey(a);
    NumberKey(b);
    TwoSteps(Key(a), Key(b));
  }

  lemma NumberKey(s: seq<byte>)
    requires AtNumber(s)
    ensures var n := DigitRun(s);
            Head(Key(s)) == 0 && Head(Tail(Key(s))) == Value(s[..n]) && Tail(Tail(Key(s))) == Key(s[n..])
  {
    var n := DigitRun(s);
    if s == [] {
      assert s[..n] == [] && s[n..] == [];
    } else {
      assert Key(s) == [0, Value(s[..n])] + Key(s[n..]);
      assert Tail(Key(s)) == [Value(s[..n])] + Key(s[n..]);
    }
  }

  lemma TwoSteps(a: seq<int>, b: seq<int>)
    requires Head(a) == Head(b)
    ensures var x, y := Head(Tail(a)), Head(Tail(b));
            if x != y then Cmp(a, b) == Sign(x - y) else Cmp(a, b) == Cmp(Tail(Tail(a)), Tail(Tail(b)))
  {
  }

  // ---------------------------------------------------------------- version_compare_part

  function At(s: seq<byte>, i: nat): byte { if i < |s| then s[i] else 0 }

  /** The run of non-digits: an answer when the weights differ. */
  method CompareText(v: seq<byte>, r: seq<byte>, i0: nat, j0: nat) returns (i: nat, j: nat, diff: int)
    requires Text(v) && Text(r) && i0 <= |v| && j0 <= |r|
    ensures i0 <= i <= |v| && j0 <= j <= |r|
    ensures diff != 0 ==> Sign(diff) == Cmp(Key(v[i0..]), Key(r[j0..]))
    ensures diff == 0 ==>
              AtNumber(v[i..]) && AtNumber(r[j..]) && Cmp(Key(v[i0..]), Key(r[j0..])) == Cmp(Key(v[i..]), Key(r[j..]))
  {
    hide Key, Cmp;
    i, j, diff := i0, j0, 0;
    while (At(v, i) != 0 && !IsDigit(At(v, i))) || (At(r, j) != 0 && !IsDigit(At(r, j)))
      invariant i0 <= i <= |v| && j0 <= j <= |r| && diff == 0
      invariant Cmp(Key(v[i0..]), Key(r[j0..])) == Cmp(Key(v[i..]), Key(r[j..]))
      decreases |v| - i
    {
      var vc, rc := Order(At(v, i)), Order(At(r, j));
      NonDigitStep(v[i..], r[j..]);
      if vc != rc {
        diff := vc - rc;
        return;
      }
      assert v[i..][1..] == v[i + 1..] && r[j..][1..] == r[j + 1..];
      i, j := i + 1, j + 1;
    }
  }

  lemma RunEnd(s: seq<byte>, i: nat)
    requires i <= |s|
    ensures var end := i + DigitRun(s[i..]);
            end <= |s| && !IsDigit(At(s, end)) && Digits(s[i..end]) && forall k :: i <= k < end ==> IsDigit(s[k])
  {
    hide DigitRun;
    var end := i + DigitRun(s[i..]);
    forall k | i <= k < end ensures IsDigit(s[k]) {
      assert s[k] == s[i..][k - i];
    }
    assert end < |s| ==> s[end] == s[i..][end - i];
  }

  /** Skip zeros: the number stays the same. */
  method SkipZeros(s: seq<byte>, i0: nat, ghost end: nat) returns (i: nat)
    requires i0 <= end <= |s| && Digits(s[i0..end]) && !IsDigit(At(s, end))
    ensures i0 <= i <= end && At(s, i) != 48 && Digits(s[i..end]) && Value(s[i0..end]) == Value(s[i..end])
  {
    hide Value;
    i := i0;
    while At(s, i) == 48
      invariant i0 <= i <= end && Value(s[i0..end]) == Value(s[i..end])
      decreases |s| - i
    {
      RunStops(s, i0, i, end);
      LeadingZero(s[i..end]);
      assert s[i..end][1..] == s[i + 1..end];
      i := i + 1;
    }
  }

  lemma FirstDifference(x: nat, y: nat, a: byte, b: byte, diff: int)
    requires IsDigit(a) && IsDigit(b) && Sign(x - y) == Sign(diff)
    ensures var d := if diff == 0 then a as int - b as int else diff;
            Sign((10 * x + Digit(a)) - (10 * y + Digit(b))) == Sign(d)
  {
  }

  /** The digits after the zeros: the longer number wins, then the first digit that differs. */
  method CompareDigits(v: seq<byte>, r: seq<byte>, i1: nat, j1: nat, ghost endV: nat, ghost endR: nat)
    returns (i: nat, j: nat, diff: int)
    requires i1 <= endV <= |v| && j1 <= endR <= |r| && At(v, i1) != 48 && At(r, j1) != 48
    requires Digits(v[i1..endV]) && Digits(r[j1..endR]) && !IsDigit(At(v, endV)) && !IsDigit(At(r, endR))
    ensures Sign(diff) == Sign(Value(v[i1..endV]) - Value(r[j1..endR]))
    ensures diff == 0 ==> i == endV && j == endR
  {
    hide Value;
    ghost var dv, dr := v[i1..endV], r[j1..endR];
    i, j := i1, j1;
    var firstDiff := 0;
    EmptyValue(v[i1..i1], r[j1..j1]);
    while IsDigit(At(v, i)) && IsDigit(At(r, j))
      invariant i1 <= i <= endV && j1 <= j <= endR && i - i1 == j - j1
      invariant Digits(v[i1..i]) && Digits(r[j1..j]) && Sign(Value(v[i1..i]) - Value(r[j1..j])) == Sign(firstDiff)
      decreases |v| - i
    {
      ValueSnoc(v[i1..i], v[i]);
      ValueSnoc(r[j1..j], r[j]);
      assert v[i1..i] + [v[i]] == v[i1..i + 1] && r[j1..j] + [r[j]] == r[j1..j + 1];
      FirstDifference(Value(v[i1..i]), Value(r[j1..j]), v[i], r[j], firstDiff);
      if firstDiff == 0 { firstDiff := v[i] as int - r[j] as int; }
      i, j := i + 1, j + 1;
    }
    RunStops(v, i1, i, endV);
    RunStops(r, j1, j, endR);
    if IsDigit(At(v, i)) {
      LongerIsLarger(dv, dr);
      return i, j, 1;
    }
    if IsDigit(At(r, j)) {
      LongerIsLarger(dr, dv);
      return i, j, -1;
    }
    diff := firstDiff;
  }

  lemma EmptyValue(a: seq<byte>, b: seq<byte>)
    requires a == [] && b == []
    ensures Value(a) == 0 && Value(b) == 0
  {
  }

  lemma RunStops(s: seq<byte>, i1: nat, i: nat, end: nat)
    requires i1 <= i <= end <= |s| && Digits(s[i1..end]) && !IsDigit(At(s, end))
    ensures IsDigit(At(s, i)) <==> i < end
  {
    if i < end { assert s[i] == s[i1..end][i - i1]; }
  }

  /** The number parts. */
  method CompareNumber(v: seq<byte>, r: seq<byte>, i0: nat, j0: nat) returns (i: nat, j: nat, diff: int)
    requires i0 <= |v| && j0 <= |r| && AtNumber(v[i0..]) && AtNumber(r[j0..])
    ensures diff != 0 ==> Sign(diff) == Cmp(Key(v[i0..]), Key(r[j0..]))
    ensures diff == 0 ==> i == i0 + DigitRun(v[i0..]) && j == j0 + DigitRun(r[j0..])
    ensures diff == 0 ==> Cmp(Key(v[i0..]), Key(r[j0..])) == Cmp(Key(v[i..]), Key(r[j..]))
  {
    hide Value, Key, Cmp, DigitRun;
    ghost var endV, endR := i0 + DigitRun(v[i0..]), j0 + DigitRun(r[j0..]);
    RunEnd(v, i0);
    RunEnd(r, j0);
    NumberStepAt(v, r, i0, j0);
    i := SkipZeros(v, i0, endV);
    j := SkipZeros(r, j0, endR);
    i, j, diff := CompareDigits(v, r, i, j, endV, endR);
  }

  lemma NumberStepAt(v: seq<byte>, r: seq<byte>, i0: nat, j0: nat)
    requires i0 <= |v| && j0 <= |r| && AtNumber(v[i0..]) && AtNumber(r[j0..])
    ensures var endV, endR := i0 + DigitRun(v[i0..]), j0 + DigitRun(r[j0..]);
            && Digits(v[i0..endV]) && Digits(r[j0..endR])
            && var x, y := Value(v[i0..endV]), Value(r[j0..endR]);
            if x != y then Cmp(Key(v[i0..]), Key(r[j0..])) == Sign(x - y)
              else Cmp(Key(v[i0..]), Key(r[j0..])) == Cmp(Key(v[endV..]), Key(r[endR..]))
  {
    hide Value, Key, Cmp, DigitRun;
    var m, n := DigitRun(v[i0..]), DigitRun(r[j0..]);
    NumberStep(v[i0..], r[j0..]);
    assert v[i0..][m..] == v[i0 + m..] && r[j0..][n..] == r[j0 + n..];
    assert v[i0..][..m] == v[i0..i0 + m] && r[j0..][..n] == r[j0..j0 + n];
  }

  /** The sign of the result is that of the comparison of the keys. */
  method VersionComparePart(val: Option<seq<byte>>, ref: Option<seq<byte>>) returns (result: int)
    requires Text(val.GetOr([])) && Text(ref.GetOr([]))
    ensures Sign(result) == Cmp(Key(val.GetOr([])), Key(ref.GetOr([])))
  {
    hide Value, Key, Cmp, DigitRun;
    var v, r := val.GetOr([]), ref.GetOr([]);
    var i: nat, j: nat := 0, 0;
    assert v[0..] == v && r[0..] == r;
    while i < |v| || j < |r|
      invariant i <= |v| && j <= |r| && Cmp(Key(v), Key(r)) == Cmp(Key(v[i..]), Key(r[j..]))
      decreases |v| - i + |r| - j
    {
      ghost var i0, j0 := i, j;
      var diff;
      i, j, diff := CompareText(v, r, i, j);
      if diff != 0 { return diff; }
      Progress(v, i0, i);
      Progress(r, j0, j);
      i, j, diff := CompareNumber(v, r, i, j);
      if diff != 0 { return diff; }
    }
    NothingLeft(v[i..], r[j..]);
    result := 0;
  }

  lemma NothingLeft(a: seq<byte>, b: seq<byte>)
    requires a == [] && b == []
    ensures Cmp(Key(a), Key(b)) == 0
  {
  }

  /** Where the text stops there is a number to read, or the end. */
  lemma Progress(s: seq<byte>, i0: nat, i: nat)
    requires i0 <= i <= |s| && AtNumber(s[i..])
    ensures i0 < |s| ==> i0 < i + DigitRun(s[i..])
  {
    if i < |s| { assert s[i..][0] == s[i]; }
  }

  // ---------------------------------------------------------------- whole versions

  datatype Version = Version(epoch: nat, upstream: seq<byte>, revision: seq<byte>)

  /** strchr */
  function FirstIndex(s: seq<byte>, c: byte): (r: Option<nat>)
    ensures r.Some? ==> r.value < |s| && s[r.value] == c && forall i :: 0 <= i < r.value ==> s[i] != c
    ensures r.None? ==> forall i :: 0 <= i < |s| ==> s[i] != c
  {
    if s == [] then None
    else if s[0] == c then Some(0)
    else
      var r := FirstIndex(s[1..], c);
      assert forall i :: 1 <= i < |s| ==> s[i] == s[1..][i - 1];
      if r.None? then None else Some(r.value + 1)
  }

  /** strrchr */
  function LastIndex(s: seq<byte>, c: byte): (r: Option<nat>)
    ensures r.Some? ==> r.value < |s| && s[r.value] == c && forall i :: r.value < i < |s| ==> s[i] != c
    ensures r.None? ==> forall i :: 0 <= i < |s| ==> s[i] != c
  {
    if s == [] then None
    else if s[|s| - 1] == c then Some(|s| - 1)
    else LastIndex(s[..|s| - 1], c)
  }

  /** What follows the first colon. */
  function AfterEpoch(s: seq<byte>): seq<byte> {
    var colon := FirstIndex(s, COLON);
    if colon.Some? then s[colon.value + 1..] else s
  }

  /** [epoch:]upstream[-revision].  `atoi` reads a number from the front of a string; the epoch is
      what an unsigned int keeps of it. */
  function Parse(s: seq<byte>, atoi: seq<byte> -> int): Version {
    var epoch := if FirstIndex(s, COLON).Some? then atoi(s) % 0x1_0000_0000 else 0;
    var rest := AfterEpoch(s);
    var dash := LastIndex(rest, DASH);
    if dash.Some? then Version(epoch, rest[..dash.value], rest[dash.value + 1..]) else Version(epoch, rest, [])
  }

  /** Epochs, then upstream versions, then revisions. */
  function VersionCmp(a: Version, b: Version): int {
    if a.epoch != b.epoch then Sign(a.epoch - b.epoch)
    else if Cmp(Key(a.upstream), Key(b.upstream)) != 0 then Cmp(Key(a.upstream), Key(b.upstream))
    else Cmp(Key(a.revision), Key(b.revision))
  }

  lemma VersionOrder(a: Version, b: Version)
    ensures VersionCmp(a, a) == 0 && VersionCmp(b, a) == -VersionCmp(a, b)
  {
    hide Key, Cmp;
    CmpReflexive(Key(a.upstream));
    CmpReflexive(Key(a.revision));
    CmpAntisymmetric(Key(a.upstream), Key(b.upstream));
    CmpAntisymmetric(Key(a.revision), Key(b.revision));
  }

  lemma VersionTransitive(a: Version, b: Version, c: Version)
    requires VersionCmp(a, b) <= 0 && VersionCmp(b, c) <= 0
    ensures VersionCmp(a, c) <= 0 && (VersionCmp(a, c) == 0 <==> VersionCmp(a, b) == 0 && VersionCmp(b, c) == 0)
  {
    hide Key, Cmp;
    if a.epoch == b.epoch == c.epoch {
      CmpTransitive(Key(a.upstream), Key(b.upstream), Key(c.upstream));
      if Cmp(Key(a.upstream), Key(c.upstream)) == 0 {
        CmpTransitive(Key(a.revision), Key(b.revision), Key(c.revision));
      }
    }
  }

  method VersionCompare(ver1: seq<byte>, ver2: seq<byte>, atoi: seq<byte> -> int) returns (result: int)
    requires Text(ver1) && Text(ver2)
    ensures Sign(result) == VersionCmp(Parse(ver1, atoi), Parse(ver2, atoi))
  {
    hide Key, Cmp, FirstIndex, LastIndex, AfterEpoch;
    var epoch1, v1 := SplitEpoch(ver1, atoi);
    var epoch2, v2 := SplitEpoch(ver2, atoi);
    if epoch1 < epoch2 { return -1; }
    if epoch1 > epoch2 { return 1; }
    var upstream1, deb1 := ChopRevision(v1);
    var upstream2, deb2 := ChopRevision(v2);
    result := VersionComparePart(Some(upstream1), Some(upstream2));
    if result == 0 {
      result := VersionComparePart(deb1, deb2);
    }
  }

  method SplitEpoch(ver: seq<byte>, atoi: seq<byte> -> int) returns (epoch: nat, rest: seq<byte>)
    requires Text(ver)
    ensures epoch == Parse(ver, atoi).epoch && rest == AfterEpoch(ver) && Text(rest)
  {
    epoch, rest := 0, ver;
    var colon := FirstIndex(ver, COLON);
    if colon.Some? {
      epoch := atoi(ver) % 0x1_0000_0000;
      rest := ver[colon.value + 1..];
    }
  }

  /** Chop off what follows the last dash. */
  method ChopRevision(v: seq<byte>) returns (upstream: seq<byte>, deb: Option<seq<byte>>)
    requires Text(v)
    ensures Text(upstream) && Text(deb.GetOr([]))
    ensures var dash := LastIndex(v, DASH);
            if dash.Some? then upstream == v[..dash.value] && deb == Some(v[dash.value + 1..])
            else upstream == v && deb == None
  {
    var dash := LastIndex(v, DASH);
    if dash.Some? {
      upstream, deb := v[..dash.value], Some(v[dash.value + 1..]);
    } else {
      upstream, deb := v, None;
    }
  }

  datatype Operator = Null | Equal | Less | LessEqual | More | MoreEqual | Any

  /** Does the comparison hold in the order of versions? */
  predicate Satisfies(cmp: int, op: Operator) {
    match op
    case Any => true
    case Equal => cmp == 0
    case Less => cmp < 0
    case LessEqual => cmp <= 0
    case More => cmp > 0
    case MoreEqual => cmp >= 0
    case Null => false
  }

  method TestVersion(version1: seq<byte>, version2: seq<byte>, op: Operator, atoi: seq<byte> -> int)
    returns (holds: bool)
    requires Text(version1) && Text(version2)
    ensures holds <==> Satisfies(VersionCmp(Parse(version1, atoi), Parse(version2, atoi)), op)
  {
    hide VersionCmp, Parse;
    var result := VersionCompare(version1, version2, atoi);
    match op
    case Any => holds := true;
    case Equal => holds := result == 0;
    case Less => holds := result < 0;
    case LessEqual => holds := result <= 0;
    case More => holds := result > 0;
    case MoreEqual => holds := result >= 0;
    case Null => holds := false;
  }
}
