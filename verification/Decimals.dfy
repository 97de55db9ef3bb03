/** Numbers as decimal text. */
module Decimals {
  import opened Options

  predicate DigitChar(c: char) { '0' <= c <= '9' }

  function DigitOf(c: char): nat
    requires DigitChar(c)
  {
    c as int - '0' as int
  }

  function CharOf(d: nat): (c: char)
    requires d < 10
    ensures DigitChar(c) && DigitOf(c) == d
  {
    ('0' as int + d) as char
  }

  predicate AllDigits(s: string) { forall i :: 0 <= i < |s| ==> DigitChar(s[i]) }

  /** The decimal digits of `n`. */
  function Digits(n: nat): (s: string)
    ensures |s| > 0 && AllDigits(s)
  {
    if n < 10 then [CharOf(n)] else Digits(n / 10) + [CharOf(n % 10)]
  }

  /** As printf writes it with %d, %u and their longer forms. */
  function Decimal(i: int): (s: string)
    ensures |s| > 0
  {
    if i < 0 then "-" + Digits(-i) else Digits(i)
  }

  function Magnitude(s: string): nat
    requires AllDigits(s)
  {
    if s == [] then 0 else 10 * Magnitude(s[..|s| - 1]) + DigitOf(s[|s| - 1])
  }

  predicate Space(c: char) { c == ' ' || '\t' <= c <= '\r' }

  function SkipSpaces(s: string): string { if s != [] && Space(s[0]) then SkipSpaces(s[1..]) else s }

  /** How many digits `s` starts with. */
  function DigitRun(s: string): (n: nat)
    ensures n <= |s| && AllDigits(s[..n]) && (n < |s| ==> !DigitChar(s[n]))
  {
    if s == [] || !DigitChar(s[0]) then 0
    else
      var n := DigitRun(s[1..]);
      assert forall i :: 1 <= i < n + 1 ==> s[i] == s[1..][..n][i - 1];
      n + 1
  }

  datatype Number = Number(value: int, rest: string)

  /** As strtol and scanf read it: spaces, a sign, digits.  None without digits. */
  function ReadNumber(s: string): Option<Number> {
    var t := SkipSpaces(s);
    var negative := t != [] && t[0] == '-';
    var ds := if t != [] && (t[0] == '-' || t[0] == '+') then t[1..] else t;
    var n := DigitRun(ds);
    if n == 0 then None else Some(Number(if negative then 0 - Magnitude(ds[..n]) else Magnitude(ds[..n]), ds[n..]))
  }

  lemma {:induction false} MagnitudeDigits(n: nat)
    ensures Magnitude(Digits(n)) == n
  {
    if n < 10 {
      assert Digits(n)[..0] == [];
    } else {
      MagnitudeDigits(n / 10);
      assert Digits(n)[..|Digits(n)| - 1] == Digits(n / 10);
    }
  }

  lemma {:induction false} RunOf(ds: string, rest: string)
    requires AllDigits(ds) && (rest == [] || !DigitChar(rest[0]))
    ensures DigitRun(ds + rest) == |ds|
    decreases |ds|
  {
    if ds == [] {
      assert ds + rest == rest;
    } else {
      assert (ds + rest)[1..] == ds[1..] + rest;
      RunOf(ds[1..], rest);
    }
  }

  /** A number that was written is read back. */
  lemma ReadDecimal(i: int, rest: string)
    requires rest == [] || !DigitChar(rest[0])
    ensures ReadNumber(Decimal(i) + rest) == Some(Number(i, rest))
  {
    hide Digits, Magnitude, DigitRun;
    var n := if i < 0 then -i else i;
    var ds := Digits(n);
    MagnitudeDigits(n);
    NotSpace(ds[0]);
    var s := Decimal(i) + rest;
    assert SkipSpaces(s) == s;
    RunOf(ds, rest);
    Split(ds, rest);
    if i < 0 {
      assert s[1..] == ds + rest;
    } else {
      assert s == ds + rest;
    }
  }

  lemma Split(a: string, b: string)
    ensures (a + b)[..|a|] == a && (a + b)[|a|..] == b
  {
  }

  lemma NotSpace(c: char)
    requires DigitChar(c)
    ensures !Space(c) && c != '-' && c != '+'
  {
  }
}
