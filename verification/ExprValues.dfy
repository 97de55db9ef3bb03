/** The values of expr and its operators. */
module ExprValues {
  import opened Options
  import opened Decimals

  datatype Value = Int(i: int) | Str(s: string)

  const MAX_ARITH: int := 0x7FFF_FFFF_FFFF_FFFF
  const MIN_ARITH: int := -0x8000_0000_0000_0000

  predicate InRange(i: int) { MIN_ARITH <= i <= MAX_ARITH }

  function Clamp(i: int): (r: int)
    ensures InRange(r)
  {
    if i > MAX_ARITH then MAX_ARITH else if i < MIN_ARITH then MIN_ARITH else i
  }

  /** strtoll, when it takes the whole string; too large values are clamped. */
  function ToNumber(s: string): (r: Option<int>)
    ensures r.Some? ==> InRange(r.value)
  {
    var n := ReadNumber(s);
    if n.None? || n.value.rest != "" then None else Some(Clamp(n.value.value))
  }

  /** A number turned into text is read back as the same number. */
  lemma DecimalReadsBack(i: int)
    requires InRange(i)
    ensures ToNumber(Decimal(i)) == Some(i)
  {
    hide ReadNumber, Decimal;
    ReadDecimal(i, "");
    assert Decimal(i) + "" == Decimal(i);
  }

  // ---------------------------------------------------------------- conversions

  /** A value as the program holds it. */
  type Val = v: Value | v.Int? ==> InRange(v.i) witness Int(0)

  /** null */
  predicate IsNull(v: Val) { if v.Int? then v.i == 0 else v.s == "" || v.s == "0" }

  /** tostring */
  function AsText(v: Val): string { if v.Int? then Decimal(v.i) else v.s }

  /** toarith: the value as a number, if it is one. */
  function AsNumber(v: Val): (r: Option<int>)
    ensures r.Some? ==> InRange(r.value)
  {
    if v.Int? then Some(v.i) else ToNumber(v.s)
  }

  // ---------------------------------------------------------------- operators

  datatype Op = Or | And | Lt | Le | Eq | EqEq | Ne | Ge | Gt | Add | Sub | Mul | Div | Mod | Colon

  function Token(op: Op): string {
    match op
    case Or => "|" case And => "&" case Lt => "<" case Le => "<=" case Eq => "=" case EqEq => "==" case Ne => "!="
    case Ge => ">=" case Gt => ">" case Add => "+" case Sub => "-" case Mul => "*" case Div => "/" case Mod => "%"
    case Colon => ":"
  }

  /** How tightly an operator binds: | at 0, : at 5. */
  function Level(op: Op): (n: nat)
    ensures n <= 5
  {
    match op
    case Or => 0 case And => 1
    case Lt => 2 case Le => 2 case Eq => 2 case EqEq => 2 case Ne => 2 case Ge => 2 case Gt => 2
    case Add => 3 case Sub => 3 case Mul => 4 case Div => 4 case Mod => 4 case Colon => 5
  }

  /** strcmp: the sign of the comparison. */
  function StrCmp(a: string, b: string): int {
    if a == [] && b == [] then 0
    else if a == [] then -1
    else if b == [] then 1
    else if a[0] != b[0] then (if a[0] < b[0] then -1 else 1)
    else StrCmp(a[1..], b[1..])
  }

  /** Arithmetic on 64 bits wraps around. */
  function Wrap(i: int): (r: int)
    ensures InRange(r)
  {
    (i - MIN_ARITH) % 0x1_0000_0000_0000_0000 + MIN_ARITH
  }

  /** C division truncates toward zero. */
  function Quotient(a: int, b: int): int
    requires b != 0
  {
    var q := (if a < 0 then -a else a) / (if b < 0 then -b else b);
    if (a < 0) != (b < 0) then -q else q
  }

  function Arithmetic(op: Op, a: int, b: int): (r: Option<int>)
    ensures r.Some? ==> InRange(r.value)
  {
    if op.Add? then Some(Wrap(a + b))
    else if op.Sub? then Some(Wrap(a - b))
    else if op.Mul? then Some(Wrap(a * b))
    else if b == 0 then None
    else if op.Div? then Some(Wrap(Quotient(a, b)))
    else Some(Wrap(a - b * Quotient(a, b)))
  }

  predicate Holds(op: Op, l: int, r: int) {
    if op.Lt? then l < r
    else if op.Le? then l <= r
    else if op.Eq? || op.EqEq? then l == r
    else if op.Ne? then l != r
    else if op.Gt? then l > r
    else l >= r
  }

  /** The text by which a value is compared with one that is no number. */
  function CompareText(v: Val): string {
    if AsNumber(v).Some? then Decimal(AsNumber(v).value) else AsText(v)
  }

  /** Numbers are compared as numbers; if one side is none, both are compared as text, a number by
      its decimal digits and not as it was written. */
  predicate Compare(op: Op, l: Val, r: Val) {
    var a, b := AsNumber(l), AsNumber(r);
    if a.Some? && b.Some? then Holds(op, a.value, b.value)
    else Holds(op, StrCmp(CompareText(l), CompareText(r)), 0)
  }

  // ---------------------------------------------------------------- laws of the operations

  /** Arithmetic is exact modulo 2^64, and exact when the result fits. */
  lemma WrapIs(i: int)
    ensures (Wrap(i) - i) % 0x1_0000_0000_0000_0000 == 0 && (Wrap(i) == i <==> InRange(i))
  {
  }

  /** Division truncates toward zero, and / and % belong together, except for the one quotient that
      does not fit. */
  lemma DivisionLaw(a: int, b: int)
    requires InRange(a) && InRange(b) && b != 0
    ensures var q, r := Arithmetic(Div, a, b).value, Arithmetic(Mod, a, b).value;
            && (a == q * b + r <==> !(a == MIN_ARITH && b == -1))
            && -Abs(b) < r < Abs(b) && (r != 0 ==> (r < 0 <==> a < 0))
  {
    hide Wrap;
    var q := Quotient(a, b);
    QuotientLaw(a, b);
    WrapIs(q);
    WrapIs(a - b * q);
  }

  function Abs(a: int): int { if a < 0 then -a else a }

  lemma QuotientLaw(a: int, b: int)
    requires InRange(a) && InRange(b) && b != 0
    ensures var q, r := Quotient(a, b), a - b * Quotient(a, b);
            -Abs(b) < r < Abs(b) && (r != 0 ==> (r < 0 <==> a < 0)) && (InRange(q) <==> !(a == MIN_ARITH && b == -1))
  {
    var x, y := Abs(a), Abs(b);
    SignedProduct(a, b, x / y);
    assert x == y * (x / y) + x % y;
    QuotientBound(x, y);
  }

  /** The product of divisor and quotient has the sign of the dividend. */
  lemma SignedProduct(a: int, b: int, k: int)
    ensures b * (if (a < 0) != (b < 0) then -k else k) == if a < 0 then -(Abs(b) * k) else Abs(b) * k
  {
  }

  lemma QuotientBound(x: int, y: int)
    requires 0 <= x <= -MIN_ARITH && y > 0
    ensures 0 <= x / y <= x && (x / y == -MIN_ARITH <==> x == -MIN_ARITH && y == 1)
  {
    if y > 1 { assert x / y <= x / 2 by { HalfBound(x, y); } }
  }

  lemma HalfBound(x: int, y: int)
    requires 0 <= x && y >= 2
    ensures x / y <= x / 2
  {
    var k := x / y;
    assert 2 * k <= y * k <= x;
  }

  /** strcmp orders texts totally. */
  lemma {:induction false} TextOrder(a: string, b: string)
    ensures StrCmp(a, b) == 0 <==> a == b
    ensures StrCmp(b, a) == -StrCmp(a, b) && -1 <= StrCmp(a, b) <= 1
    decreases |a|
  {
    if a != [] && b != [] && a[0] == b[0] {
      TextOrder(a[1..], b[1..]);
      assert a == [a[0]] + a[1..] && b == [b[0]] + b[1..];
    }
  }

  lemma {:induction false} TextTransitive(a: string, b: string, c: string)
    requires StrCmp(a, b) < 0 && StrCmp(b, c) < 0
    ensures StrCmp(a, c) < 0
    decreases |a|
  {
    if a != [] && b != [] && c != [] && a[0] == b[0] == c[0] { TextTransitive(a[1..], b[1..], c[1..]); }
  }

  /** Of any two values exactly one of <, = and > holds; the other operators are their negations, and
      exchanging the values mirrors them. */
  lemma Trichotomy(l: Val, r: Val)
    ensures Compare(Lt, l, r) != Compare(Ge, l, r) && Compare(Gt, l, r) != Compare(Le, l, r)
    ensures Compare(Eq, l, r) != Compare(Ne, l, r)
    ensures !(Compare(Lt, l, r) && Compare(Gt, l, r))
    ensures Compare(Eq, l, r) <==> !Compare(Lt, l, r) && !Compare(Gt, l, r)
    ensures Compare(Lt, l, r) == Compare(Gt, r, l) && Compare(Eq, l, r) == Compare(Eq, r, l)
    ensures Compare(EqEq, l, r) == Compare(Eq, l, r)
  {
    hide StrCmp, AsNumber, AsText, Decimal;
    TextOrder(CompareText(l), CompareText(r));
  }

  /** Two numbers that are in the other order by their digits. */
  predicate Inverted(a: Val, b: Val) {
    && AsNumber(a).Some? && AsNumber(b).Some? && AsNumber(a).value < AsNumber(b).value
    && StrCmp(CompareText(b), CompareText(a)) < 0
  }

  /** `t` is no number, and its text lies between the digits of two inverted numbers. */
  predicate Between(a: Val, b: Val, t: Val) {
    && Inverted(a, b) && AsNumber(t).None?
    && StrCmp(CompareText(b), CompareText(t)) < 0 && StrCmp(CompareText(t), CompareText(a)) < 0
  }

  /** < is transitive for three values if and only if they are not two inverted numbers and a text between
      their digits. */
  lemma LessTransitiveIff(a: Val, b: Val, c: Val)
    requires Compare(Lt, a, b) && Compare(Lt, b, c)
    ensures Compare(Lt, a, c) <==> !Between(a, b, c) && !Between(b, c, a) && !Between(c, a, b)
  {
    hide StrCmp, AsNumber, AsText, Decimal, CompareText;
    TextOrder(CompareText(a), CompareText(b));
    TextOrder(CompareText(b), CompareText(c));
    TextOrder(CompareText(a), CompareText(c));
    NumberTexts(a, b);
    NumberTexts(b, c);
    NumberTexts(a, c);
    if StrCmp(CompareText(a), CompareText(b)) < 0 && StrCmp(CompareText(b), CompareText(c)) < 0 {
      TextTransitive(CompareText(a), CompareText(b), CompareText(c));
    }
    SortsDiffer(a, c);
  }

  /** The digits of a number are not the text of what is none. */
  lemma SortsDiffer(a: Val, c: Val)
    ensures AsNumber(a).Some? != AsNumber(c).Some? ==> CompareText(a) != CompareText(c)
  {
    hide ToNumber, Decimal;
    if AsNumber(a).Some? { DecimalReadsBack(AsNumber(a).value); }
    if AsNumber(c).Some? { DecimalReadsBack(AsNumber(c).value); }
  }

  /** Numbers are the same if and only if their digits are. */
  lemma NumberTexts(a: Val, b: Val)
    ensures AsNumber(a).Some? && AsNumber(b).Some? ==>
              (CompareText(a) == CompareText(b) <==> AsNumber(a) == AsNumber(b))
  {
    hide ToNumber, Decimal, AsNumber;
    if AsNumber(a).Some? && AsNumber(b).Some? {
      DecimalReadsBack(AsNumber(a).value);
      DecimalReadsBack(AsNumber(b).value);
    }
  }

  /** For two numbers of which the first is less, there is a value with which the order goes round if and
      only if their digits are in the other order. */
  lemma CycleIff(a: Val, b: Val)
    requires AsNumber(a).Some? && AsNumber(b).Some? && Compare(Lt, a, b)
    ensures (exists c: Val :: Cycle(a, b, c)) <==> Inverted(a, b)
  {
    hide StrCmp, AsNumber, AsText, Decimal, ToNumber, CompareText;
    if c: Val :| Cycle(a, b, c) {
      if AsNumber(c).None? { TextTransitive(CompareText(b), CompareText(c), CompareText(a)); }
    }
    if Inverted(a, b) {
      BlankBetween(b, a);
      assert Cycle(a, b, Str(CompareText(b) + " "));
    }
  }

  predicate Cycle(a: Val, b: Val, c: Val) { Compare(Lt, a, b) && Compare(Lt, b, c) && Compare(Lt, c, a) }

  /** The digits of a number and a blank are no number, and come right after the digits. */
  lemma BlankBetween(b: Val, a: Val)
    requires AsNumber(b).Some? && AsNumber(a).Some? && StrCmp(CompareText(b), CompareText(a)) < 0
    ensures var t := Str(CompareText(b) + " ");
            && AsNumber(t).None? && CompareText(t) == t.s
            && StrCmp(CompareText(b), t.s) < 0 && StrCmp(t.s, CompareText(a)) < 0
  {
    hide StrCmp, Decimal, ReadNumber;
    var j := AsNumber(b).value;
    ReadDecimal(j, " ");
    AfterPrefix(CompareText(b), " ");
    NoBlanks(AsNumber(a).value);
    BlankBefore(CompareText(b), CompareText(a));
  }

  lemma {:induction false} AfterPrefix(s: string, t: string)
    requires t != []
    ensures StrCmp(s, s + t) < 0
    decreases |s|
  {
    if s == [] {
      assert s + t == t;
    } else {
      assert (s + t)[1..] == s[1..] + t;
      AfterPrefix(s[1..], t);
    }
  }

  /** A blank is less than every character of `t`. */
  lemma {:induction false} BlankBefore(s: string, t: string)
    requires StrCmp(s, t) < 0 && forall i :: 0 <= i < |t| ==> ' ' < t[i]
    ensures StrCmp(s + " ", t) < 0
    decreases |s|
  {
    if s == [] {
      assert s + " " == " ";
    } else {
      assert (s + " ")[1..] == s[1..] + " ";
      if t != [] && s[0] == t[0] { BlankBefore(s[1..], t[1..]); }
    }
  }

  lemma NoBlanks(i: int)
    ensures forall k :: 0 <= k < |Decimal(i)| ==> ' ' < Decimal(i)[k]
  {
    hide Digits;
  }

  /** One such value: 2 < 10 as numbers, 10 < 1a and 1a < 2 as texts. */
  lemma LessCycle()
    ensures Cycle(Int(2), Int(10), Str("1a"))
  {
  }

  /** What an operator gives; None when the program stops with an error.  `match_` is the anchored
      regular expression match. */
  function Apply(op: Op, l: Val, r: Val, match_: (string, string) -> Option<Val>): Option<Val> {
    if op.Or? then Some(if IsNull(l) then r else l)
    else if op.And? then Some(if IsNull(l) || IsNull(r) then Int(0) else l)
    else if op.Colon? then match_(AsText(l), AsText(r))
    else if Level(op) == 2 then Some(Int(if Compare(op, l, r) then 1 else 0))
    else
      var a, b := AsNumber(l), AsNumber(r);
      if a.None? || b.None? then None
      else
        var v := Arithmetic(op, a.value, b.value);
        if v.None? then None else Some(Int(v.value))
  }

  /** index: the first character of `s` that is one of `chars`, counted from 1; 0 if there is none. */
  function IndexIn(s: string, chars: string): (n: nat)
    ensures n <= |s| && (n == 0 <==> forall i :: 0 <= i < |s| ==> s[i] !in chars)
    ensures n > 0 ==> s[n - 1] in chars && forall i :: 0 <= i < n - 1 ==> s[i] !in chars
  {
    if s == [] then 0 else if s[0] in chars then 1
    else
      var n := IndexIn(s[1..], chars);
      assert forall i :: 1 <= i < |s| ==> s[i] == s[1..][i - 1];
      if n == 0 then 0 else n + 1
  }

  /** substr */
  function Substring(s: string, pos: Val, len: Val): string {
    var p, n := AsNumber(pos), AsNumber(len);
    if p.None? || n.None? || p.value > |s| || p.value <= 0 || n.value <= 0 then ""
    else s[p.value - 1..if p.value - 1 + n.value < |s| then p.value - 1 + n.value else |s|]
  }
}
