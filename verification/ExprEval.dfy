/** The evaluator of expr, which computes values while it reads and never builds a tree. */
module ExprEval {
  import opened Options
  import opened Decimals
  import opened ExprValues
  import opened ExprGrammar

  type Matcher = (string, string) -> Option<Val>

  // ---------------------------------------------------------------- the reference

  /** The value of an expression, all operands first; None when the program stops with an error. */
  function Eval(e: Expr, m: Matcher): Option<Val> {
    match e
    case Operand(s) => Some(Str(s))
    case Length(a) => var x := Eval(a, m); if x.None? then None else Some(Int(Wrap(|AsText(x.value)|)))
    case Match(a, b) =>
      var x, y := Eval(a, m), Eval(b, m);
      if x.None? || y.None? then None else m(AsText(x.value), AsText(y.value))
    case Index(a, b) =>
      var x, y := Eval(a, m), Eval(b, m);
      if x.None? || y.None? then None else Some(Int(Wrap(IndexIn(AsText(x.value), AsText(y.value)))))
    case Substr(a, b, c) =>
      var x, y, z := Eval(a, m), Eval(b, m), Eval(c, m);
      if x.None? || y.None? || z.None? then None else Some(Str(Substring(AsText(x.value), y.value, z.value)))
    case Binary(op, l, r) =>
      var x, y := Eval(l, m), Eval(r, m);
      if x.None? || y.None? then None else Apply(op, x.value, y.value, m)
  }

  /** The value of what was parsed. */
  function Result(p: Option<Parsed>, m: Matcher): Option<Val> {
    if p.None? then None else Eval(Strip(p.value.tree), m)
  }

  /** The value of a whole command line. */
  function Whole(ts: seq<string>, m: Matcher): Option<Val> {
    var p := ParseLevel(0, ts);
    if p.None? || p.value.rest != [] then None else Eval(Strip(p.value.tree), m)
  }

  // ---------------------------------------------------------------- writing with few parentheses

  /** The expression, written so that it can stand at level `n`: quotes and parentheses only where needed. */
  function Write(e: Expr, n: nat): Tree {
    match e
    case Operand(s) => if HeadOf(s).Plain? then Word(s) else Quoted(s)
    case Length(a) => LengthT(Write(a, 6))
    case Match(a, b) => MatchT(Write(a, 6), Write(b, 6))
    case Index(a, b) => IndexT(Write(a, 6), Write(b, 6))
    case Substr(a, b, c) => SubstrT(Write(a, 6), Write(b, 6), Write(c, 6))
    case Binary(op, l, r) =>
      var t := BinaryT(op, Write(l, Level(op)), Write(r, Level(op) + 1));
      if Level(op) < n then Paren(t) else t
  }

  lemma {:induction false} WriteFits(e: Expr, n: nat)
    requires n <= 6
    ensures Fits(Write(e, n), n) && Strip(Write(e, n)) == e
  {
    hide HeadOf;
    match e
    case Operand(s) =>
    case Length(a) => WriteFits(a, 6);
    case Match(a, b) => WriteFits(a, 6); WriteFits(b, 6);
    case Index(a, b) => WriteFits(a, 6); WriteFits(b, 6);
    case Substr(a, b, c) => WriteFits(a, 6); WriteFits(b, 6); WriteFits(c, 6);
    case Binary(op, l, r) => WriteFits(l, Level(op)); WriteFits(r, Level(op) + 1);
  }

  /** No other way to write it at that level is shorter. */
  lemma {:induction false} WriteIsShortest(t: Tree, n: nat)
    requires n <= 6 && Fits(t, n)
    ensures |Tokens(Write(Strip(t), n))| <= |Tokens(t)|
    decreases t
  {
    hide HeadOf, TextOf;
    match t
    case Word(s) =>
    case Quoted(s) =>
    case Paren(u) =>
      WriteIsShortest(u, 0);
      WriteLevels(Strip(u), 0, n);
    case LengthT(a) => WriteIsShortest(a, 6);
    case MatchT(a, b) => WriteIsShortest(a, 6); WriteIsShortest(b, 6);
    case IndexT(a, b) => WriteIsShortest(a, 6); WriteIsShortest(b, 6);
    case SubstrT(a, b, c) => WriteIsShortest(a, 6); WriteIsShortest(b, 6); WriteIsShortest(c, 6);
    case BinaryT(op, l, r) => WriteIsShortest(l, Level(op)); WriteIsShortest(r, Level(op) + 1);
  }

  /** A pair of parentheses makes up for any difference in level. */
  lemma WriteLevels(e: Expr, m: nat, n: nat)
    ensures |Tokens(Write(e, n))| <= |Tokens(Write(e, m))| + 2
  {
    hide HeadOf, TextOf;
  }

  // ---------------------------------------------------------------- the theorems

  lemma LevelZeroStops()
    ensures Stops(0, [])
  {
  }

  /** Any way of writing an expression gets its value. */
  lemma WrittenValue(t: Tree, m: Matcher)
    requires Fits(t, 0)
    ensures Whole(Tokens(t), m) == Eval(Strip(t), m)
  {
    hide ParseLevel, Fits, Tokens, Eval, Strip;
    LevelZeroStops();
    ParseTokens(0, t, []);
    assert Tokens(t) + [] == Tokens(t);
  }

  /** In particular the shortest one. */
  lemma ShortestValue(e: Expr, m: Matcher)
    ensures Whole(Tokens(Write(e, 0)), m) == Eval(e, m)
  {
    hide Whole, Tokens, Eval, Fits, Strip, Write;
    WriteFits(e, 0);
    WrittenValue(Write(e, 0), m);
  }

  /** A command line that has a value is a way of writing some expression with that value. */
  lemma ValueIsWritten(ts: seq<string>, m: Matcher) returns (t: Tree)
    requires Whole(ts, m).Some?
    ensures Fits(t, 0) && Tokens(t) == ts && Whole(ts, m) == Eval(Strip(t), m)
  {
    hide ParseLevel, Fits, Tokens, Eval, Strip;
    LevelSound(0, ts);
    t := ParseLevel(0, ts).value.tree;
    assert Tokens(t) + [] == Tokens(t);
  }

  // ---------------------------------------------------------------- errors

  /** An error in the left operand stays an error. */
  lemma {:induction false} MoreFails(n: nat, left: Tree, ts: seq<string>, m: Matcher)
    requires n <= 5 && Eval(Strip(left), m).None?
    ensures Result(ParseMore(n, left, ts), m).None?
    decreases |ts|
  {
    hide OpAt, ParseLevel, Apply;
    if ts != [] && OpAt(n, ts[0]).Some? && ParseLevel(n + 1, ts[1..]).Some? {
      var b := ParseLevel(n + 1, ts[1..]).value;
      MoreFails(n, BinaryT(OpAt(n, ts[0]).value, left, b.tree), b.rest, m);
    }
  }

  /** One more operator and its right operand. */
  lemma MoreStep(n: nat, left: Tree, ts: seq<string>, m: Matcher)
    requires n <= 5 && ts != [] && OpAt(n, ts[0]).Some? && Eval(Strip(left), m).Some?
    ensures var op, b, x := OpAt(n, ts[0]).value, ParseLevel(n + 1, ts[1..]), Eval(Strip(left), m).value;
            if Result(b, m).None? then Result(ParseMore(n, left, ts), m).None?
            else
              var t := BinaryT(op, left, b.value.tree);
              && ParseMore(n, left, ts) == ParseMore(n, t, b.value.rest)
              && Eval(Strip(t), m) == Apply(op, x, Result(b, m).value, m)
              && (Apply(op, x, Result(b, m).value, m).None? ==> Result(ParseMore(n, left, ts), m).None?)
  {
    hide OpAt, ParseLevel, Apply;
    var b := ParseLevel(n + 1, ts[1..]);
    if b.Some? {
      var t := BinaryT(OpAt(n, ts[0]).value, left, b.value.tree);
      if Eval(Strip(t), m).None? { MoreFails(n, t, b.value.rest, m); }
    }
  }

  lemma MoreEnds(n: nat, left: Tree, ts: seq<string>)
    requires n <= 5 && (ts == [] || OpAt(n, ts[0]).None?)
    ensures ParseMore(n, left, ts) == Some(Parsed(left, ts))
  {
  }

  lemma LevelStarts(n: nat, ts: seq<string>, m: Matcher)
    requires n <= 5
    ensures var a := ParseLevel(n + 1, ts);
            if a.None? then ParseLevel(n, ts).None? else ParseLevel(n, ts) == ParseMore(n, a.value.tree, a.value.rest)
    ensures Result(ParseLevel(n + 1, ts), m).None? ==> Result(ParseLevel(n, ts), m).None?
  {
    hide OpAt;
    var a := ParseLevel(n + 1, ts);
    if a.Some? && Eval(Strip(a.value.tree), m).None? { MoreFails(n, a.value.tree, a.value.rest, m); }
  }

  // ---------------------------------------------------------------- operations on values

  /** tostring */
  method ToText(v: Val) returns (t: Val)
    ensures t == Str(AsText(v))
  {
    t := v;
    if v.Int? { t := Str(Decimal(v.i)); }
  }

  /** toarith: converts the value when it can. */
  method ToArith(v: Val) returns (ok: bool, t: Val)
    ensures ok == AsNumber(v).Some? && t == (if ok then Int(AsNumber(v).value) else v)
  {
    ok, t := true, v;
    if v.Str? {
      var n := ToNumber(v.s);
      if n.None? { return false, v; }
      t := Int(n.value);
    }
  }

  /** Compare two values that toarith has had a go at. */
  method CmpCommon(l: Val, r: Val, op: Op) returns (holds: bool)
    requires Level(op) == 2
    ensures holds == if l.Str? || r.Str? then Holds(op, StrCmp(AsText(l), AsText(r)), 0) else Holds(op, l.i, r.i)
  {
    var ll, rr := 0, 0;
    if l.Str? || r.Str? {
      var a := ToText(l);
      var b := ToText(r);
      ll := StrCmp(a.s, b.s);
    } else {
      ll, rr := l.i, r.i;
    }
    if op == Lt { return ll < rr; }
    if op == Le { return ll <= rr; }
    if op == Eq || op == EqEq { return ll == rr; }
    if op == Ne { return ll != rr; }
    if op == Gt { return ll > rr; }
    return ll >= rr;
  }

  /** Try to turn both sides into numbers, then compare. */
  method Comparison(l: Val, r: Val, op: Op) returns (holds: bool)
    requires Level(op) == 2
    ensures holds == Compare(op, l, r)
  {
    hide StrCmp, AsNumber, AsText;
    var okL, a := ToArith(l);
    var okR, b := ToArith(r);
    holds := CmpCommon(a, b, op);
    CompareIs(op, l, r);
  }

  method ArithmeticCommon(l: Val, r: Val, op: Op) returns (v: Option<int>)
    requires Level(op) == 3 || Level(op) == 4
    ensures v == if AsNumber(l).None? || AsNumber(r).None? then None
              else Arithmetic(op, AsNumber(l).value, AsNumber(r).value)
  {
    var ok, a := ToArith(l);
    if !ok { return None; }
    var b;
    ok, b := ToArith(r);
    if !ok { return None; }
    if op == Add { return Some(Wrap(a.i + b.i)); }
    if op == Sub { return Some(Wrap(a.i - b.i)); }
    if op == Mul { return Some(Wrap(a.i * b.i)); }
    if b.i == 0 { return None; }
    if op == Div { return Some(Wrap(Quotient(a.i, b.i))); }
    return Some(Wrap(a.i - b.i * Quotient(a.i, b.i)));
  }

  // ---------------------------------------------------------------- the evaluator

  class Evaluator {
    const args: seq<string>
    const m: Matcher
    var pos: nat

    constructor (args: seq<string>, m: Matcher)
      ensures this.args == args && this.m == m && pos == 0
    {
      this.args, this.m, pos := args, m, 0;
    }

    ghost predicate Valid()
      reads this
    {
      pos <= |args|
    }

    /** The tokens not yet read. */
    ghost function Left(): seq<string>
      requires Valid()
      reads this
    {
      args[pos..]
    }

    /** The next token as an operator of level `n`. */
    function NextOp(n: nat): (r: Option<Op>)
      requires Valid()
      reads this
      ensures r == if Left() == [] then None else OpAt(n, Left()[0])
    {
      if pos < |args| then OpAt(n, args[pos]) else None
    }

    method Skip()
      requires Valid() && pos < |args|
      modifies this
      ensures Valid() && pos == old(pos) + 1 && Left() == old(Left())[1..]
    {
      pos := pos + 1;
    }

    /** What each level of the evaluator promises: the value of what can be parsed from here. */
    ghost predicate Evaluated(n: nat, before: seq<string>, v: Option<Val>)
      requires n <= 6
      reads this
    {
      && Valid() && v == Result(ParseLevel(n, before), m)
      && (v.Some? ==> Left() == ParseLevel(n, before).value.rest)
    }

    /** | */
    method Eval0() returns (v: Option<Val>)
      requires Valid()
      modifies this
      ensures Evaluated(0, old(Left()), v)
      decreases |args| - pos, 7
    {
      hide ParseLevel, ParseMore, Eval, OpAt;
      ghost var start := Left();
      LevelStarts(0, start, m);
      v := Eval1();
      if v.None? { return; }
      ghost var t := ParseLevel(1, start).value.tree;
      while NextOp(0) == Some(Or)
        invariant Valid() && v.Some? && Eval(Strip(t), m) == v
        invariant ParseLevel(0, start) == ParseMore(0, t, Left()) && |Left()| < |start|
        decreases |args| - pos
      {
        MoreStep(0, t, Left(), m);
        Skip();
        ghost var rest := Left();
        var r := Eval1();
        if r.None? { return None; }
        t := BinaryT(Or, t, ParseLevel(1, rest).value.tree);
        if IsNull(v.value) { v := r; }
      }
      MoreEnds(0, t, Left());
    }

    /** & */
    method Eval1() returns (v: Option<Val>)
      requires Valid()
      modifies this
      ensures Evaluated(1, old(Left()), v)
      decreases |args| - pos, 6
    {
      hide ParseLevel, ParseMore, Eval, OpAt;
      ghost var start := Left();
      LevelStarts(1, start, m);
      v := Eval2();
      if v.None? { return; }
      ghost var t := ParseLevel(2, start).value.tree;
      while NextOp(1) == Some(And)
        invariant Valid() && v.Some? && Eval(Strip(t), m) == v
        invariant ParseLevel(1, start) == ParseMore(1, t, Left()) && |Left()| < |start|
        decreases |args| - pos
      {
        MoreStep(1, t, Left(), m);
        Skip();
        ghost var rest := Left();
        var r := Eval2();
        if r.None? { return None; }
        t := BinaryT(And, t, ParseLevel(2, rest).value.tree);
        if IsNull(v.value) || IsNull(r.value) { v := Some(Int(0)); }
      }
      MoreEnds(1, t, Left());
    }

    /** Comparisons; both sides are turned into numbers when they can be. */
    method Eval2() returns (v: Option<Val>)
      requires Valid()
      modifies this
      ensures Evaluated(2, old(Left()), v)
      decreases |args| - pos, 5
    {
      hide ParseLevel, ParseMore, Eval, OpAt, Compare;
      ghost var start := Left();
      LevelStarts(2, start, m);
      v := Eval3();
      if v.None? { return; }
      ghost var t := ParseLevel(3, start).value.tree;
      while NextOp(2).Some?
        invariant Valid() && v.Some? && Eval(Strip(t), m) == v
        invariant ParseLevel(2, start) == ParseMore(2, t, Left()) && |Left()| < |start|
        decreases |args| - pos
      {
        var op := NextOp(2).value;
        MoreStep(2, t, Left(), m);
        Skip();
        ghost var rest := Left();
        var r := Eval3();
        if r.None? { return None; }
        t := BinaryT(op, t, ParseLevel(3, rest).value.tree);
        var holds := Comparison(v.value, r.value, op);
        v := Some(Int(if holds then 1 else 0));
      }
      MoreEnds(2, t, Left());
    }

    /** + and - */
    method Eval3() returns (v: Option<Val>)
      requires Valid()
      modifies this
      ensures Evaluated(3, old(Left()), v)
      decreases |args| - pos, 4
    {
      hide ParseLevel, ParseMore, Eval, OpAt;
      ghost var start := Left();
      LevelStarts(3, start, m);
      v := Eval4();
      if v.None? { return; }
      ghost var t := ParseLevel(4, start).value.tree;
      while NextOp(3).Some?
        invariant Valid() && v.Some? && Eval(Strip(t), m) == v
        invariant ParseLevel(3, start) == ParseMore(3, t, Left()) && |Left()| < |start|
        decreases |args| - pos
      {
        var op := NextOp(3).value;
        MoreStep(3, t, Left(), m);
        Skip();
        ghost var rest := Left();
        var r := Eval4();
        if r.None? { return None; }
        t := BinaryT(op, t, ParseLevel(4, rest).value.tree);
        var val := ArithmeticCommon(v.value, r.value, op);
        if val.None? { return None; }
        v := Some(Int(val.value));
      }
      MoreEnds(3, t, Left());
    }

    /** *, / and % */
    method Eval4() returns (v: Option<Val>)
      requires Valid()
      modifies this
      ensures Evaluated(4, old(Left()), v)
      decreases |args| - pos, 3
    {
      hide ParseLevel, ParseMore, Eval, OpAt;
      ghost var start := Left();
      LevelStarts(4, start, m);
      v := Eval5();
      if v.None? { return; }
      ghost var t := ParseLevel(5, start).value.tree;
      while NextOp(4).Some?
        invariant Valid() && v.Some? && Eval(Strip(t), m) == v
        invariant ParseLevel(4, start) == ParseMore(4, t, Left()) && |Left()| < |start|
        decreases |args| - pos
      {
        var op := NextOp(4).value;
        MoreStep(4, t, Left(), m);
        Skip();
        ghost var rest := Left();
        var r := Eval5();
        if r.None? { return None; }
        t := BinaryT(op, t, ParseLevel(5, rest).value.tree);
        var val := ArithmeticCommon(v.value, r.value, op);
        if val.None? { return None; }
        v := Some(Int(val.value));
      }
      MoreEnds(4, t, Left());
    }

    /** : */
    method Eval5() returns (v: Option<Val>)
      requires Valid()
      modifies this
      ensures Evaluated(5, old(Left()), v)
      decreases |args| - pos, 2
    {
      hide ParseLevel, ParseMore, Eval, OpAt;
      ghost var start := Left();
      LevelStarts(5, start, m);
      v := Eval6();
      if v.None? { return; }
      ghost var t := ParseLevel(6, start).value.tree;
      while NextOp(5) == Some(Colon)
        invariant Valid() && v.Some? && Eval(Strip(t), m) == v
        invariant ParseLevel(5, start) == ParseMore(5, t, Left()) && |Left()| < |start|
        decreases |args| - pos
      {
        MoreStep(5, t, Left(), m);
        Skip();
        ghost var rest := Left();
        var r := Eval6();
        if r.None? { return None; }
        t := BinaryT(Colon, t, ParseLevel(6, rest).value.tree);
        v := DoColon(v.value, r.value);
        if v.None? { return; }
      }
      MoreEnds(5, t, Left());
    }

    /** The anchored regular expression match. */
    method DoColon(s: Val, p: Val) returns (v: Option<Val>)
      ensures v == m(AsText(s), AsText(p))
    {
      var a := ToText(s);
      var b := ToText(p);
      v := m(a.s, b.s);
    }

    /** The keywords. */
    method Eval6() returns (v: Option<Val>)
      requires Valid()
      modifies this
      ensures Evaluated(6, old(Left()), v)
      decreases |args| - pos, 1
    {
      hide ParseUnary, ParseMore, Eval, HeadOf;
      var head := if pos < |args| then HeadOf(args[pos]) else Plain;
      if head == Plain || head == Open || head == Close {
        v := Eval7();
        return;
      }
      ghost var start := Left();
      Skip();
      if head == QuoteWord {
        QuoteIs(start, m);
        if pos == |args| { return None; }
        v := Some(Str(args[pos]));
        Skip();
        return;
      }
      if head == LengthWord {
        LengthIs(start, m);
        v := Eval6();
        if v.None? { return; }
        var s := ToText(v.value);
        v := Some(Int(Wrap(|s.s|)));
        return;
      }
      if head == SubstrWord {
        v := EvalSubstr(start);
        return;
      }
      v := EvalPair(start, head);
    }

    /** match and index */
    method EvalPair(ghost start: seq<string>, head: Head) returns (v: Option<Val>)
      requires Valid() && start != [] && Left() == start[1..]
      requires HeadOf(start[0]) == head && (head == MatchWord || head == IndexWord)
      modifies this
      ensures Evaluated(6, start, v)
      decreases |args| - pos, 2
    {
      hide ParseUnary, ParseMore, Eval, HeadOf;
      PairIs(start, m);
      var l := Eval6();
      if l.None? { return None; }
      var r := Eval6();
      if r.None? { return None; }
      if head == MatchWord {
        v := DoColon(l.value, r.value);
      } else {
        var a := ToText(l.value);
        var b := ToText(r.value);
        v := Some(Int(Wrap(IndexIn(a.s, b.s))));
      }
    }

    method EvalSubstr(ghost start: seq<string>) returns (v: Option<Val>)
      requires Valid() && start != [] && Left() == start[1..] && HeadOf(start[0]) == SubstrWord
      modifies this
      ensures Evaluated(6, start, v)
      decreases |args| - pos, 2
    {
      hide ParseUnary, ParseMore, Eval, HeadOf;
      SubstrIs(start, m);
      var l := Eval6();
      if l.None? { return None; }
      var i1 := Eval6();
      if i1.None? { return None; }
      var i2 := Eval6();
      if i2.None? { return None; }
      var s := ToText(l.value);
      v := Some(Str(Substring(s.s, i1.value, i2.value)));
    }

    /** Operands and parentheses. */
    method Eval7() returns (v: Option<Val>)
      requires Valid() && (pos < |args| ==> HeadOf(args[pos]) in {Plain, Open, Close})
      modifies this
      ensures Evaluated(6, old(Left()), v)
      decreases |args| - pos, 0
    {
      hide ParseLevel, ParseMore, Eval, HeadOf;
      OperandIs(Left(), m);
      if pos == |args| { return None; }
      ghost var start := Left();
      if HeadOf(args[pos]) == Open {
        Skip();
        v := Eval0();
        if v.None? { return; }
        if pos == |args| || HeadOf(args[pos]) != Close { return None; }
        Skip();
        return;
      }
      if HeadOf(args[pos]) == Close { return None; }
      v := Some(Str(args[pos]));
      Skip();
    }

    /** The whole command line. */
    method Run() returns (v: Option<Val>)
      requires pos == 0
      modifies this
      ensures v == Whole(args, m)
    {
      hide ParseLevel, Eval;
      assert args[0..] == args;
      if |args| == 0 {
        NoTokens(m);
        return None;
      }
      v := Eval0();
      if v.None? { return; }
      if pos < |args| { return None; }
    }
  }

  lemma NoTokens(m: Matcher)
    ensures Whole([], m).None?
  {
  }

  lemma CompareIs(op: Op, l: Val, r: Val)
    requires Level(op) == 2
    ensures var a := if AsNumber(l).Some? then Int(AsNumber(l).value) else l;
            var b := if AsNumber(r).Some? then Int(AsNumber(r).value) else r;
            Compare(op, l, r) == if a.Str? || b.Str? then Holds(op, StrCmp(AsText(a), AsText(b)), 0)
              else Holds(op, a.i, b.i)
  {
    hide Decimal, StrCmp, ToNumber;
  }

  lemma QuoteIs(ts: seq<string>, m: Matcher)
    requires ts != [] && HeadOf(ts[0]) == QuoteWord
    ensures if |ts| < 2 then ParseLevel(6, ts).None?
            else
              && ParseLevel(6, ts) == Some(Parsed(Quoted(ts[1]), ts[2..]))
              && Result(ParseLevel(6, ts), m) == Some(Str(ts[1]))
  {
    hide HeadOf;
  }

  lemma LengthIs(ts: seq<string>, m: Matcher)
    requires ts != [] && HeadOf(ts[0]) == LengthWord
    ensures var a := ParseLevel(6, ts[1..]);
            var v := Result(a, m);
            && Result(ParseLevel(6, ts), m) == (if v.None? then None else Some(Int(Wrap(|AsText(v.value)|))))
            && (v.Some? ==> ParseLevel(6, ts).value.rest == a.value.rest)
  {
    hide HeadOf;
  }

  lemma PairIs(ts: seq<string>, m: Matcher)
    requires ts != [] && (HeadOf(ts[0]) == MatchWord || HeadOf(ts[0]) == IndexWord)
    ensures var a := ParseLevel(6, ts[1..]);
            var x := Result(a, m);
            if x.None? then Result(ParseLevel(6, ts), m).None?
            else
              var b := ParseLevel(6, a.value.rest);
              var y := Result(b, m);
              if y.None? then Result(ParseLevel(6, ts), m).None?
              else
                && ParseLevel(6, ts).Some? && ParseLevel(6, ts).value.rest == b.value.rest
                && Result(ParseLevel(6, ts), m)
                  == (if HeadOf(ts[0]) == MatchWord then m(AsText(x.value), AsText(y.value))
                                                    else Some(Int(Wrap(IndexIn(AsText(x.value), AsText(y.value))))))
  {
    hide HeadOf;
  }

  lemma SubstrIs(ts: seq<string>, m: Matcher)
    requires ts != [] && HeadOf(ts[0]) == SubstrWord
    ensures var a := ParseLevel(6, ts[1..]);
            var x := Result(a, m);
            if x.None? then Result(ParseLevel(6, ts), m).None?
            else
              var b := ParseLevel(6, a.value.rest);
              var y := Result(b, m);
              if y.None? then Result(ParseLevel(6, ts), m).None?
              else
                var c := ParseLevel(6, b.value.rest);
                var z := Result(c, m);
                if z.None? then Result(ParseLevel(6, ts), m).None?
                else
                  && ParseLevel(6, ts).Some? && ParseLevel(6, ts).value.rest == c.value.rest
                  && Result(ParseLevel(6, ts), m) == Some(Str(Substring(AsText(x.value), y.value, z.value)))
  {
    hide HeadOf, Substring, AsText, ParseLevel, ParseUnary;
    SubstrParse(ts);
  }

  lemma SubstrParse(ts: seq<string>)
    requires ts != [] && HeadOf(ts[0]) == SubstrWord
    ensures var a := ParseLevel(6, ts[1..]);
            if a.None? then ParseLevel(6, ts).None?
            else
              var b := ParseLevel(6, a.value.rest);
              if b.None? then ParseLevel(6, ts).None?
              else
                var c := ParseLevel(6, b.value.rest);
                if c.None? then ParseLevel(6, ts).None?
                else ParseLevel(6, ts) == Some(Parsed(SubstrT(a.value.tree, b.value.tree, c.value.tree), c.value.rest))
  {
    hide HeadOf, ParseMore;
  }

  /** An expression in parentheses has the value of what is inside. */
  ghost predicate ParenIs(ts: seq<string>, m: Matcher)
    requires ts != []
  {
    var a := ParseLevel(0, ts[1..]);
    if a.None? || a.value.rest == [] || HeadOf(a.value.rest[0]) != Close then
      ParseLevel(6, ts).None?
    else
      ParseLevel(6, ts) == Some(Parsed(Paren(a.value.tree), a.value.rest[1..]))
        && Result(ParseLevel(6, ts), m) == Result(a, m)
  }

  lemma OperandIs(ts: seq<string>, m: Matcher)
    requires ts != [] ==> HeadOf(ts[0]) in {Plain, Open, Close}
    ensures ts == [] || HeadOf(ts[0]) == Close ==> ParseLevel(6, ts).None?
    ensures ts != [] && HeadOf(ts[0]) == Plain ==> ParseLevel(6, ts) == Some(Parsed(Word(ts[0]), ts[1..]))
    ensures ts != [] && HeadOf(ts[0]) == Plain ==> Result(ParseLevel(6, ts), m) == Some(Str(ts[0]))
    ensures ts != [] && HeadOf(ts[0]) == Open ==> ParenIs(ts, m)
  {
    hide HeadOf, ParseUnary, ParenIs;
    assert ParseLevel(6, ts) == ParseUnary(ts);
    if ts == [] || HeadOf(ts[0]) == Close {
      NoOperand(ts);
    } else if HeadOf(ts[0]) == Plain {
      WordOperand(ts);
      assert Eval(Strip(Word(ts[0])), m) == Some(Str(ts[0]));
    } else {
      ParenOperand(ts, m);
    }
  }

  lemma NoOperand(ts: seq<string>)
    requires ts == [] || HeadOf(ts[0]) == Close
    ensures ParseUnary(ts).None?
  {
    hide HeadOf;
  }

  lemma WordOperand(ts: seq<string>)
    requires ts != [] && HeadOf(ts[0]) == Plain
    ensures ParseUnary(ts) == Some(Parsed(Word(ts[0]), ts[1..]))
  {
    hide HeadOf;
  }

  lemma ParenOperand(ts: seq<string>, m: Matcher)
    requires ts != [] && HeadOf(ts[0]) == Open
    ensures ParenIs(ts, m)
  {
    hide HeadOf, Eval;
    assert ParseLevel(6, ts) == ParseUnary(ts);
    var a := ParseLevel(0, ts[1..]);
    if a.Some? { assert Strip(Paren(a.value.tree)) == Strip(a.value.tree); }
  }
}
