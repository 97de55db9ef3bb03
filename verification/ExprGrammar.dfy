/** The grammar of expr: trees, their tokens, and parsing as the inverse of writing. */
module ExprGrammar {
  import opened Options
  import opened ExprValues

  /** What an expression means, without its writing. */
  datatype Expr =
    | Operand(text: string)
    | Length(arg: Expr)
    | Match(subject: Expr, pattern: Expr)
    | Index(within: Expr, chars: Expr)
    | Substr(whole: Expr, pos: Expr, len: Expr)
    | Binary(op: Op, left: Expr, right: Expr)

  /** How it is written: with parentheses, and words that may be quoted. */
  datatype Tree =
    | Word(text: string)
    | Quoted(text: string)
    | Paren(inner: Tree)
    | LengthT(arg: Tree)
    | MatchT(subject: Tree, pattern: Tree)
    | IndexT(within: Tree, chars: Tree)
    | SubstrT(whole: Tree, pos: Tree, len: Tree)
    | BinaryT(op: Op, left: Tree, right: Tree)

  function Strip(t: Tree): Expr {
    match t
    case Word(s) => Operand(s)
    case Quoted(s) => Operand(s)
    case Paren(u) => Strip(u)
    case LengthT(a) => Length(Strip(a))
    case MatchT(a, b) => Match(Strip(a), Strip(b))
    case IndexT(a, b) => Index(Strip(a), Strip(b))
    case SubstrT(a, b, c) => Substr(Strip(a), Strip(b), Strip(c))
    case BinaryT(op, l, r) => Binary(op, Strip(l), Strip(r))
  }

  /** Words that do not stand for themselves where an operand is expected; Plain for all others. */
  datatype Head = QuoteWord | LengthWord | MatchWord | IndexWord | SubstrWord | Open | Close | Plain

  function HeadOf(s: string): Head {
    if s == "quote" then QuoteWord
    else if s == "length" then LengthWord
    else if s == "match" then MatchWord
    else if s == "index" then IndexWord
    else if s == "substr" then SubstrWord
    else if s == "(" then Open
    else if s == ")" then Close
    else Plain
  }

  function TextOf(h: Head): string {
    match h
    case QuoteWord => "quote" case LengthWord => "length" case MatchWord => "match" case IndexWord => "index"
    case SubstrWord => "substr"
    case Open => "(" case Close => ")" case Plain => ""
  }

  lemma HeadText(h: Head)
    ensures HeadOf(TextOf(h)) == h
  {
  }

  lemma TextHead(s: string)
    ensures !HeadOf(s).Plain? ==> TextOf(HeadOf(s)) == s
  {
  }

  function Tokens(t: Tree): (ts: seq<string>)
    ensures |ts| > 0
  {
    match t
    case Word(s) => [s]
    case Quoted(s) => [TextOf(QuoteWord), s]
    case Paren(u) => [TextOf(Open)] + Tokens(u) + [TextOf(Close)]
    case LengthT(a) => [TextOf(LengthWord)] + Tokens(a)
    case MatchT(a, b) => [TextOf(MatchWord)] + Tokens(a) + Tokens(b)
    case IndexT(a, b) => [TextOf(IndexWord)] + Tokens(a) + Tokens(b)
    case SubstrT(a, b, c) => [TextOf(SubstrWord)] + Tokens(a) + Tokens(b) + Tokens(c)
    case BinaryT(op, l, r) => Tokens(l) + [Token(op)] + Tokens(r)
  }

  /** The tree can stand where operators of level `n` and up are read; 6 is for operands and keywords.
      Operators associate to the left. */
  predicate Fits(t: Tree, n: nat) {
    match t
    case Word(s) => HeadOf(s).Plain?
    case Quoted(s) => true
    case Paren(u) => Fits(u, 0)
    case LengthT(a) => Fits(a, 6)
    case MatchT(a, b) => Fits(a, 6) && Fits(b, 6)
    case IndexT(a, b) => Fits(a, 6) && Fits(b, 6)
    case SubstrT(a, b, c) => Fits(a, 6) && Fits(b, 6) && Fits(c, 6)
    case BinaryT(op, l, r) => n <= Level(op) && Fits(l, Level(op)) && Fits(r, Level(op) + 1)
  }

  // ---------------------------------------------------------------- parsing

  datatype Parsed = Parsed(tree: Tree, rest: seq<string>)

  /** The operator of level `n` that a token stands for. */
  function OpAt(n: nat, s: string): (r: Option<Op>)
    ensures r.Some? ==> Level(r.value) == n && Token(r.value) == s
  {
    if n == 0 then (if s == "|" then Some(Or) else None)
    else if n == 1 then (if s == "&" then Some(And) else None)
    else if n == 2 then
      (if s == "<" then Some(Lt) else if s == "<=" then Some(Le) else if s == "=" then Some(Eq)
        else if s == "==" then Some(EqEq)
       else if s == "!=" then Some(Ne) else if s == ">=" then Some(Ge) else if s == ">" then Some(Gt) else None)
    else if n == 3 then (if s == "+" then Some(Add) else if s == "-" then Some(Sub) else None)
    else if n == 4 then (if s == "*" then Some(Mul) else if s == "/" then Some(Div) else if s == "%" then Some(Mod)
      else None)
    else if n == 5 then (if s == ":" then Some(Colon) else None)
    else None
  }

  lemma OpAtToken(op: Op, n: nat)
    ensures OpAt(n, Token(op)) == if n == Level(op) then Some(op) else None
  {
  }

  function ParseUnary(ts: seq<string>): (r: Option<Parsed>)
    ensures r.Some? ==> |r.value.rest| < |ts|
    decreases |ts|, 0
  {
    if ts == [] then None
    else match HeadOf(ts[0])
      case QuoteWord => if |ts| < 2 then None else Some(Parsed(Quoted(ts[1]), ts[2..]))
      case LengthWord =>
        var a := ParseUnary(ts[1..]);
        if a.None? then None else Some(Parsed(LengthT(a.value.tree), a.value.rest))
      case MatchWord =>
        var a := ParseUnary(ts[1..]);
        if a.None? then None else
        var b := ParseUnary(a.value.rest);
        if b.None? then None else Some(Parsed(MatchT(a.value.tree, b.value.tree), b.value.rest))
      case IndexWord =>
        var a := ParseUnary(ts[1..]);
        if a.None? then None else
        var b := ParseUnary(a.value.rest);
        if b.None? then None else Some(Parsed(IndexT(a.value.tree, b.value.tree), b.value.rest))
      case SubstrWord =>
        var a := ParseUnary(ts[1..]);
        if a.None? then None else
        var b := ParseUnary(a.value.rest);
        if b.None? then None else
        var c := ParseUnary(b.value.rest);
        if c.None? then None else Some(Parsed(SubstrT(a.value.tree, b.value.tree, c.value.tree), c.value.rest))
      case Open =>
        var a := ParseLevel(0, ts[1..]);
        if a.None? || a.value.rest == [] || !HeadOf(a.value.rest[0]).Close? then None
        else Some(Parsed(Paren(a.value.tree), a.value.rest[1..]))
      case Close => None
      case Plain => Some(Parsed(Word(ts[0]), ts[1..]))
  }

  /** Operators of level `n` and tighter. */
  function ParseLevel(n: nat, ts: seq<string>): (r: Option<Parsed>)
    requires n <= 6
    ensures r.Some? ==> |r.value.rest| < |ts|
    decreases |ts|, 7 - n
  {
    if n == 6 then ParseUnary(ts)
    else
      var a := ParseLevel(n + 1, ts);
      if a.None? then None else ParseMore(n, a.value.tree, a.value.rest)
  }

  /** Further operators of level `n`, from the left. */
  function ParseMore(n: nat, left: Tree, ts: seq<string>): (r: Option<Parsed>)
    requires n <= 5
    ensures r.Some? ==> |r.value.rest| <= |ts|
    decreases |ts|, 0
  {
    if ts == [] || OpAt(n, ts[0]).None? then Some(Parsed(left, ts))
    else
      var b := ParseLevel(n + 1, ts[1..]);
      if b.None? then None else ParseMore(n, BinaryT(OpAt(n, ts[0]).value, left, b.value.tree), b.value.rest)
  }

  // ---------------------------------------------------------------- what is parsed was written

  lemma {:induction false} UnarySound(ts: seq<string>)
    requires ParseUnary(ts).Some?
    ensures var p := ParseUnary(ts).value; Fits(p.tree, 6) && Tokens(p.tree) + p.rest == ts
    decreases |ts|, 1
  {
    hide HeadOf, TextOf, ParseUnary, ParseLevel, Tokens, Fits;
    HeadParsed(ts);
    match HeadOf(ts[0])
    case QuoteWord => SimpleSound(ts);
    case LengthWord => LengthSound(ts);
    case MatchWord => PairSound(ts);
    case IndexWord => PairSound(ts);
    case SubstrWord => SubstrSound(ts);
    case Open => ParenSound(ts);
    case Plain => SimpleSound(ts);
  }

  lemma HeadParsed(ts: seq<string>)
    requires ParseUnary(ts).Some?
    ensures ts != [] && HeadOf(ts[0]) != Close
  {
    hide HeadOf;
  }

  /** A word, plain or quoted. */
  lemma SimpleSound(ts: seq<string>)
    requires ts != [] && (HeadOf(ts[0]) == Plain || HeadOf(ts[0]) == QuoteWord) && ParseUnary(ts).Some?
    ensures var p := ParseUnary(ts).value; Fits(p.tree, 6) && Tokens(p.tree) + p.rest == ts
  {
    hide HeadOf, TextOf;
    TextHead(ts[0]);
    if HeadOf(ts[0]) == QuoteWord { assert ts == [ts[0], ts[1]] + ts[2..]; }
  }

  lemma {:induction false} LengthSound(ts: seq<string>)
    requires ts != [] && HeadOf(ts[0]) == LengthWord && ParseUnary(ts).Some?
    ensures var p := ParseUnary(ts).value; Fits(p.tree, 6) && Tokens(p.tree) + p.rest == ts
    decreases |ts|, 0
  {
    hide HeadOf, TextOf;
    TextHead(ts[0]);
    UnarySound(ts[1..]);
    assert ts == [ts[0]] + ts[1..];
  }

  lemma {:induction false} PairSound(ts: seq<string>)
    requires ts != [] && (HeadOf(ts[0]) == MatchWord || HeadOf(ts[0]) == IndexWord) && ParseUnary(ts).Some?
    ensures var p := ParseUnary(ts).value; Fits(p.tree, 6) && Tokens(p.tree) + p.rest == ts
    decreases |ts|, 0
  {
    hide HeadOf, TextOf;
    TextHead(ts[0]);
    TwoSound(ts[1..]);
    assert ts == [ts[0]] + ts[1..];
  }

  lemma {:induction false} SubstrSound(ts: seq<string>)
    requires ts != [] && HeadOf(ts[0]) == SubstrWord && ParseUnary(ts).Some?
    ensures var p := ParseUnary(ts).value; Fits(p.tree, 6) && Tokens(p.tree) + p.rest == ts
    decreases |ts|, 0
  {
    hide HeadOf, TextOf;
    TextHead(ts[0]);
    ThreeSound(ts[1..]);
    assert ts == [ts[0]] + ts[1..];
  }

  lemma {:induction false} ParenSound(ts: seq<string>)
    requires ts != [] && HeadOf(ts[0]) == Open && ParseUnary(ts).Some?
    ensures var p := ParseUnary(ts).value; Fits(p.tree, 6) && Tokens(p.tree) + p.rest == ts
    decreases |ts|, 0
  {
    hide HeadOf, TextOf, ParseLevel;
    LevelSound(0, ts[1..]);
    var a := ParseLevel(0, ts[1..]).value;
    TextHead(ts[0]);
    TextHead(a.rest[0]);
    assert ts == [ts[0]] + ts[1..];
    assert [ts[0]] + Tokens(a.tree) + [a.rest[0]] + a.rest[1..] == [ts[0]] + (Tokens(a.tree) + a.rest);
  }

  lemma {:induction false} TwoSound(ts: seq<string>)
    requires ParseUnary(ts).Some? && ParseUnary(ParseUnary(ts).value.rest).Some?
    ensures var a := ParseUnary(ts).value;
            var b := ParseUnary(a.rest).value;
            Fits(a.tree, 6) && Fits(b.tree, 6) && ts == Tokens(a.tree) + Tokens(b.tree) + b.rest
    decreases |ts|, 2
  {
    hide ParseUnary, Fits, Tokens;
    var a := ParseUnary(ts).value;
    UnarySound(ts);
    UnarySound(a.rest);
  }

  lemma {:induction false} ThreeSound(ts: seq<string>)
    requires ParseUnary(ts).Some? && ParseUnary(ParseUnary(ts).value.rest).Some?
    requires ParseUnary(ParseUnary(ParseUnary(ts).value.rest).value.rest).Some?
    ensures var a := ParseUnary(ts).value;
            var b := ParseUnary(a.rest).value;
            var c := ParseUnary(b.rest).value;
            Fits(a.tree, 6) && Fits(b.tree, 6) && Fits(c.tree, 6)
              && ts == Tokens(a.tree) + Tokens(b.tree) + Tokens(c.tree) + c.rest
    decreases |ts|, 2
  {
    hide ParseUnary, Fits, Tokens;
    var a := ParseUnary(ts).value;
    UnarySound(ts);
    TwoSound(a.rest);
  }

  lemma FitsBelow(t: Tree, n: nat, m: nat)
    requires Fits(t, n) && m <= n
    ensures Fits(t, m)
  {
  }

  /** What parsing at level `n` returns is a tree of that level, written as the tokens it consumed. */
  lemma {:induction false} LevelSound(n: nat, ts: seq<string>)
    requires n <= 6 && ParseLevel(n, ts).Some?
    ensures var p := ParseLevel(n, ts).value; Fits(p.tree, n) && Tokens(p.tree) + p.rest == ts
    decreases |ts|, 9 - n
  {
    hide Fits, Tokens, ParseUnary;
    if n == 6 {
      UnarySound(ts);
    } else {
      LevelSound(n + 1, ts);
      var a := ParseLevel(n + 1, ts).value;
      FitsBelow(a.tree, n + 1, n);
      MoreSound(n, a.tree, a.rest);
    }
  }

  lemma {:induction false} MoreSound(n: nat, left: Tree, ts: seq<string>)
    requires n <= 5 && Fits(left, n) && ParseMore(n, left, ts).Some?
    ensures var p := ParseMore(n, left, ts).value; Fits(p.tree, n) && Tokens(p.tree) + p.rest == Tokens(left) + ts
    decreases |ts|, 0
  {
    hide Tokens, OpAt, ParseLevel, Fits;
    if ts != [] && OpAt(n, ts[0]).Some? {
      var op := OpAt(n, ts[0]).value;
      LevelSound(n + 1, ts[1..]);
      var b := ParseLevel(n + 1, ts[1..]).value;
      BinaryFits(op, left, b.tree);
      MoreSound(n, BinaryT(op, left, b.tree), b.rest);
      JoinTokens(op, left, b.tree, b.rest, ts);
    }
  }

  lemma BinaryFits(op: Op, l: Tree, r: Tree)
    requires Fits(l, Level(op)) && Fits(r, Level(op) + 1)
    ensures Fits(BinaryT(op, l, r), Level(op))
  {
  }

  lemma JoinTokens(op: Op, l: Tree, r: Tree, rest: seq<string>, ts: seq<string>)
    requires ts != [] && ts[0] == Token(op) && ts[1..] == Tokens(r) + rest
    ensures Tokens(BinaryT(op, l, r)) + rest == Tokens(l) + ts
  {
    hide Tokens, Token;
    BinaryTokens(op, l, r);
    assert ts == [ts[0]] + ts[1..];
    assert Tokens(BinaryT(op, l, r)) + rest == Tokens(l) + ([Token(op)] + (Tokens(r) + rest));
  }

  lemma BinaryTokens(op: Op, l: Tree, r: Tree)
    ensures Tokens(BinaryT(op, l, r)) == Tokens(l) + [Token(op)] + Tokens(r)
  {
  }

  // ---------------------------------------------------------------- what is written is parsed

  /** No operator of level `n` or tighter follows. */
  predicate Stops(n: nat, ts: seq<string>) { ts == [] || forall m :: n <= m <= 5 ==> OpAt(m, ts[0]).None? }

  /** A tree of level `n` is parsed whole, and what follows it is left. */
  lemma {:induction false} ParseTokens(n: nat, t: Tree, rest: seq<string>)
    requires n <= 6 && Fits(t, n) && Stops(n, rest)
    ensures ParseLevel(n, Tokens(t) + rest) == Some(Parsed(t, rest))
    decreases t, 15 - 2 * n
  {
    hide OpAt, Fits, Tokens, ParseUnary;
    if n == 6 {
      ParseOperand(t, rest);
    } else {
      ParseChain(n, t, rest);
      assert rest != [] ==> OpAt(n, rest[0]).None?;
    }
  }

  /** Reading a tree of level `n` leads to where more operators of that level are looked for. */
  lemma {:induction false} ParseChain(n: nat, t: Tree, rest: seq<string>)
    requires n <= 5 && Fits(t, n) && Stops(n + 1, rest)
    ensures ParseLevel(n, Tokens(t) + rest) == ParseMore(n, t, rest)
    decreases t, 14 - 2 * n
  {
    hide OpAt, Tokens, ParseUnary;
    if t.BinaryT? && Level(t.op) == n {
      var after := [Token(t.op)] + (Tokens(t.right) + rest);
      BinaryTokens(t.op, t.left, t.right);
      assert Tokens(t) + rest == Tokens(t.left) + after;
      OpStops(t.op, after);
      ParseChain(n, t.left, after);
      ParseTokens(n + 1, t.right, rest);
      assert after[1..] == Tokens(t.right) + rest;
      OpAtToken(t.op, n);
    } else {
      ParseTokens(n + 1, t, rest);
    }
  }

  lemma OpStops(op: Op, ts: seq<string>)
    requires ts != [] && ts[0] == Token(op)
    ensures Stops(Level(op) + 1, ts)
  {
    forall m | Level(op) + 1 <= m <= 5 ensures OpAt(m, ts[0]).None? { OpAtToken(op, m); }
  }

  lemma {:induction false} ParseOperand(t: Tree, rest: seq<string>)
    requires Fits(t, 6)
    ensures ParseUnary(Tokens(t) + rest) == Some(Parsed(t, rest))
    decreases t, 2
  {
    hide HeadOf, TextOf, ParseLevel, Stops;
    var ts := Tokens(t) + rest;
    match t
    case Word(s) =>
      assert ts[1..] == rest;
    case Quoted(s) =>
      HeadText(QuoteWord);
      assert ts[2..] == rest;
    case Paren(u) =>
      HeadText(Open);
      HeadText(Close);
      var after := [TextOf(Close)] + rest;
      assert ts[1..] == Tokens(u) + after && after[1..] == rest;
      ParenStops(after);
      ParseTokens(0, u, after);
    case LengthT(a) =>
      HeadText(LengthWord);
      assert ts[1..] == Tokens(a) + rest;
      ParseOperand(a, rest);
    case MatchT(a, b) =>
      ParsePair(t, a, b, rest);
    case IndexT(a, b) =>
      ParsePair(t, a, b, rest);
    case SubstrT(a, b, c) =>
      ParseSubstr(t, rest);
  }

  lemma {:induction false} ParsePair(t: Tree, a: Tree, b: Tree, rest: seq<string>)
    requires Fits(t, 6) && (t == MatchT(a, b) || t == IndexT(a, b))
    ensures ParseUnary(Tokens(t) + rest) == Some(Parsed(t, rest))
    decreases t, 1
  {
    hide HeadOf, TextOf, ParseLevel, Stops;
    HeadText(MatchWord);
    HeadText(IndexWord);
    assert Tokens(t) == [Tokens(t)[0]] + Tokens(a) + Tokens(b);
    assert (Tokens(t) + rest)[1..] == Tokens(a) + (Tokens(b) + rest);
    ParseOperand(a, Tokens(b) + rest);
    ParseOperand(b, rest);
  }

  lemma {:induction false} ParseSubstr(t: Tree, rest: seq<string>)
    requires Fits(t, 6) && t.SubstrT?
    ensures ParseUnary(Tokens(t) + rest) == Some(Parsed(t, rest))
    decreases t, 1
  {
    hide HeadOf, TextOf, ParseLevel, Stops;
    HeadText(SubstrWord);
    assert Tokens(t) == [TextOf(SubstrWord)] + Tokens(t.whole) + Tokens(t.pos) + Tokens(t.len);
    assert (Tokens(t) + rest)[1..] == Tokens(t.whole) + (Tokens(t.pos) + (Tokens(t.len) + rest));
    ParseOperand(t.whole, Tokens(t.pos) + (Tokens(t.len) + rest));
    ParseOperand(t.pos, Tokens(t.len) + rest);
    ParseOperand(t.len, rest);
  }

  lemma ParenStops(ts: seq<string>)
    requires ts != [] && ts[0] == TextOf(Close)
    ensures Stops(0, ts)
  {
  }
}
