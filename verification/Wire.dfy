/** The text format of protocol messages and their check code. */
module Wire {
  import opened Options
  import opened Decimals
  import opened Bits

  /** A message; `control` is the number of its control type, 0 for data. */
  datatype Message = Message(group: nat, vm: nat, port: nat, time: nat, kind: int, id: nat, control: int, code: nat,
                             body: string)

  const INT_MIN: int := -0x8000_0000
  const INT_MAX: int := 0x7FFF_FFFF
  const U64: nat := 0x1_0000_0000_0000_0000

  /** The widths of the fields. */
  predicate MessageOk(m: Message) {
    && m.group < 256 && m.vm < 256 && m.port < 65536 && m.time < U64 && INT_MIN <= m.kind <= INT_MAX && m.id < U64
    && INT_MIN <= m.control <= INT_MAX && m.code < 256
  }

  function Part(key: string, value: int): string { key + "=" + Decimal(value) + " " }

  function Build(m: Message): string {
    Part("GROUP", m.group) + Part("VM", m.vm) + Part("PORT", m.port) + Part("TIME", m.time)
    + Part("TYPE", m.kind) + Part("ID", m.id) + Part("CONTROL", m.control) + Part("MSGAC", m.code) + m.body
  }

  // ---------------------------------------------------------------- parsing

  /** The first place from `pos` on where `key` occurs. */
  function Find(s: string, key: string, pos: nat): (r: Option<nat>)
    ensures r.Some? ==> pos <= r.value && r.value + |key| <= |s| && s[r.value..r.value + |key|] == key
    decreases |s| - pos
  {
    if pos + |key| > |s| then None
    else if s[pos..pos + |key|] == key then Some(pos)
    else Find(s, key, pos + 1)
  }

  /** Where the first space from `pos` on is, or the end. */
  function FieldEnd(s: string, pos: nat): (e: nat)
    requires pos <= |s|
    ensures pos <= e <= |s|
    decreases |s| - pos
  {
    if pos == |s| || s[pos] == ' ' then pos else FieldEnd(s, pos + 1)
  }

  datatype Field = Field(text: string, pos: nat)

  /** The text after `key=` up to a space; empty, and nothing skipped, when the key is missing. */
  function Extract(s: string, key: string, pos: nat): Field {
    var p := Find(s, key + "=", pos);
    if p.None? then Field("", pos)
    else
      var start := p.value + |key| + 1;
      var end := FieldEnd(s, start);
      Field(s[start..end], end + 1)
  }

  /** stoi and stoull: None where they throw.  stoull takes a sign too, and negates modulo 2^64. */
  function ToInt(v: string, lo: int, hi: int): Option<int> {
    var n := ReadNumber(v);
    if n.None? || n.value.value < lo || n.value.value > hi then None else Some(n.value.value)
  }

  /** A field as a number, the default when it is empty. */
  function Numeric(f: Field, lo: int, hi: int): Option<int> {
    if f.text == "" then Some(0) else ToInt(f.text, lo, hi)
  }

  /** None where the original throws. */
  function Parse(s: string): Option<Message> {
    var group := Extract(s, "GROUP", 0);
    var vm := Extract(s, "VM", group.pos);
    var port := Extract(s, "PORT", vm.pos);
    var time := Extract(s, "TIME", port.pos);
    var kind := Extract(s, "TYPE", time.pos);
    var id := Extract(s, "ID", kind.pos);
    var control := Extract(s, "CONTROL", id.pos);
    var code := Extract(s, "MSGAC", control.pos);
    var g, v, p := Numeric(group, INT_MIN, INT_MAX), Numeric(vm, INT_MIN, INT_MAX), Numeric(port, INT_MIN, INT_MAX);
    var t, k, i := Numeric(time, 1 - U64, U64 - 1), Numeric(kind, INT_MIN, INT_MAX), Numeric(id, 1 - U64, U64 - 1);
    var c, a := Numeric(control, INT_MIN, INT_MAX), Numeric(code, 1 - U64, U64 - 1);
    if g.None? || v.None? || p.None? || t.None? || k.None? || i.None? || c.None? || a.None? then None
    else
      var body := if code.pos < |s| then s[code.pos..] else "";
      Some(Message(g.value % 256, v.value % 256, p.value % 65536, t.value % U64, k.value, i.value % U64, c.value,
        a.value % 256, body))
  }

  // ---------------------------------------------------------------- the round trip

  lemma FindHere(s: string, key: string, pos: nat)
    requires pos + |key| <= |s| && s[pos..pos + |key|] == key
    ensures Find(s, key, pos) == Some(pos)
  {
  }

  lemma {:induction false} FieldEndIs(s: string, pos: nat, end: nat)
    requires pos <= end < |s| && s[end] == ' ' && forall i :: pos <= i < end ==> s[i] != ' '
    ensures FieldEnd(s, pos) == end
    decreases end - pos
  {
    if pos < end { FieldEndIs(s, pos + 1, end); }
  }

  predicate NoSpace(v: string) { forall i :: 0 <= i < |v| ==> v[i] != ' ' }

  lemma {:induction false} DigitsNoSpace(n: nat)
    ensures NoSpace(Digits(n))
  {
    assert forall i :: 0 <= i < |Digits(n)| ==> DigitChar(Digits(n)[i]);
  }

  lemma DecimalNoSpace(i: int)
    ensures NoSpace(Decimal(i))
  {
    hide Digits;
    DigitsNoSpace(if i < 0 then -i else i);
  }

  /** `s` from `pos` on is `key=value `, and then `rest`. */
  ghost predicate FieldAt(s: string, pos: nat, key: string, v: string, rest: string) {
    pos <= |s| && s[pos..] == key + "=" + v + " " + rest && NoSpace(v)
  }

  lemma ExtractIs(s: string, pos: nat, key: string, v: string, rest: string)
    requires FieldAt(s, pos, key, v, rest)
    ensures Extract(s, key, pos) == Field(v, |s| - |rest|) && |s| >= |rest| && s[|s| - |rest|..] == rest
  {
    hide Find, FieldEnd;
    var tail := key + "=" + v + " " + rest;
    var start := pos + |key| + 1;
    var end := start + |v|;
    assert |s| == pos + |tail|;
    assert s[pos..][..|key| + 1] == key + "=";
    assert s[pos..pos + |key + "="|] == key + "=";
    FindHere(s, key + "=", pos);
    assert forall i :: 0 <= i < |tail| ==> s[pos + i] == tail[i] by {
      assert forall i :: 0 <= i < |tail| ==> s[pos + i] == s[pos..][i];
    }
    forall i | start <= i < end ensures s[i] != ' ' {
      assert s[i] == tail[i - pos] == v[i - start];
    }
    assert s[end] == tail[end - pos] == ' ';
    FieldEndIs(s, start, end);
    assert s[start..end] == s[pos..][|key| + 1..|key| + 1 + |v|] == v;
    assert s[end + 1..] == tail[|key| + 1 + |v| + 1..];
  }

  /** The keys in order. */
  function KeyOf(k: nat): string
    requires k < 8
  {
    ["GROUP", "VM", "PORT", "TIME", "TYPE", "ID", "CONTROL", "MSGAC"][k]
  }

  function ValueOf(m: Message, k: nat): int
    requires k < 8
  {
    if k == 0 then m.group else if k == 1 then m.vm else if k == 2 then m.port else if k == 3 then m.time
    else if k == 4 then m.kind else if k == 5 then m.id else if k == 6 then m.control else m.code
  }

  /** The text from field `k` on. */
  function From(m: Message, k: nat): string
    requires k <= 8
    decreases 8 - k
  {
    if k == 8 then m.body else Part(KeyOf(k), ValueOf(m, k)) + From(m, k + 1)
  }

  lemma BuildIsFrom(m: Message)
    ensures Build(m) == From(m, 0)
  {
    hide Part;
    assert From(m, 6) == Part("CONTROL", m.control) + (Part("MSGAC", m.code) + m.body);
    assert From(m, 4) == Part("TYPE", m.kind) + (Part("ID", m.id) + From(m, 6));
    assert From(m, 2) == Part("PORT", m.port) + (Part("TIME", m.time) + From(m, 4));
    assert From(m, 0) == Part("GROUP", m.group) + (Part("VM", m.vm) + From(m, 2));
  }

  /** Where field `k` starts. */
  function Offset(m: Message, k: nat): int
    requires k <= 8
  {
    |From(m, 0)| - |From(m, k)|
  }

  lemma {:induction false} FromAt(m: Message, k: nat)
    requires k <= 8
    ensures 0 <= Offset(m, k) && From(m, 0)[Offset(m, k)..] == From(m, k)
    decreases k
  {
    hide Part, KeyOf, ValueOf;
    if k > 0 {
      FromAt(m, k - 1);
      var p := Part(KeyOf(k - 1), ValueOf(m, k - 1));
      assert From(m, k - 1) == p + From(m, k);
      assert From(m, 0)[Offset(m, k)..] == From(m, 0)[Offset(m, k - 1)..][|p|..];
    }
  }

  lemma ExtractField(m: Message, k: nat)
    requires k < 8
    ensures 0 <= Offset(m, k) && 0 <= Offset(m, k + 1)
    ensures Extract(From(m, 0), KeyOf(k), Offset(m, k)) == Field(Decimal(ValueOf(m, k)), Offset(m, k + 1))
  {
    hide Extract, Decimal, KeyOf, ValueOf;
    FromAt(m, k);
    FromAt(m, k + 1);
    DecimalNoSpace(ValueOf(m, k));
    assert From(m, k) == KeyOf(k) + "=" + Decimal(ValueOf(m, k)) + " " + From(m, k + 1);
    ExtractIs(From(m, 0), Offset(m, k), KeyOf(k), Decimal(ValueOf(m, k)), From(m, k + 1));
  }

  lemma NumericIs(i: int, pos: nat, lo: int, hi: int)
    requires lo <= i <= hi
    ensures Numeric(Field(Decimal(i), pos), lo, hi) == Some(i)
  {
    hide Decimal, ReadNumber;
    ReadDecimal(i, "");
    assert Decimal(i) + "" == Decimal(i);
  }

  /** Every message is read back as it was written, whatever its body. */
  lemma ParseBuild(m: Message)
    requires MessageOk(m)
    ensures Parse(Build(m)) == Some(m)
  {
    hide Extract, Decimal, Part, From, Numeric, KeyOf;
    BuildIsFrom(m);
    ExtractField(m, 0);
    ExtractField(m, 1);
    ExtractField(m, 2);
    ExtractField(m, 3);
    ExtractField(m, 4);
    ExtractField(m, 5);
    ExtractField(m, 6);
    ExtractField(m, 7);
    Keys();
    NumericIs(m.group, Offset(m, 1), INT_MIN, INT_MAX);
    NumericIs(m.vm, Offset(m, 2), INT_MIN, INT_MAX);
    NumericIs(m.port, Offset(m, 3), INT_MIN, INT_MAX);
    NumericIs(m.time, Offset(m, 4), 1 - U64, U64 - 1);
    NumericIs(m.kind, Offset(m, 5), INT_MIN, INT_MAX);
    NumericIs(m.id, Offset(m, 6), 1 - U64, U64 - 1);
    NumericIs(m.control, Offset(m, 7), INT_MIN, INT_MAX);
    NumericIs(m.code, Offset(m, 8), 1 - U64, U64 - 1);
    FromAt(m, 8);
    LastPart(m);
  }

  lemma Keys()
    ensures KeyOf(0) == "GROUP" && KeyOf(1) == "VM" && KeyOf(2) == "PORT" && KeyOf(3) == "TIME"
    ensures KeyOf(4) == "TYPE" && KeyOf(5) == "ID" && KeyOf(6) == "CONTROL" && KeyOf(7) == "MSGAC"
  {
  }

  lemma LastPart(m: Message)
    ensures From(m, 8) == m.body
  {
  }

  // ---------------------------------------------------------------- the check code

  const SECRET_KEY: seq<nat> := [0x41, 0x23, 0x55, 0x88]

  function ByteOf(c: char): byte { c as int % 256 }

  /** The check code of the first `n` characters. */
  function Code(s: string, n: nat): nat
    requires n <= |s|
  {
    if n == 0 then 0 else Xor(Code(s, n - 1), Xor(ByteOf(s[n - 1]), SECRET_KEY[(n - 1) % 4]))
  }

  /** Up to the first zero character. */
  function Terminated(s: string): (t: string)
    ensures t <= s && (forall i :: 0 <= i < |t| ==> t[i] != '\0') && (|t| < |s| ==> s[|t|] == '\0')
  {
    if s == [] || s[0] == '\0' then []
    else
      var t := Terminated(s[1..]);
      assert s == [s[0]] + s[1..];
      [s[0]] + t
  }

  function CodeOf(s: string): nat { Code(Terminated(s), |Terminated(s)|) }

  method GenerateMac(buf: string) returns (code: nat)
    ensures code == CodeOf(buf)
  {
    hide Xor;
    var text := Terminated(buf);
    code := 0;
    for i := 0 to |text|
      invariant code == Code(text, i)
    {
      code := Xor(code, Xor(ByteOf(text[i]), SECRET_KEY[i % 4]));
    }
  }

  lemma {:induction false} XorSmall(a: nat, b: nat, k: nat)
    requires a < Pow2(k) && b < Pow2(k)
    ensures Xor(a, b) < Pow2(k)
    decreases a + b
  {
    if a != 0 || b != 0 {
      assert k > 0;
      HalfBound(a, k);
      HalfBound(b, k);
      XorSmall(a / 2, b / 2, k - 1);
      XorHalves(a, b);
    }
  }

  lemma {:induction false} CodeSmall(s: string, n: nat)
    requires n <= |s|
    ensures Code(s, n) < 256
  {
    hide Xor, Pow2;
    Pow2Values();
    if n > 0 {
      CodeSmall(s, n - 1);
      XorSmall(ByteOf(s[n - 1]), SECRET_KEY[(n - 1) % 4], 8);
      XorSmall(Code(s, n - 1), Xor(ByteOf(s[n - 1]), SECRET_KEY[(n - 1) % 4]), 8);
    }
  }

  lemma {:induction false} XorCommutes(a: nat, b: nat)
    ensures Xor(a, b) == Xor(b, a)
    decreases a + b
  {
    if a != 0 || b != 0 { XorCommutes(a / 2, b / 2); }
  }

  /** Changing one character changes the code. */
  lemma {:induction false} CodeDetects(s: string, j: nat, c: char, n: nat)
    requires j < n <= |s| && ByteOf(c) != ByteOf(s[j])
    ensures Code(s[j := c], n) != Code(s, n)
    decreases n
  {
    hide Xor;
    var t, k := s[j := c], SECRET_KEY[(n - 1) % 4];
    var x, y := Xor(ByteOf(s[n - 1]), k), Xor(ByteOf(t[n - 1]), k);
    if j == n - 1 {
      SameCode(s, t, n - 1);
      if x == y {
        XorCommutes(ByteOf(s[j]), k);
        XorCommutes(ByteOf(c), k);
        XorInjective(k, ByteOf(s[j]), ByteOf(c));
      }
      if Xor(Code(s, n - 1), x) == Xor(Code(s, n - 1), y) { XorInjective(Code(s, n - 1), x, y); }
    } else {
      CodeDetects(s, j, c, n - 1);
      if Xor(Code(s, n - 1), x) == Xor(Code(t, n - 1), x) {
        XorCommutes(Code(s, n - 1), x);
        XorCommutes(Code(t, n - 1), x);
        XorInjective(x, Code(s, n - 1), Code(t, n - 1));
      }
    }
  }

  lemma {:induction false} SameCode(s: string, t: string, n: nat)
    requires n <= |s| && n <= |t| && forall i :: 0 <= i < n ==> s[i] == t[i]
    ensures Code(s, n) == Code(t, n)
  {
    hide Xor;
    if n > 0 { SameCode(s, t, n - 1); }
  }

  predicate Plain(s: string) { forall i :: 0 <= i < |s| ==> s[i] != '\0' }

  /** A change before the end of the text, to another character, is detected. */
  lemma ChangeIsDetected(s: string, j: nat, c: char)
    requires j < |Terminated(s)| && c != '\0' && ByteOf(c) != ByteOf(s[j])
    ensures CodeOf(s[j := c]) != CodeOf(s)
  {
    hide Code;
    var t := Terminated(s);
    TerminatedIs(s[j := c], t[j := c]);
    CodeDetects(t, j, c, |t|);
  }

  /** A change behind the end of the text is not. */
  lemma ChangeBehindEnd(s: string, j: nat, c: char)
    requires |Terminated(s)| < j < |s|
    ensures CodeOf(s[j := c]) == CodeOf(s)
  {
    hide Code;
    TerminatedIs(s[j := c], Terminated(s));
  }

  /** Cutting the text is detected if and only if the code of what is left differs. */
  lemma CutIsDetectedIff(s: string, j: nat)
    requires j < |Terminated(s)|
    ensures CodeOf(s[j := '\0']) != CodeOf(s) <==> Code(s, j) != Code(s, |Terminated(s)|)
  {
    hide Code;
    var t := Terminated(s);
    TerminatedIs(s[j := '\0'], t[..j]);
    SameCode(t[..j], s, j);
    SameCode(t, s, |t|);
  }

  lemma {:induction false} TerminatedIs(s: string, t: string)
    requires t <= s && Plain(t) && (|t| < |s| ==> s[|t|] == '\0')
    ensures Terminated(s) == t
    decreases |t|
  {
    if t != [] {
      TerminatedIs(s[1..], t[1..]);
      assert t == [t[0]] + t[1..];
    }
  }
}
