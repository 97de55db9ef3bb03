/** One node of the vehicle network: what the protocol does with control messages. */
module Nodes {
  import opened Options
  import opened Decimals
  import opened Wire

  const READY: int := 1
  const GO: int := 2
  const SYNC_REQ: int := 3
  const SYNC_RESP: int := 4
  const DELAY_REQ: int := 5
  const DELAY_RESP: int := 6

  type Mac = nat

  datatype Sample = Sample(offset: int, delay: int)

  /** The part of a node that READY, GO and clock synchronisation work on.  `fired` and `gos` count
      the calls of the callback and the GO broadcasts. */
  datatype Node = Node(group: int, master: bool, enabled: bool, total: int, ready: set<Mac>, goSent: bool,
                       goReceived: bool,
                       callback: bool, fired: nat, gos: nat, runningPtp: bool, samples: seq<Sample>)

  /** A control message to one node, or to all. */
  datatype Send = Send(to: Option<Mac>, control: int, code: nat, body: string)

  datatype Reaction = Reaction(node: Node, sends: seq<Send>)

  // ---------------------------------------------------------------- 64-bit arithmetic

  /** (int64_t) of a 64-bit word. */
  function Signed(x: int): (r: int)
    ensures -0x8000_0000_0000_0000 <= r < 0x8000_0000_0000_0000
  {
    (x + 0x8000_0000_0000_0000) % U64 - 0x8000_0000_0000_0000
  }

  /** C division by 2 truncates toward zero. */
  function Half(x: int): int { if x < 0 then -((-x) / 2) else x / 2 }

  function ClockOffset(t1: nat, t2: nat, t3: nat, t4: nat): int {
    Half(Signed(Signed(t2 - t1) + Signed(t3 - t4)))
  }

  function RoundTrip(t1: nat, t2: nat, t3: nat, t4: nat): int {
    Signed((t4 - t1) - (t3 - t2))
  }

  // ---------------------------------------------------------------- bodies

  /** Cut at a zero character, then trim. */
  function Clean(body: string): string { TrimRight(SkipSpaces(Terminated(body))) }

  function TrimRight(s: string): string { if s != [] && Space(s[|s| - 1]) then TrimRight(s[..|s| - 1]) else s }

  /** scanf with %lu. */
  function ScanWord(s: string): Option<Number> {
    var n := ReadNumber(s);
    if n.None? then None
    else if n.value.value >= U64 || n.value.value + U64 <= 0 then Some(Number(U64 - 1, n.value.rest))
    else Some(Number(n.value.value % U64, n.value.rest))
  }

  /** scanf with %lld. */
  function ScanSigned(s: string): Option<Number> {
    var n := ReadNumber(s);
    if n.None? then None
    else if n.value.value > 0x7FFF_FFFF_FFFF_FFFF then Some(Number(0x7FFF_FFFF_FFFF_FFFF, n.value.rest))
    else if n.value.value < -0x8000_0000_0000_0000 then Some(Number(-0x8000_0000_0000_0000, n.value.rest))
    else Some(n.value)
  }

  datatype Times = Times(t1: nat, t2: nat, t3: nat)

  function TimesText(t: Times): string { Decimal(t.t1) + " " + Decimal(t.t2) + " " + Decimal(t.t3) }

  function ScanTimes(s: string): Option<Times> {
    var a := ScanWord(s);
    if a.None? || a.value.value < 0 then None else
    var b := ScanWord(a.value.rest);
    if b.None? || b.value.value < 0 then None else
    var c := ScanWord(b.value.rest);
    if c.None? || c.value.value < 0 then None else Some(Times(a.value.value, b.value.value, c.value.value))
  }

  function SampleText(s: Sample): string { Decimal(s.offset) + " " + Decimal(s.delay) }

  /** What cannot be read stays 0. */
  function ScanSample(s: string): Sample {
    var a := ScanSigned(s);
    if a.None? then Sample(0, 0) else
    var b := ScanSigned(a.value.rest);
    if b.None? then Sample(a.value.value, 0) else Sample(a.value.value, b.value.value)
  }

  /** A time alone; 0 when there is none. */
  function ScanTime(s: string): nat {
    var a := ScanWord(s);
    if a.None? || a.value.value < 0 then 0 else a.value.value
  }

  lemma WordReads(t: nat, rest: string)
    requires t < U64 && (rest == [] || !DigitChar(rest[0]))
    ensures ScanWord(Decimal(t) + rest) == Some(Number(t, rest))
  {
    hide ReadNumber, Decimal;
    ReadDecimal(t, rest);
  }

  lemma SignedReads(i: int, rest: string)
    requires -0x8000_0000_0000_0000 <= i <= 0x7FFF_FFFF_FFFF_FFFF && (rest == [] || !DigitChar(rest[0]))
    ensures ScanSigned(Decimal(i) + rest) == Some(Number(i, rest))
  {
    hide ReadNumber, Decimal;
    ReadDecimal(i, rest);
  }

  /** Reading on after a blank. */
  lemma AfterBlank(s: string)
    ensures ReadNumber(" " + s) == ReadNumber(s)
  {
    assert (" " + s)[1..] == s;
    assert SkipSpaces(" " + s) == SkipSpaces(s);
  }

  lemma TimeReadsBack(t: nat)
    requires t < U64
    ensures ScanTime(Decimal(t)) == t
  {
    hide ScanWord, Decimal;
    WordReads(t, "");
    assert Decimal(t) + "" == Decimal(t);
  }

  lemma TimesReadBack(t: Times)
    requires t.t1 < U64 && t.t2 < U64 && t.t3 < U64
    ensures ScanTimes(TimesText(t)) == Some(t)
  {
    hide ReadNumber, Decimal;
    var c := Decimal(t.t3);
    var b := Decimal(t.t2) + (" " + c);
    assert TimesText(t) == Decimal(t.t1) + (" " + b);
    WordReads(t.t1, " " + b);
    AfterBlank(b);
    WordReads(t.t2, " " + c);
    AfterBlank(c);
    WordReads(t.t3, "");
    assert c + "" == c;
  }

  lemma SampleReadsBack(s: Sample)
    requires -0x8000_0000_0000_0000 <= s.offset <= 0x7FFF_FFFF_FFFF_FFFF
    requires -0x8000_0000_0000_0000 <= s.delay <= 0x7FFF_FFFF_FFFF_FFFF
    ensures ScanSample(SampleText(s)) == s
  {
    hide ReadNumber, Decimal;
    var b := Decimal(s.delay);
    assert SampleText(s) == Decimal(s.offset) + (" " + b);
    SignedReads(s.offset, " " + b);
    AfterBlank(b);
    SignedReads(s.delay, "");
    assert b + "" == b;
  }

  /** Neither end is a blank, and there is no zero character. */
  predicate Tidy(s: string) { s != [] && Plain(s) && !Space(s[0]) && !Space(s[|s| - 1]) }

  lemma CleanTidy(s: string)
    requires Tidy(s)
    ensures Clean(s) == s
  {
    TerminatedIs(s, s);
  }

  lemma DecimalTidy(i: int)
    ensures Tidy(Decimal(i))
  {
    hide Digits;
  }

  lemma TidyJoin(a: string, b: string)
    requires Tidy(a) && Tidy(b)
    ensures Tidy(a + " " + b)
  {
  }

  lemma TextsTidy(t: Times, s: Sample)
    ensures Tidy(TimesText(t)) && Tidy(SampleText(s))
  {
    hide Decimal, Tidy;
    DecimalTidy(t.t1);
    DecimalTidy(t.t2);
    DecimalTidy(t.t3);
    DecimalTidy(s.offset);
    DecimalTidy(s.delay);
    TidyJoin(Decimal(t.t1), Decimal(t.t2));
    TidyJoin(Decimal(t.t1) + " " + Decimal(t.t2), Decimal(t.t3));
    TidyJoin(Decimal(s.offset), Decimal(s.delay));
  }

  // ---------------------------------------------------------------- reactions

  /** A reply with a body carries its check code. */
  function Reply(to: Mac, control: int, body: string): Send { Send(Some(to), control, CodeOf(body), body) }

  function OnReady(n: Node, from: Mac): Reaction {
    var ready := n.ready + {from};
    if !n.goSent && |ready| == n.total then
      Reaction(n.(ready := ready, goSent := true, gos := n.gos + 1), [Send(None, GO, 0, "")])
    else
      Reaction(n.(ready := ready), [])
  }

  function OnGo(n: Node): Reaction {
    if n.goReceived then Reaction(n, [])
    else Reaction(n.(goReceived := true, fired := if n.callback then n.fired + 1 else n.fired), [])
  }

  function OnDelayReq(n: Node, from: Mac, body: string, clock: nat): Reaction {
    var t := ScanTimes(body);
    if t.None? then Reaction(n, [])
    else
      var v := t.value;
      var s := Sample(ClockOffset(v.t1, v.t2, v.t3, clock), RoundTrip(v.t1, v.t2, v.t3, clock));
      Reaction(n, [Reply(from, DELAY_RESP, SampleText(s))])
  }

  /** What a node does with a control message of its own group whose check code is right. */
  function React(n: Node, from: Mac, control: int, body: string, clock: nat): Reaction {
    if control == READY && n.total > 0 then OnReady(n, from)
    else if control == GO then OnGo(n)
    else if control == SYNC_REQ && n.master then Reaction(n, [Reply(from, SYNC_RESP, Decimal(clock))])
    else if control == SYNC_RESP && !n.master then
      Reaction(n, [Reply(from, DELAY_REQ, TimesText(Times(ScanTime(body), clock, clock)))])
    else if control == DELAY_REQ && n.master then OnDelayReq(n, from, body, clock)
    else if control == DELAY_RESP && !n.master then
      Reaction(n.(samples := n.samples + [ScanSample(body)], runningPtp := false), [])
    else Reaction(n, [])
  }

  /** The check code of a control message is not that of its body. */
  predicate Rejected(m: Message) { m.control != 0 && CodeOf(m.body) != m.code }

  /** notify_by_port, for a message from `from` when the node's own clock shows `clock`. */
  function Handle(n: Node, from: Mac, payload: string, clock: nat): Reaction {
    var p := Parse(payload);
    if p.None? || Rejected(p.value) || p.value.group != n.group then Reaction(n, [])
    else React(n, from, p.value.control, Clean(p.value.body), clock)
  }

  /** enable_start_sync: a node that is not the master counts itself ready. */
  function Enable(n: Node, mac: Mac, total: int, callback: bool): Node {
    n.(enabled := true, total := total, ready := if n.master then {} else {mac}, callback := callback)
  }

  // ---------------------------------------------------------------- the object

  class Protocol {
    var group: int
    var master: bool
    var enabled: bool
    var total: int
    var ready: set<Mac>
    var goSent: bool
    var goReceived: bool
    var callback: bool
    var fired: nat
    var gos: nat
    var runningPtp: bool
    var samples: seq<Sample>

    ghost function State(): Node
      reads this
    {
      Node(group, master, enabled, total, ready, goSent, goReceived, callback, fired, gos, runningPtp, samples)
    }

    constructor (group: int)
      ensures State() == Node(group, false, false, 0, {}, false, false, false, 0, 0, false, [])
    {
      this.group, master, enabled, total, ready := group, false, false, 0, {};
      goSent, goReceived, callback, fired, gos, runningPtp, samples := false, false, false, 0, 0, false, [];
    }

    /** Handle one message.  GO is sent only on the READY that completes the count, once at most; the
        callback fires only on the first GO; a message with a wrong check code changes nothing. */
    method NotifyByPort(from: Mac, payload: string, clock: nat) returns (sends: seq<Send>)
      modifies this
      ensures Reaction(State(), sends) == Handle(old(State()), from, payload, clock)
      ensures Parse(payload).None? || Rejected(Parse(payload).value) ==> State() == old(State()) && sends == []
      ensures Send(None, GO, 0, "") in sends ==>
                && !old(goSent) && goSent && gos == old(gos) + 1 && Parse(payload).Some?
                && Parse(payload).value.control == READY
                && ready == old(ready) + {from} && |ready| == total
      ensures Send(None, GO, 0, "") !in sends ==> goSent == old(goSent) && gos == old(gos)
      ensures old(goReceived) ==> goReceived && fired == old(fired)
      ensures !old(goReceived) && goReceived ==>
                Parse(payload).Some? && Parse(payload).value.control == GO
                  && fired == old(fired) + (if callback then 1 else 0)
      ensures !goReceived ==> fired == old(fired)
    {
      hide Handle;
      sends := Dispatch(from, payload, clock);
      HandleMeans(old(State()), from, payload, clock);
    }

    /** The branches for each control message. */
    method Dispatch(from: Mac, payload: string, clock: nat) returns (sends: seq<Send>)
      modifies this
      ensures Reaction(State(), sends) == Handle(old(State()), from, payload, clock)
    {
      hide Parse, CodeOf, Clean, ScanTime, ScanTimes, ScanSample, ClockOffset, RoundTrip, Decimal;
      sends := [];
      var p := Parse(payload);
      if p.None? { return; }
      var m := p.value;
      var body := Clean(m.body);
      var code := GenerateMac(m.body);
      if m.control != 0 && code != m.code { return; }
      if m.control == READY && m.group == group && total > 0 {
        ready := ready + {from};
        if !goSent && |ready| == total {
          sends := [Send(None, GO, 0, "")];
          goSent := true;
          gos := gos + 1;
        }
      } else if m.control == GO && m.group == group {
        if !goReceived {
          goReceived := true;
          if callback { fired := fired + 1; }
        }
      } else if m.control == SYNC_REQ && m.group == group {
        if master { sends := [Reply(from, SYNC_RESP, Decimal(clock))]; }
      } else if m.control == SYNC_RESP && m.group == group && !master {
        sends := [Reply(from, DELAY_REQ, TimesText(Times(ScanTime(body), clock, clock)))];
      } else if m.control == DELAY_REQ && m.group == group && master {
        var t := ScanTimes(body);
        if t.None? { return; }
        var v := t.value;
        var s := Sample(ClockOffset(v.t1, v.t2, v.t3, clock), RoundTrip(v.t1, v.t2, v.t3, clock));
        sends := [Reply(from, DELAY_RESP, SampleText(s))];
      } else if m.control == DELAY_RESP && m.group == group && !master {
        samples := samples + [ScanSample(body)];
        runningPtp := false;
      }
    }
  }

  /** What a caller learns from the handling of a message. */
  lemma HandleMeans(n: Node, from: Mac, payload: string, clock: nat)
    ensures var p, r, go := Parse(payload), Handle(n, from, payload, clock), Send(None, GO, 0, "");
            && (p.None? || Rejected(p.value) ==> r == Reaction(n, []))
            && (go in r.sends ==>
                  && !n.goSent && r.node.goSent && r.node.gos == n.gos + 1 && p.Some? && p.value.control == READY
                  && r.node.ready == n.ready + {from} && |r.node.ready| == r.node.total)
            && (go !in r.sends ==> r.node.goSent == n.goSent && r.node.gos == n.gos)
            && (n.goReceived ==> r.node.goReceived && r.node.fired == n.fired)
            && (!n.goReceived && r.node.goReceived ==>
                  p.Some? && p.value.control == GO && r.node.fired == n.fired + (if r.node.callback then 1 else 0))
            && (!r.node.goReceived ==> r.node.fired == n.fired)
  {
    hide Parse, CodeOf, Clean, ScanTime, ScanTimes, ScanSample, ClockOffset, RoundTrip, Decimal, TimesText, SampleText;
  }
}
