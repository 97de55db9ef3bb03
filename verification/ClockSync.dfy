/** Clock synchronisation over the same network: how far a computed offset can be off. */
module ClockSync {
  import opened Options
  import opened Arith
  import opened Decimals
  import opened Wire
  import opened Nodes
  import opened Barrier

  // ---------------------------------------------------------------- one exchange

  /** The sample that comes out when the master's clock is read at t1 and t4 and the worker's at t2. */
  function SampleAt(t1: nat, t2: nat, t4: nat, worker: int, master: int): Sample {
    var a, b, d := Shown(t1, master), Shown(t2, worker), Shown(t4, master);
    Sample(ClockOffset(a, b, b, d), RoundTrip(a, b, b, d))
  }

  function Abs(x: int): nat { if x < 0 then -x else x }

  lemma SignedSame(x: int, y: int, k: int)
    requires x == y + U64 * k
    ensures Signed(x) == Signed(y)
  {
    var z := y + 0x8000_0000_0000_0000;
    var q, r := z / U64, z % U64;
    Distribute(q, k, U64);
    ModUnique(x + 0x8000_0000_0000_0000, U64, q + k, r);
  }

  /** Readings wrap around at 64 bits; so do their differences. */
  lemma ShownDifference(s: nat, a: int, t: nat, b: int) returns (k: int)
    ensures Shown(s, a) - Shown(t, b) == (s + a) - (t + b) + U64 * k
  {
    var x, y := s + a, t + b;
    assert x == U64 * (x / U64) + x % U64 && y == U64 * (y / U64) + y % U64;
    k := y / U64 - x / U64;
    Distribute(y / U64, -(x / U64), U64);
  }

  lemma SignedWraps(x: int) returns (k: int)
    ensures Signed(x) == x + U64 * k
  {
    var z := x + 0x8000_0000_0000_0000;
    k := -(z / U64);
    assert z == U64 * (z / U64) + z % U64;
  }

  /** What is computed, in terms of the clock difference and the two transit times. */
  lemma SampleIs(t1: nat, t2: nat, t4: nat, worker: int, master: int)
    ensures var s := SampleAt(t1, t2, t4, worker, master);
            s.offset == Half(Signed(2 * (worker - master) + (t2 - t1) - (t4 - t2))) && s.delay == Signed(t4 - t1)
  {
    hide Signed, Shown;
    var a: int, b: int, d: int := Shown(t1, master), Shown(t2, worker), Shown(t4, master);
    var i := ShownDifference(t2, worker, t1, master);
    var j := ShownDifference(t2, worker, t4, master);
    var k := ShownDifference(t4, master, t1, master);
    var p := SignedWraps(b - a);
    var q := SignedWraps(b - d);
    SignedSame(Signed(b - a) + Signed(b - d), 2 * (worker - master) + (t2 - t1) - (t4 - t2), i + j + p + q);
    SignedSame((d - a) - (b - b), t4 - t1, k);
  }

  /** The delay is the sum of the two transit times; the offset is the clock difference and half of the
      difference of the transit times, rounded. */
  ghost predicate Close(s: Sample, theta: int, there: int, back: int) {
    s.delay == there + back && Abs(2 * (s.offset - theta) - (there - back)) <= 1
  }

  /** ... so the offset is off by half the delay at most. */
  lemma CloseBound(s: Sample, theta: int, there: nat, back: nat)
    requires Close(s, theta, there, back)
    ensures Abs(2 * (s.offset - theta)) <= s.delay + 1
  {
  }

  /** Both the delay and twice the clock difference, shifted by the difference of the transit times,
      fit a signed word. */
  predicate WordsFit(theta: int, there: int, back: int) {
    there + back < 0x8000_0000_0000_0000 && -0x8000_0000_0000_0000 <= 2 * theta + there - back < 0x8000_0000_0000_0000
  }

  /** A sample is close if and only if the words do not overflow. */
  lemma SampleIsClose(t1: nat, t2: nat, t4: nat, worker: int, master: int)
    requires t1 <= t2 <= t4
    ensures Close(SampleAt(t1, t2, t4, worker, master), worker - master, t2 - t1, t4 - t2)
            <==> WordsFit(worker - master, t2 - t1, t4 - t2)
  {
    hide SampleAt, Signed;
    SampleIs(t1, t2, t4, worker, master);
    var z := 2 * (worker - master) + (t2 - t1) - (t4 - t2);
    HalfBound(Signed(z));
    SignedExact(z);
    SignedExact(t4 - t1);
    var k := SignedWraps(z);
  }

  lemma SignedExact(x: int)
    ensures Signed(x) == x <==> -0x8000_0000_0000_0000 <= x < 0x8000_0000_0000_0000
  {
  }

  lemma HalfBound(x: int)
    ensures Abs(2 * Half(x) - x) <= 1
  {
  }

  /** Clocks 2^62 microseconds apart: the computed offset has the wrong sign, though no time passed. */
  lemma FarApart()
    ensures var s := SampleAt(0, 0, 0, 0x4000_0000_0000_0000, 0);
            s == Sample(-0x4000_0000_0000_0000, 0) && !Close(s, 0x4000_0000_0000_0000, 0, 0)
  {
    hide SampleAt;
    SampleIs(0, 0, 0, 0x4000_0000_0000_0000, 0);
  }

  // ---------------------------------------------------------------- the invariant

  /** A clock exchange with a master: when the clocks were read, and what the worker's showed then. */
  datatype Exchange = Exchange(master: Mac, t1: nat, t2: nat, t4: nat, ahead: int)

  ghost predicate IsMaster(s: System, x: Mac) { x in s.nodes && s.nodes[x].master && x in s.ahead }

  /** The master read its clock at `t`. */
  ghost predicate MasterRead(s: System, x: Mac, t: nat) {
    IsMaster(s, x) && t <= s.now && x in s.readings && Reading(t, s.ahead[x]) in s.readings[x]
  }

  /** The master's time has reached worker `x`, which has read its own clock. */
  ghost predicate Began(s: System, x: Mac, e: Exchange) {
    MasterRead(s, e.master, e.t1) && e.t1 <= e.t2 <= s.now && x in s.readings && Reading(e.t2, e.ahead) in s.readings[x]
  }

  /** The whole exchange happened, with worker `x`. */
  ghost predicate Happened(s: System, x: Mac, e: Exchange) {
    Began(s, x, e) && e.t2 <= e.t4 && MasterRead(s, e.master, e.t4)
  }

  ghost function SampleOf(s: System, e: Exchange): Sample
    requires IsMaster(s, e.master)
  {
    SampleAt(e.t1, e.t2, e.t4, e.ahead, s.ahead[e.master])
  }

  ghost predicate TimeSent(s: System, from: Mac, body: string, t1: nat) {
    MasterRead(s, from, t1) && body == Decimal(Shown(t1, s.ahead[from]))
  }

  ghost predicate TimesSent(s: System, from: Mac, to: Option<Mac>, body: string, e: Exchange) {
    && to == Some(e.master) && Began(s, from, e)
    && body == TimesText(Times(Shown(e.t1, s.ahead[e.master]), Shown(e.t2, e.ahead), Shown(e.t2, e.ahead)))
  }

  ghost predicate SampleSent(s: System, from: Mac, to: Option<Mac>, body: string, e: Exchange) {
    to.Some? && from == e.master && Happened(s, to.value, e) && body == SampleText(SampleOf(s, e))
  }

  /** The times and samples in a message come from clocks that were read in the right order. */
  ghost predicate ContentOk(s: System, from: Mac, to: Option<Mac>, control: int, body: string) {
    && (control == SYNC_RESP ==> exists t1: nat :: TimeSent(s, from, body, t1))
    && (control == DELAY_REQ ==> exists e: Exchange :: TimesSent(s, from, to, body, e))
    && (control == DELAY_RESP ==> exists e: Exchange :: SampleSent(s, from, to, body, e))
  }

  ghost predicate Honest(s: System, p: Packet) {
    exists m: Message :: p.payload == Build(m) && MessageOk(m) && ContentOk(s, p.from, p.to, m.control, m.body)
  }

  ghost predicate SampleOk(s: System, x: Mac, v: Sample) {
    exists e: Exchange :: Happened(s, x, e) && v == SampleOf(s, e)
  }

  ghost predicate SamplesOk(s: System, x: Mac, vs: seq<Sample>) { forall i :: 0 <= i < |vs| ==> SampleOk(s, x, vs[i]) }

  ghost predicate ClockInv(s: System) {
    && Complete(s) && (forall p :: p in s.network ==> Honest(s, p))
    && (forall x :: x in s.nodes ==> SamplesOk(s, x, s.nodes[x].samples))
  }

  // ---------------------------------------------------------------- it lasts

  /** Time passes, masters stay masters and keep their clocks, readings are remembered. */
  ghost predicate Later(s: System, t: System) {
    && s.now <= t.now
    && (forall x :: IsMaster(s, x) ==> IsMaster(t, x) && t.ahead[x] == s.ahead[x])
    && (forall x :: x in s.readings ==> x in t.readings && s.readings[x] <= t.readings[x])
  }

  lemma HappenedKept(s: System, t: System, x: Mac, e: Exchange)
    requires Later(s, t) && Happened(s, x, e)
    ensures Happened(t, x, e) && SampleOf(t, e) == SampleOf(s, e)
  {
  }

  lemma BeganKept(s: System, t: System, x: Mac, e: Exchange)
    requires Later(s, t) && Began(s, x, e)
    ensures Began(t, x, e) && IsMaster(s, e.master) && t.ahead[e.master] == s.ahead[e.master]
  {
  }

  lemma ContentKept(s: System, t: System, from: Mac, to: Option<Mac>, control: int, body: string)
    requires Later(s, t) && ContentOk(s, from, to, control, body)
    ensures ContentOk(t, from, to, control, body)
  {
    hide Began, Happened, SampleOf, TimesText, SampleText, Decimal;
    if control == SYNC_RESP {
      var t1: nat :| TimeSent(s, from, body, t1);
      assert TimeSent(t, from, body, t1);
    } else if control == DELAY_REQ {
      var e: Exchange :| TimesSent(s, from, to, body, e);
      BeganKept(s, t, from, e);
      assert TimesSent(t, from, to, body, e);
    } else if control == DELAY_RESP {
      var e: Exchange :| SampleSent(s, from, to, body, e);
      HappenedKept(s, t, to.value, e);
      assert SampleSent(t, from, to, body, e);
    }
  }

  lemma HonestKept(s: System, t: System, p: Packet)
    requires Later(s, t) && Honest(s, p)
    ensures Honest(t, p)
  {
    hide Build, ContentOk;
    var m: Message :| p.payload == Build(m) && MessageOk(m) && ContentOk(s, p.from, p.to, m.control, m.body);
    ContentKept(s, t, p.from, p.to, m.control, m.body);
  }

  lemma SamplesKept(s: System, t: System, x: Mac, vs: seq<Sample>)
    requires Later(s, t) && SamplesOk(s, x, vs)
    ensures SamplesOk(t, x, vs)
  {
    hide SampleOf;
    forall i | 0 <= i < |vs| ensures SampleOk(t, x, vs[i]) {
      assert SampleOk(s, x, vs[i]);
      var e: Exchange :| Happened(s, x, e) && vs[i] == SampleOf(s, e);
      HappenedKept(s, t, x, e);
    }
  }

  // ---------------------------------------------------------------- what a delivery adds

  /** The state right after a node looked at its clock to handle a packet. */
  ghost predicate Looked(s: System, t: System, mac: Mac) {
    && Later(s, t) && t.now == s.now && mac in s.ahead && mac in t.readings
    && Reading(s.now, s.ahead[mac]) in t.readings[mac]
  }

  lemma SyncRespHonest(s: System, t: System, mac: Mac)
    requires Looked(s, t, mac) && IsMaster(s, mac)
    ensures exists t1: nat :: TimeSent(t, mac, Decimal(Shown(s.now, s.ahead[mac])), t1)
  {
    hide Decimal;
    assert TimeSent(t, mac, Decimal(Shown(s.now, s.ahead[mac])), s.now);
  }

  lemma DelayReqHonest(s: System, t: System, mac: Mac, from: Mac, body: string)
    requires Looked(s, t, mac) && exists t1: nat :: TimeSent(s, from, body, t1)
    ensures var clock := Shown(s.now, s.ahead[mac]);
            exists e: Exchange :: TimesSent(t, mac, Some(from),
              TimesText(Times(ScanTime(Clean(body)), clock, clock)), e)
  {
    hide Decimal, ScanTime, Clean, TimesText;
    var t1: nat :| TimeSent(s, from, body, t1);
    DecimalTidy(Shown(t1, s.ahead[from]));
    CleanTidy(body);
    TimeReadsBack(Shown(t1, s.ahead[from]));
    var e := Exchange(from, t1, s.now, s.now, s.ahead[mac]);
    var clock := Shown(s.now, s.ahead[mac]);
    assert TimesSent(t, mac, Some(from), TimesText(Times(ScanTime(Clean(body)), clock, clock)), e);
  }

  lemma DelayRespHonest(s: System, t: System, mac: Mac, from: Mac, body: string)
    requires Looked(s, t, mac) && exists e: Exchange :: TimesSent(s, from, Some(mac), body, e)
    ensures var clock := Shown(s.now, s.ahead[mac]);
            var v := ScanTimes(Clean(body));
            && v.Some?
            && var k := Sample(ClockOffset(v.value.t1, v.value.t2, v.value.t3, clock),
              RoundTrip(v.value.t1, v.value.t2, v.value.t3, clock));
            exists e: Exchange :: SampleSent(t, mac, Some(from), SampleText(k), e)
  {
    hide ScanTimes, Clean, TimesText, SampleText, ClockOffset, RoundTrip, Shown;
    var e: Exchange :| TimesSent(s, from, Some(mac), body, e);
    var times := Times(Shown(e.t1, s.ahead[mac]), Shown(e.t2, e.ahead), Shown(e.t2, e.ahead));
    TextsTidy(times, Sample(0, 0));
    CleanTidy(body);
    ShownFits(e.t1, s.ahead[mac]);
    ShownFits(e.t2, e.ahead);
    TimesReadBack(times);
    var f := e.(t4 := s.now);
    assert Happened(t, from, f);
    assert SampleSent(t, mac, Some(from), SampleText(SampleOf(t, f)), f);
  }

  lemma ShownFits(now: nat, ahead: int)
    ensures Shown(now, ahead) < U64
  {
  }

  lemma SampleHonest(s: System, t: System, mac: Mac, from: Mac, body: string)
    requires Later(s, t) && exists e: Exchange :: SampleSent(s, from, Some(mac), body, e)
    ensures SampleOk(t, mac, ScanSample(Clean(body)))
  {
    hide ScanSample, Clean, TimesText, SampleText, Shown;
    var e: Exchange :| SampleSent(s, from, Some(mac), body, e);
    var v := SampleOf(s, e);
    TextsTidy(Times(0, 0, 0), v);
    CleanTidy(body);
    HalfRange(v, e, s);
    SampleReadsBack(v);
    HappenedKept(s, t, mac, e);
  }

  lemma HalfRange(v: Sample, e: Exchange, s: System)
    requires IsMaster(s, e.master) && v == SampleOf(s, e)
    ensures -0x8000_0000_0000_0000 <= v.offset <= 0x7FFF_FFFF_FFFF_FFFF
    ensures -0x8000_0000_0000_0000 <= v.delay <= 0x7FFF_FFFF_FFFF_FFFF
  {
    hide Signed, Shown;
  }

  ghost predicate SendHonest(t: System, mac: Mac, send: Send) { ContentOk(t, mac, send.to, send.control, send.body) }

  /** Everything a node does with an honest packet is honest. */
  lemma HandleHonest(s: System, t: System, mac: Mac, p: Packet)
    requires Looked(s, t, mac) && mac in s.nodes && Honest(s, p) && (p.to == None || p.to == Some(mac))
    ensures var r := Handle(s.nodes[mac], p.from, p.payload, Shown(s.now, s.ahead[mac]));
            && (forall i :: 0 <= i < |r.sends| ==> SendHonest(t, mac, r.sends[i]))
            && (SamplesOk(t, mac, s.nodes[mac].samples) ==> SamplesOk(t, mac, r.node.samples))
  {
    hide Build, Parse, CodeOf, Clean, ScanTimes, ScanSample, ScanTime, TimesText, SampleText, ClockOffset, RoundTrip,
      Shown, Decimal, TimeSent, TimesSent, SampleSent, SampleOk, Looked;
    var m: Message :| p.payload == Build(m) && MessageOk(m) && ContentOk(s, p.from, p.to, m.control, m.body);
    ParseBuild(m);
    LookedLater(s, t, mac);
    if m.control == SYNC_REQ {
      if s.nodes[mac].master { SyncRespHonest(s, t, mac); }
    } else if m.control == SYNC_RESP {
      DelayReqHonest(s, t, mac, p.from, m.body);
    } else if m.control == DELAY_REQ {
      Addressed(s, p, m, mac);
      DelayRespHonest(s, t, mac, p.from, m.body);
    } else if m.control == DELAY_RESP {
      Addressed(s, p, m, mac);
      SampleHonest(s, t, mac, p.from, m.body);
    }
  }

  lemma LookedLater(s: System, t: System, mac: Mac)
    requires Looked(s, t, mac)
    ensures Later(s, t) && mac in s.ahead
  {
  }

  /** Requests and responses with times in them are for one node. */
  lemma Addressed(s: System, p: Packet, m: Message, mac: Mac)
    requires ContentOk(s, p.from, p.to, m.control, m.body) && (p.to == None || p.to == Some(mac))
    requires m.control == DELAY_REQ || m.control == DELAY_RESP
    ensures p.to == Some(mac)
  {
    if m.control == DELAY_REQ {
      var e: Exchange :| TimesSent(s, p.from, p.to, m.body, e);
    } else {
      var e: Exchange :| SampleSent(s, p.from, p.to, m.body, e);
    }
  }

  // ---------------------------------------------------------------- every step keeps the invariant

  lemma HandleFits(n: Node, from: Mac, payload: string, clock: nat)
    ensures var r := Handle(n, from, payload, clock);
            r.node.master == n.master && forall i :: 0 <= i < |r.sends| ==>
              0 < r.sends[i].control <= 6 && r.sends[i].code < 256
  {
    hide Parse, CodeOf, Clean, OnDelayReq, Reply, ScanSample, ScanTime, TimesText, Decimal;
    var p := Parse(payload);
    if p.Some? {
      var body := Clean(p.value.body);
      ReplyIs(from, SYNC_RESP, Decimal(clock));
      ReplyIs(from, DELAY_REQ, TimesText(Times(ScanTime(body), clock, clock)));
      DelayReqIs(n, from, body, clock);
    }
  }

  lemma SentHonest(t: System, group: int, mac: Mac, clock: nat, send: Send)
    requires SendHonest(t, mac, send) && 0 < send.control <= 6 && send.code < 256
    ensures Honest(t, PacketOf(group, mac, clock, send))
  {
    hide Build, ContentOk;
    var m := MessageOf(group, mac, clock, send);
    assert MessageOk(m) && ContentOk(t, mac, send.to, m.control, m.body);
  }

  /** More time, more readings, more nodes that are masters: nothing honest is lost. */
  lemma InvKept(s: System, t: System)
    requires ClockInv(s) && Later(s, t) && Complete(t) && t.network == s.network && t.nodes.Keys == s.nodes.Keys
    requires forall x :: x in s.nodes ==> t.nodes[x].samples == s.nodes[x].samples
    ensures ClockInv(t)
  {
    hide Honest, SamplesOk, Later;
    forall p | p in t.network ensures Honest(t, p) { HonestKept(s, t, p); }
    forall x | x in t.nodes ensures SamplesOk(t, x, t.nodes[x].samples) { SamplesKept(s, t, x, s.nodes[x].samples); }
  }

  lemma BroadcastHonest(s: System, mac: Mac, control: int)
    requires ClockInv(s) && mac in s.nodes && (control == SYNC_REQ || control == READY)
    ensures ClockInv(Broadcast(s, mac, control))
  {
    hide Honest, SamplesOk, PacketOf;
    var t := Broadcast(s, mac, control);
    var send := Send(None, control, 0, "");
    assert SendHonest(t, mac, send);
    SentHonest(t, s.nodes[mac].group, mac, Shown(s.now, s.ahead[mac]), send);
    assert Later(s, t);
    forall p | p in s.network ensures Honest(t, p) { HonestKept(s, t, p); }
    forall x | x in t.nodes ensures SamplesOk(t, x, t.nodes[x].samples) { SamplesKept(s, t, x, s.nodes[x].samples); }
  }

  lemma DeliveredLooked(s: System, mac: Mac, p: Packet)
    requires Complete(s) && mac in s.nodes
    ensures Looked(s, Delivered(s, mac, p), mac) && Complete(Delivered(s, mac, p))
  {
    hide Handle, PacketsOf, Shown;
    HandleFits(s.nodes[mac], p.from, p.payload, Shown(s.now, s.ahead[mac]));
  }

  lemma DeliverHonest(s: System, mac: Mac, p: Packet)
    requires ClockInv(s) && mac in s.nodes && p in s.network && (p.to == None || p.to == Some(mac))
    ensures ClockInv(Delivered(s, mac, p))
  {
    hide Honest, SamplesOk, Handle, PacketOf, Looked, Later, Shown;
    var t := Delivered(s, mac, p);
    DeliveredLooked(s, mac, p);
    LookedLater(s, t, mac);
    var clock := Shown(s.now, s.ahead[mac]);
    var r := Handle(s.nodes[mac], p.from, p.payload, clock);
    HandleFits(s.nodes[mac], p.from, p.payload, clock);
    HandleHonest(s, t, mac, p);
    forall q | q in t.network ensures Honest(t, q) {
      if q in s.network {
        HonestKept(s, t, q);
      } else {
        var i :| 0 <= i < |r.sends| && q == PacketOf(s.nodes[mac].group, mac, clock, r.sends[i]);
        SentHonest(t, s.nodes[mac].group, mac, clock, r.sends[i]);
      }
    }
    forall x | x in t.nodes ensures SamplesOk(t, x, t.nodes[x].samples) {
      SamplesKept(s, t, x, s.nodes[x].samples);
    }
  }

  lemma NextHonest(c: Config, s: System, step: Step, t: System)
    requires ClockInv(s) && Next(c, s, step, t)
    ensures ClockInv(t)
  {
    hide Honest, SamplesOk, Delivered, Broadcast;
    match step
    case StartSync(mac) => InvKept(s, t);
    case SendReady(mac) => BroadcastHonest(s, mac, READY);
    case SendSyncReq(mac) =>
      var u := s.(nodes := s.nodes[mac := s.nodes[mac].(runningPtp := true)]);
      InvKept(s, u);
      BroadcastHonest(u, mac, SYNC_REQ);
    case Deliver(mac, p) => DeliverHonest(s, mac, p);
    case Wait(d) => InvKept(s, t);
    case SetClock(mac, a) => InvKept(s, t);
  }

  lemma {:induction false} RunHonest(c: Config, run: seq<System>, i: nat)
    requires Run(c, run) && i < |run|
    ensures ClockInv(run[i])
  {
    hide Next, Honest, SamplesOk;
    if i == 0 {
      InitHonest(run[0]);
    } else {
      RunHonest(c, run, i - 1);
      assert Steps(c, run[i - 1], run[i]);
      var step :| Next(c, run[i - 1], step, run[i]);
      NextHonest(c, run[i - 1], step, run[i]);
    }
  }

  lemma InitHonest(s: System)
    requires Init(s)
    ensures ClockInv(s)
  {
  }

  /** In every run, each sample a worker holds comes from an exchange with a master, and is close to
      what the clocks were apart when the worker's was read, exactly unless the words overflow. */
  lemma SamplesAreClose(c: Config, run: seq<System>, i: nat, x: Mac, k: nat) returns (e: Exchange)
    requires Run(c, run) && i < |run| && x in run[i].nodes && k < |run[i].nodes[x].samples|
    ensures Happened(run[i], x, e)
    ensures var theta, there, back := e.ahead - run[i].ahead[e.master], e.t2 - e.t1, e.t4 - e.t2;
            Close(run[i].nodes[x].samples[k], theta, there, back) <==> WordsFit(theta, there, back)
  {
    hide Honest, SampleAt, Close;
    RunHonest(c, run, i);
    var v := run[i].nodes[x].samples[k];
    assert SamplesOk(run[i], x, run[i].nodes[x].samples);
    assert SampleOk(run[i], x, v);
    e :| Happened(run[i], x, e) && v == SampleOf(run[i], e);
    SampleIsClose(e.t1, e.t2, e.t4, e.ahead, run[i].ahead[e.master]);
  }
}
