/** Runs that exist: the barrier opens for every group size, and a worker gets a clock sample whatever
    the transit times. */
module Runs {
  import opened Options
  import opened Decimals
  import opened Wire
  import opened Nodes
  import opened Barrier
  import opened ClockSync

  // ---------------------------------------------------------------- messages arrive

  /** A message that carries the check code of its body passes the check, and the node reacts to it. */
  lemma MessageArrives(n: Node, from: Mac, clock: nat, here: nat, send: Send)
    requires 0 <= n.group < 256 && 0 < send.control <= 6 && send.code == CodeOf(send.body)
    ensures var p := PacketOf(n.group, from, clock, send);
            && p.from == from && p.to == send.to && Parse(p.payload) == Some(MessageOf(n.group, from, clock, send))
            && Handle(n, from, p.payload, here) == React(n, from, send.control, Clean(send.body), here)
  {
    hide Build, Parse, CodeOf, Clean, React;
    SmallCode(send.body);
    ParseBuild(MessageOf(n.group, from, clock, send));
  }

  lemma SmallCode(body: string)
    ensures CodeOf(body) < 256
  {
    hide Code;
    CodeSmall(Terminated(body), |Terminated(body)|);
  }

  lemma EmptyCode()
    ensures CodeOf("") == 0
  {
  }

  function Control(control: int): Send { Send(None, control, 0, "") }

  /** One delivery, and what it sends. */
  lemma DeliverStep(c: Config, s: System, mac: Mac, from: Mac, clock: nat, send: Send) returns (t: System)
    requires Complete(s) && mac in s.nodes && 0 <= s.nodes[mac].group < 256
    requires 0 < send.control <= 6 && send.code == CodeOf(send.body) && (send.to == None || send.to == Some(mac))
    requires PacketOf(s.nodes[mac].group, from, clock, send) in s.network
    ensures Steps(c, s, t) && Complete(t) && t.now == s.now && t.ahead == s.ahead
    ensures var here := Shown(s.now, s.ahead[mac]);
            var r := React(s.nodes[mac], from, send.control, Clean(send.body), here);
            && t.nodes == s.nodes[mac := r.node]
            && (r.sends == [] ==> t.network == s.network)
            && (forall x :: r.sends == [x] ==> t.network == s.network + {PacketOf(s.nodes[mac].group, mac, here, x)})
  {
    hide PacketOf, Handle, React, Shown, CodeOf, Clean;
    var n, here := s.nodes[mac], Shown(s.now, s.ahead[mac]);
    var p := PacketOf(n.group, from, clock, send);
    MessageArrives(n, from, clock, here, send);
    t := Delivered(s, mac, p);
    assert Next(c, s, Deliver(mac, p), t);
    forall x: Send ensures PacketsOf(n.group, mac, here, [x]) == {PacketOf(n.group, mac, here, x)} {
      OnePacket(n.group, mac, here, x);
    }
  }

  lemma OnePacket(group: int, mac: Mac, clock: nat, x: Send)
    ensures PacketsOf(group, mac, clock, [x]) == {PacketOf(group, mac, clock, x)}
  {
    hide PacketOf;
    assert [x][0] == x;
    var ps := PacketsOf(group, mac, clock, [x]);
    assert PacketOf(group, mac, clock, [x][0]) in ps;
  }

  // ---------------------------------------------------------------- a clock sample

  lemma AnswersSync(n: Node, from: Mac, here: nat)
    requires n.master
    ensures React(n, from, SYNC_REQ, Clean(""), here) == Reaction(n, [Reply(from, SYNC_RESP, Decimal(here))])
  {
    hide Clean, Decimal, Reply;
  }

  lemma AsksDelay(n: Node, from: Mac, time: nat, here: nat)
    requires !n.master && time < U64
    ensures React(n, from, SYNC_RESP, Clean(Decimal(time)), here)
            == Reaction(n, [Reply(from, DELAY_REQ, TimesText(Times(time, here, here)))])
  {
    hide Clean, Decimal, Reply, ScanTime, TimesText, Tidy;
    DecimalTidy(time);
    CleanTidy(Decimal(time));
    TimeReadsBack(time);
  }

  lemma AnswersDelay(n: Node, from: Mac, t: Times, here: nat)
    requires n.master && t.t1 < U64 && t.t2 < U64 && t.t3 < U64
    ensures var v := Sample(ClockOffset(t.t1, t.t2, t.t3, here), RoundTrip(t.t1, t.t2, t.t3, here));
            React(n, from, DELAY_REQ, Clean(TimesText(t)), here)
              == Reaction(n, [Reply(from, DELAY_RESP, SampleText(v))])
  {
    hide Clean, TimesText, SampleText, ScanTimes, Reply, Tidy, ClockOffset, RoundTrip;
    TextsTidy(t, Sample(0, 0));
    CleanTidy(TimesText(t));
    TimesReadBack(t);
  }

  lemma TakesSample(n: Node, from: Mac, v: Sample, here: nat)
    requires !n.master
    requires -0x8000_0000_0000_0000 <= v.offset <= 0x7FFF_FFFF_FFFF_FFFF
    requires -0x8000_0000_0000_0000 <= v.delay <= 0x7FFF_FFFF_FFFF_FFFF
    ensures React(n, from, DELAY_RESP, Clean(SampleText(v)), here)
              == Reaction(n.(samples := n.samples + [v], runningPtp := false), [])
  {
    hide Clean, TimesText, SampleText, ScanSample, Reply, Tidy;
    TextsTidy(Times(0, 0, 0), v);
    CleanTidy(SampleText(v));
    SampleReadsBack(v);
  }

  /** A master and a worker that has just asked for the time. */
  function Asking(t1: nat, worker: int, master: int, total: int): System {
    var n := Enable(NewNode(0).(master := true), 0, total, true);
    var nodes := map[0 := n, 1 := NewNode(0).(runningPtp := true)];
    Broadcast(System(nodes, {}, t1, map[0 := master, 1 := worker], map[0 := {}, 1 := {}]),
              1, SYNC_REQ)
  }

  lemma WorkerAsks(c: Config, t1: nat, worker: int, master: int) returns (run: seq<System>)
    requires c == Config(_ => 1, x => x == 0)
    ensures Run(c, run) && |run| == 3 && run[2] == Asking(t1, worker, master, 1) && Complete(run[2])
  {
    hide PacketOf, Shown;
    var nodes := map[0 := NewNode(0), 1 := NewNode(0)];
    var s0 := System(nodes, {}, t1, map[0 := master, 1 := worker], map[0 := {}, 1 := {}]);
    var n := Enable(NewNode(0).(master := true), 0, 1, true);
    var s1 := s0.(nodes := map[0 := n, 1 := NewNode(0)]);
    assert s1.nodes == s0.nodes[0 := n];
    assert Next(c, s0, StartSync(0), s1);
    var s2 := Asking(t1, worker, master, 1);
    assert s1.nodes[1 := NewNode(0).(runningPtp := true)] == map[0 := n, 1 := NewNode(0).(runningPtp := true)];
    assert Next(c, s1, SendSyncReq(1), s2);
    run := [s0, s1, s2];
  }

  lemma WaitStep(c: Config, s: System, d: nat) returns (t: System)
    requires Complete(s)
    ensures t == s.(now := s.now + d) && Steps(c, s, t) && Complete(t)
  {
    t := s.(now := s.now + d);
    assert Next(c, s, Wait(d), t);
  }

  /** A master 0 and a worker 1 in group 0, without samples yet. */
  ghost predicate Pair(s: System) {
    && Complete(s) && 0 in s.nodes && 1 in s.nodes && s.nodes[0].master && !s.nodes[1].master
    && s.nodes[0].group == 0 && s.nodes[1].group == 0 && s.nodes[1].samples == []
  }

  /** The worker's request brings the master's time to the worker, which asks for the delay. */
  lemma TimeFetched(c: Config, s: System, there: nat) returns (run: seq<System>)
    requires Pair(s) && PacketOf(0, 1, Shown(s.now, s.ahead[1]), Control(SYNC_REQ)) in s.network
    ensures var a, b := Shown(s.now, s.ahead[0]), Shown(s.now + there, s.ahead[1]);
            && |run| == 3 && Steps(c, s, run[0]) && Steps(c, run[0], run[1]) && Steps(c, run[1], run[2])
            && Pair(run[2]) && run[2].now == s.now + there && run[2].ahead == s.ahead
            && PacketOf(0, 1, b, Reply(0, DELAY_REQ, TimesText(Times(a, b, b)))) in run[2].network
  {
    hide PacketOf, React, Shown, CodeOf, Clean, Steps, Decimal, TimesText;
    var a, b := Shown(s.now, s.ahead[0]), Shown(s.now + there, s.ahead[1]);
    EmptyCode();
    AnswersSync(s.nodes[0], 1, a);
    var s3 := DeliverStep(c, s, 0, 1, Shown(s.now, s.ahead[1]), Control(SYNC_REQ));
    var s4 := WaitStep(c, s3, there);
    ShownFits(s.now, s.ahead[0]);
    AsksDelay(s4.nodes[1], 0, a, b);
    var s5 := DeliverStep(c, s4, 1, 0, a, Reply(1, SYNC_RESP, Decimal(a)));
    run := [s3, s4, s5];
  }

  /** The master computes the sample, and the worker keeps it. */
  lemma SampleFetched(c: Config, s: System, back: nat, a: nat, b: nat) returns (run: seq<System>)
    requires Pair(s) && a < U64 && b < U64
    requires PacketOf(0, 1, b, Reply(0, DELAY_REQ, TimesText(Times(a, b, b)))) in s.network
    ensures var d := Shown(s.now + back, s.ahead[0]);
            && |run| == 3 && Steps(c, s, run[0]) && Steps(c, run[0], run[1]) && Steps(c, run[1], run[2])
            && 1 in run[2].nodes
            && run[2].nodes[1].samples == [Sample(ClockOffset(a, b, b, d), RoundTrip(a, b, b, d))]
  {
    hide PacketOf, React, Shown, CodeOf, Clean, Steps, TimesText, SampleText, ClockOffset, RoundTrip;
    var d := Shown(s.now + back, s.ahead[0]);
    var s6 := WaitStep(c, s, back);
    AnswersDelay(s6.nodes[0], 1, Times(a, b, b), d);
    var s7 := DeliverStep(c, s6, 0, 1, b, Reply(0, DELAY_REQ, TimesText(Times(a, b, b))));
    var v := Sample(ClockOffset(a, b, b, d), RoundTrip(a, b, b, d));
    SampleInRange(a, b, d);
    TakesSample(s7.nodes[1], 0, v, Shown(s7.now, s7.ahead[1]));
    var s8 := DeliverStep(c, s7, 1, 0, d, Reply(1, DELAY_RESP, SampleText(v)));
    run := [s6, s7, s8];
  }

  /** Whatever the clocks and the transit times, there is a run in which the worker gets its sample. */
  lemma SampleTaken(t1: nat, there: nat, back: nat, worker: int, master: int) returns (c: Config, run: seq<System>)
    ensures Run(c, run) && 1 in run[|run| - 1].nodes
    ensures run[|run| - 1].nodes[1].samples == [SampleAt(t1, t1 + there, t1 + there + back, worker, master)]
  {
    hide PacketOf, Shown, Steps, TimesText, ClockOffset, RoundTrip, Init;
    c := Config(_ => 1, x => x == 0);
    var asks := WorkerAsks(c, t1, worker, master);
    var first := TimeFetched(c, asks[2], there);
    ShownFits(t1, master);
    ShownFits(t1 + there, worker);
    var second := SampleFetched(c, first[2], back, Shown(t1, master), Shown(t1 + there, worker));
    run := asks + first + second;
  }

  lemma SampleInRange(a: nat, b: nat, d: nat)
    ensures var o, r := ClockOffset(a, b, b, d), RoundTrip(a, b, b, d);
            -0x8000_0000_0000_0000 <= o <= 0x7FFF_FFFF_FFFF_FFFF && -0x8000_0000_0000_0000 <= r <= 0x7FFF_FFFF_FFFF_FFFF
  {
    hide Signed;
  }

  // ---------------------------------------------------------------- the barrier opens

  /** The workers 1 to `i`. */
  function Workers(i: nat): (s: set<Mac>)
    ensures |s| == i && forall x: Mac :: x in s <==> 1 <= x <= i
  {
    if i == 0 then {} else Workers(i - 1) + {i}
  }

  ghost predicate WorkerOk(n: Node, arrived: bool) {
    n.group == 0 && !n.master && !n.goReceived && n.fired == 0 && (arrived ==> n.enabled && n.callback)
  }

  /** A master that waits for `k` workers, of which `i` have arrived. */
  ghost predicate Arrived(s: System, k: nat, i: nat) {
    && Complete(s) && s.now == 0 && (forall x :: x in s.ahead ==> s.ahead[x] == 0)
    && (forall x: Mac :: x <= k ==> x in s.nodes) && (forall x: Mac :: 1 <= x <= k ==> WorkerOk(s.nodes[x], x <= i))
    && s.nodes[0].group == 0 && s.nodes[0].total == k && s.nodes[0].ready == Workers(i) && s.nodes[0].goSent == (i == k)
    && (i == k ==> PacketOf(0, 0, Shown(0, 0), Control(GO)) in s.network)
  }

  ghost function GroupOf(k: nat): Config { Config(_ => k, x => x == 0) }

  lemma {:induction false} RunAppend(c: Config, run: seq<System>, t: System)
    requires Run(c, run) && Steps(c, run[|run| - 1], t)
    ensures Run(c, run + [t])
  {
    hide Steps, Init;
  }

  /** The next worker starts, says so, and the master hears it. */
  lemma OneMore(k: nat, i: nat, run: seq<System>) returns (more: seq<System>)
    requires i < k && Run(GroupOf(k), run) && Arrived(run[|run| - 1], k, i)
    ensures Run(GroupOf(k), more) && Arrived(more[|more| - 1], k, i + 1)
  {
    hide Steps, Init, Arrived;
    var c := GroupOf(k);
    var a, b, d := ReadyRound(c, k, run[|run| - 1], i);
    RunAppend(c, run, a);
    RunAppend(c, run + [a], b);
    RunAppend(c, run + [a] + [b], d);
    more := run + [a] + [b] + [d];
  }

  lemma ReadyRound(c: Config, k: nat, s: System, i: nat) returns (a: System, b: System, d: System)
    requires c == GroupOf(k) && i < k && Arrived(s, k, i)
    ensures Steps(c, s, a) && Steps(c, a, b) && Steps(c, b, d) && Arrived(d, k, i + 1)
  {
    hide Steps, PacketOf, Shown, React, Clean, CodeOf, WorkerOk, Broadcast;
    var mac := i + 1;
    a := Starts(c, k, s, i);
    b := Broadcast(a, mac, READY);
    SendsReady(c, a, mac, b);
    EmptyCode();
    d := DeliverStep(c, b, 0, mac, Shown(0, 0), Control(READY));
    HearsReady(b.nodes[0], mac, k, i, Shown(0, 0));
    ArrivedNext(s, d, k, i, a.nodes[mac], d.nodes[0]);
  }

  lemma ArrivedNext(s: System, d: System, k: nat, i: nat, n: Node, m: Node)
    requires i < k && Arrived(s, k, i) && Complete(d) && d.now == s.now && d.ahead == s.ahead
    requires d.nodes == s.nodes[i + 1 := n][0 := m] && WorkerOk(n, true)
    requires m.group == 0 && m.total == k && m.ready == Workers(i + 1) && m.goSent == (i + 1 == k)
    requires i + 1 == k ==> PacketOf(0, 0, Shown(0, 0), Control(GO)) in d.network
    ensures Arrived(d, k, i + 1)
  {
    hide PacketOf, Shown;
  }

  lemma Starts(c: Config, k: nat, s: System, i: nat) returns (t: System)
    requires c == GroupOf(k) && i < k && Arrived(s, k, i)
    ensures Steps(c, s, t) && t.nodes.Keys == s.nodes.Keys && t.nodes[i + 1].enabled
    ensures WorkerOk(t.nodes[i + 1], true) && Complete(t)
    ensures t == s.(nodes := s.nodes[i + 1 := t.nodes[i + 1]])
  {
    hide PacketOf, Shown;
    var n := Enable(s.nodes[i + 1], i + 1, k, true);
    t := s.(nodes := s.nodes[i + 1 := n]);
    assert Next(c, s, StartSync(i + 1), t);
  }

  lemma SendsReady(c: Config, s: System, mac: Mac, t: System)
    requires Complete(s) && mac in s.nodes && s.nodes[mac].enabled
    requires WorkerOk(s.nodes[mac], true) && t == Broadcast(s, mac, READY)
    ensures Steps(c, s, t) && t == s.(network := t.network)
    ensures PacketOf(0, mac, Shown(s.now, s.ahead[mac]), Control(READY)) in t.network
  {
    hide PacketOf, Shown;
    assert Next(c, s, SendReady(mac), t);
  }

  lemma HearsReady(n: Node, from: Mac, k: nat, i: nat, here: nat)
    requires i < k && n.total == k && n.ready == Workers(i) && !n.goSent && from == i + 1
    ensures var r := React(n, from, READY, Clean(""), here);
            && r.node == n.(ready := Workers(i + 1), goSent := i + 1 == k, gos := n.gos + (if i + 1 == k then 1 else 0))
            && r.sends == if i + 1 == k then [Control(GO)] else []
  {
    hide Clean;
    assert n.ready + {from} == Workers(i + 1);
  }

  lemma {:induction false} AllArrive(k: nat, i: nat) returns (run: seq<System>)
    requires 1 <= k && i <= k
    ensures Run(GroupOf(k), run) && Arrived(run[|run| - 1], k, i)
    decreases i
  {
    hide Run, Arrived;
    if i == 0 {
      run := MasterStarts(k);
    } else {
      run := AllArrive(k, i - 1);
      run := OneMore(k, i - 1, run);
    }
  }

  /** Master and workers as they come up. */
  function AllFresh(k: nat): (s: System)
    ensures s.nodes.Keys == s.ahead.Keys == s.readings.Keys == Workers(k) + {0} && s.network == {} && s.now == 0
    ensures forall x :: x in s.nodes ==> s.nodes[x] == NewNode(0) && s.ahead[x] == 0 && s.readings[x] == {}
  {
    var all := Workers(k) + {0};
    System(map x | x in all :: NewNode(0), {}, 0, map x | x in all :: 0, map x | x in all :: {})
  }

  lemma MasterStarts(k: nat) returns (run: seq<System>)
    requires 1 <= k
    ensures Run(GroupOf(k), run) && Arrived(run[|run| - 1], k, 0)
  {
    hide PacketOf, Shown, AllFresh, Init, Next, Arrived, Enable, Workers;
    var s0 := AllFresh(k);
    var s1 := s0.(nodes := s0.nodes[0 := Enable(NewNode(0).(master := true), 0, k, true)]);
    FreshStart(k, s1);
    FreshArrived(k, s1);
    assert Steps(GroupOf(k), s0, s1);
    run := [s0, s1];
  }

  lemma FreshArrived(k: nat, s1: System)
    requires 1 <= k
    requires s1 == AllFresh(k).(nodes := AllFresh(k).nodes[0 := Enable(NewNode(0).(master := true), 0, k, true)])
    ensures Arrived(s1, k, 0)
  {
    hide PacketOf, Shown, AllFresh;
    forall x: Mac | x <= k ensures x in s1.nodes {
      assert x == 0 || x in Workers(k);
    }
    forall x: Mac | 1 <= x <= k ensures WorkerOk(s1.nodes[x], x <= 0) {
      assert s1.nodes[x] == AllFresh(k).nodes[x];
    }
    assert s1.nodes[0].ready == Workers(0);
  }

  lemma FreshStart(k: nat, s1: System)
    requires s1 == AllFresh(k).(nodes := AllFresh(k).nodes[0 := Enable(NewNode(0).(master := true), 0, k, true)])
    ensures Init(AllFresh(k)) && Next(GroupOf(k), AllFresh(k), StartSync(0), s1)
  {
    hide PacketOf, Shown, AllFresh;
  }

  /** The runs are not all stuck: a master that waits for any number of workers hears them all, and each
      of them can get its GO. */
  lemma BarrierOpens(k: nat, w: Mac) returns (run: seq<System>)
    requires 1 <= w <= k
    ensures Run(GroupOf(k), run) && w in run[|run| - 1].nodes
    ensures run[|run| - 1].nodes[w].goReceived && run[|run| - 1].nodes[w].fired == 1
  {
    hide Steps, Init, PacketOf, Shown, React, Clean, CodeOf;
    run := AllArrive(k, k);
    var s := run[|run| - 1];
    EmptyCode();
    var t := DeliverStep(GroupOf(k), s, w, 0, Shown(0, 0), Control(GO));
    TakesGo(s.nodes[w], 0, Shown(0, 0));
    RunAppend(GroupOf(k), run, t);
    run := run + [t];
  }

  lemma TakesGo(n: Node, from: Mac, here: nat)
    requires WorkerOk(n, true)
    ensures React(n, from, GO, Clean(""), here).node == n.(goReceived := true, fired := 1)
  {
    hide Clean;
  }
}
