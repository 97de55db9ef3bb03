/** The network as a whole: nodes, packets that may be lost, repeated and reordered, and clocks.
    The READY/GO barrier holds in every run. */
module Barrier {
  import opened Options
  import Decimals
  import opened Wire
  import opened Nodes

  datatype Packet = Packet(from: Mac, to: Option<Mac>, payload: string)

  /** A look at a node's clock: when, and by how much it was ahead. */
  datatype Reading = Reading(time: nat, ahead: int)

  /** `network` holds every packet ever sent: any of them may be delivered at any time, more than
      once or never.  `ahead` says how far each clock is ahead of real time; `readings` remembers it
      for each delivery. */
  datatype System = System(nodes: map<Mac, Node>, network: set<Packet>, now: nat, ahead: map<Mac, int>,
                           readings: map<Mac, set<Reading>>)

  /** How many nodes each node waits for, and which nodes are masters. */
  datatype Config = Config(total: Mac -> int, master: Mac -> bool)

  ghost predicate Complete(s: System) { s.ahead.Keys == s.nodes.Keys && s.readings.Keys == s.nodes.Keys }

  /** What a node's clock shows, in a 64-bit word. */
  function Shown(now: nat, ahead: int): nat { (now + ahead) % U64 }

  /** send_control */
  function MessageOf(group: int, mac: Mac, clock: nat, send: Send): Message {
    Message(group % 256, mac % 256, 0, clock % U64, 0, 0, send.control, send.code, send.body)
  }

  function PacketOf(group: int, mac: Mac, clock: nat, send: Send): Packet {
    Packet(mac, send.to, Build(MessageOf(group, mac, clock, send)))
  }

  function PacketsOf(group: int, mac: Mac, clock: nat, sends: seq<Send>): set<Packet> {
    set i | 0 <= i < |sends| :: PacketOf(group, mac, clock, sends[i])
  }

  // ---------------------------------------------------------------- steps

  datatype Step =
    | StartSync(mac: Mac)                    // Gateway.initialize up to enable_start_sync
    | SendReady(mac: Mac)                    // the thread that repeats READY
    | SendSyncReq(mac: Mac)                  // the tick that starts a clock exchange
    | Deliver(mac: Mac, packet: Packet)
    | Wait(time: nat)
    | SetClock(mac: Mac, ahead: int)         // anything that adjusts a worker's clock

  function Broadcast(s: System, mac: Mac, control: int): System
    requires mac in s.nodes && mac in s.ahead
  {
    var send := Send(None, control, 0, "");
    s.(network := s.network + {PacketOf(s.nodes[mac].group, mac, Shown(s.now, s.ahead[mac]), send)})
  }

  function Delivered(s: System, mac: Mac, p: Packet): System
    requires mac in s.nodes && mac in s.ahead && mac in s.readings
  {
    var clock := Shown(s.now, s.ahead[mac]);
    var r := Handle(s.nodes[mac], p.from, p.payload, clock);
    s.(nodes := s.nodes[mac := r.node],
       network := s.network + PacketsOf(s.nodes[mac].group, mac, clock, r.sends),
       readings := s.readings[mac := s.readings[mac] + {Reading(s.now, s.ahead[mac])}])
  }

  ghost predicate Next(c: Config, s: System, step: Step, t: System)
    requires Complete(s)
  {
    match step
    case StartSync(mac) =>
      && mac in s.nodes
      && var n := s.nodes[mac].(master := s.nodes[mac].master || c.master(mac));
      t == s.(nodes := s.nodes[mac := Enable(n, mac, c.total(mac), true)])
    case SendReady(mac) =>
      && mac in s.nodes && s.nodes[mac].enabled && !s.nodes[mac].master && s.nodes[mac].fired == 0
      && t == Broadcast(s, mac, READY)
    case SendSyncReq(mac) =>
      && mac in s.nodes && !s.nodes[mac].master && !s.nodes[mac].runningPtp
      && t == Broadcast(s.(nodes := s.nodes[mac := s.nodes[mac].(runningPtp := true)]), mac, SYNC_REQ)
    case Deliver(mac, p) =>
      mac in s.nodes && p in s.network && (p.to == None || p.to == Some(mac)) && t == Delivered(s, mac, p)
    case Wait(d) => t == s.(now := s.now + d)
    case SetClock(mac, a) =>
      && mac in s.nodes && !s.nodes[mac].master && !c.master(mac)
      && t == s.(ahead := s.ahead[mac := a])
  }

  function NewNode(group: int): Node { Node(group, false, false, 0, {}, false, false, false, 0, 0, false, []) }

  /** Nodes as they come up; groups are numbered from 0 to 255. */
  ghost predicate Init(s: System) {
    && Complete(s) && s.network == {}
    && (forall x :: x in s.nodes ==> s.nodes[x] == NewNode(s.nodes[x].group) && 0 <= s.nodes[x].group < 256)
    && (forall x :: x in s.readings ==> s.readings[x] == {})
  }

  ghost predicate Steps(c: Config, s: System, t: System) { Complete(s) && exists step :: Next(c, s, step, t) }

  /** A run: each state follows from the one before it. */
  ghost predicate Run(c: Config, run: seq<System>) {
    |run| > 0 && Init(run[0]) && forall i :: 1 <= i < |run| ==> Steps(c, run[i - 1], run[i])
  }

  // ---------------------------------------------------------------- the barrier invariant

  /** All of them belong to the group and have passed enable_start_sync. */
  ghost predicate Enabled(nodes: map<Mac, Node>, group: int, macs: set<Mac>) {
    forall x :: x in macs ==> x in nodes && nodes[x].enabled && nodes[x].group == group
  }

  /** `k` nodes of the group have passed enable_start_sync. */
  ghost predicate Quorum(nodes: map<Mac, Node>, group: int, k: int) {
    exists macs: set<Mac> :: |macs| == k && Enabled(nodes, group, macs)
  }

  /** As many nodes of the group as node `g` waits for have passed enable_start_sync. */
  ghost predicate Opener(c: Config, nodes: map<Mac, Node>, group: int, g: Mac) {
    g in nodes && nodes[g].group == group && c.total(g) > 0 && Quorum(nodes, group, c.total(g))
  }

  /** Some node of the group has seen it complete. */
  ghost predicate Opened(c: Config, nodes: map<Mac, Node>, group: int) { exists g :: Opener(c, nodes, group, g) }

  /** What a packet says about the time it was sent. */
  ghost predicate Backed(c: Config, nodes: map<Mac, Node>, from: Mac, m: Message) {
    && MessageOk(m) && from in nodes && m.group == nodes[from].group
    && (m.control == READY ==> nodes[from].enabled)
    && (m.control == GO ==> Opener(c, nodes, m.group, from))
  }

  ghost predicate PacketOk(c: Config, nodes: map<Mac, Node>, p: Packet) {
    exists m: Message :: p.payload == Build(m) && Backed(c, nodes, p.from, m)
  }

  ghost predicate NodeOk(c: Config, nodes: map<Mac, Node>, x: Mac, n: Node) {
    && 0 <= n.group < 256 && Enabled(nodes, n.group, n.ready) && (n.total > 0 ==> n.total == c.total(x))
    && (n.goReceived ==> Opened(c, nodes, n.group))
    && n.gos == (if n.goSent then 1 else 0) && n.fired <= 1 && (n.fired == 1 ==> n.goReceived)
  }

  ghost predicate Inv(c: Config, s: System) {
    && Complete(s) && (forall x :: x in s.nodes ==> NodeOk(c, s.nodes, x, s.nodes[x]))
    && (forall p :: p in s.network ==> PacketOk(c, s.nodes, p))
  }

  /** Nodes stay in their group, and enabled. */
  ghost predicate Grows(nodes: map<Mac, Node>, more: map<Mac, Node>) {
    forall x :: x in nodes ==> x in more && more[x].group == nodes[x].group && (nodes[x].enabled ==> more[x].enabled)
  }

  lemma QuorumKept(nodes: map<Mac, Node>, more: map<Mac, Node>, group: int, k: int)
    requires Grows(nodes, more) && Quorum(nodes, group, k)
    ensures Quorum(more, group, k)
  {
    var macs: set<Mac> :| |macs| == k && Enabled(nodes, group, macs);
    assert Enabled(more, group, macs);
  }

  lemma OpenedKept(c: Config, nodes: map<Mac, Node>, more: map<Mac, Node>, group: int, g: Mac)
    requires Grows(nodes, more) && Opener(c, nodes, group, g)
    ensures Opener(c, more, group, g)
  {
    QuorumKept(nodes, more, group, c.total(g));
  }

  lemma NodeKept(c: Config, nodes: map<Mac, Node>, more: map<Mac, Node>, x: Mac, n: Node)
    requires Grows(nodes, more) && NodeOk(c, nodes, x, n)
    ensures NodeOk(c, more, x, n)
  {
    hide Opener;
    if n.goReceived {
      var g :| Opener(c, nodes, n.group, g);
      OpenedKept(c, nodes, more, n.group, g);
    }
  }

  lemma BackedKept(c: Config, nodes: map<Mac, Node>, more: map<Mac, Node>, from: Mac, m: Message)
    requires Grows(nodes, more) && Backed(c, nodes, from, m)
    ensures Backed(c, more, from, m)
  {
    hide Opener;
    if m.control == GO { OpenedKept(c, nodes, more, m.group, from); }
  }

  lemma PacketKept(c: Config, nodes: map<Mac, Node>, more: map<Mac, Node>, p: Packet)
    requires Grows(nodes, more) && PacketOk(c, nodes, p)
    ensures PacketOk(c, more, p)
  {
    hide Build, Backed;
    var m: Message :| p.payload == Build(m) && Backed(c, nodes, p.from, m);
    BackedKept(c, nodes, more, p.from, m);
  }

  // ---------------------------------------------------------------- what a delivery does

  /** A GO of node `x` has a quorum behind it; READY is never a reaction. */
  ghost predicate SendOk(c: Config, nodes: map<Mac, Node>, x: Mac, group: int, send: Send) {
    && 0 < send.control <= 6 && send.control != READY && send.code < 256
    && (send.control == GO ==> Opener(c, nodes, group, x))
  }

  ghost predicate SendsOk(c: Config, nodes: map<Mac, Node>, x: Mac, group: int, sends: seq<Send>) {
    forall i :: 0 <= i < |sends| ==> SendOk(c, nodes, x, group, sends[i])
  }

  /** A node that is handed a packet keeps its part of the invariant, and what it sends is backed. */
  lemma HandleKeeps(c: Config, nodes: map<Mac, Node>, x: Mac, n: Node, p: Packet, clock: nat)
    requires x in nodes && nodes[x].group == n.group && NodeOk(c, nodes, x, n) && PacketOk(c, nodes, p)
    ensures var r := Handle(n, p.from, p.payload, clock);
            && NodeOk(c, nodes, x, r.node) && r.node.group == n.group && r.node.enabled == n.enabled
            && r.node.master == n.master
            && SendsOk(c, nodes, x, n.group, r.sends)
  {
    hide Build, Parse, CodeOf, Clean, Quorum, OnReady, OnDelayReq, Reply, ScanSample, ScanTime, Enabled, TimesText;
    var m: Message :| p.payload == Build(m) && Backed(c, nodes, p.from, m);
    ParseBuild(m);
    var body := Clean(m.body);
    if m.control == READY && m.group == n.group && n.total > 0 {
      ReadyKeeps(c, nodes, x, n, p.from);
    } else {
      ReplyIs(p.from, SYNC_RESP, Decimals.Decimal(clock));
      ReplyIs(p.from, DELAY_REQ, TimesText(Times(ScanTime(body), clock, clock)));
      DelayReqIs(n, p.from, body, clock);
    }
  }

  lemma ReplyIs(to: Mac, control: int, body: string)
    ensures Reply(to, control, body).control == control && Reply(to, control, body).code < 256
  {
    hide Code;
    CodeSmall(Terminated(body), |Terminated(body)|);
  }

  lemma DelayReqIs(n: Node, from: Mac, body: string, clock: nat)
    ensures var r := OnDelayReq(n, from, body, clock);
            r.node == n && forall i :: 0 <= i < |r.sends| ==> r.sends[i].control == DELAY_RESP && r.sends[i].code < 256
  {
    hide ScanTimes, ClockOffset, RoundTrip, SampleText, Reply;
    var t := ScanTimes(body);
    if t.Some? {
      var v := t.value;
      var s := Sample(ClockOffset(v.t1, v.t2, v.t3, clock), RoundTrip(v.t1, v.t2, v.t3, clock));
      ReplyIs(from, DELAY_RESP, SampleText(s));
    }
  }

  lemma ReadyKeeps(c: Config, nodes: map<Mac, Node>, x: Mac, n: Node, from: Mac)
    requires x in nodes && nodes[x].group == n.group && NodeOk(c, nodes, x, n)
    requires from in nodes && nodes[from].enabled && nodes[from].group == n.group && n.total > 0
    ensures var r := OnReady(n, from);
            && NodeOk(c, nodes, x, r.node) && r.node.group == n.group && r.node.enabled == n.enabled
            && r.node.master == n.master
            && SendsOk(c, nodes, x, n.group, r.sends)
  {
    hide Quorum, Enabled;
    ReadyCounts(nodes, n, from);
  }

  lemma ReadyCounts(nodes: map<Mac, Node>, n: Node, from: Mac)
    requires Enabled(nodes, n.group, n.ready) && from in nodes && nodes[from].enabled && nodes[from].group == n.group
    ensures Enabled(nodes, n.group, n.ready + {from}) && Quorum(nodes, n.group, |n.ready + {from}|)
  {
    var ready := n.ready + {from};
    assert Enabled(nodes, n.group, ready);
  }

  // ---------------------------------------------------------------- every step keeps the invariant

  lemma SentIsOk(c: Config, nodes: map<Mac, Node>, mac: Mac, clock: nat, send: Send)
    requires mac in nodes && 0 <= nodes[mac].group < 256 && 0 < send.control <= 6 && send.code < 256
    requires send.control == READY ==> nodes[mac].enabled
    requires send.control == GO ==> Opener(c, nodes, nodes[mac].group, mac)
    ensures PacketOk(c, nodes, PacketOf(nodes[mac].group, mac, clock, send))
  {
    hide Build, Quorum;
    var m := MessageOf(nodes[mac].group, mac, clock, send);
    assert Backed(c, nodes, mac, m);
  }

  lemma BroadcastKeeps(c: Config, s: System, mac: Mac, control: int)
    requires Inv(c, s) && mac in s.nodes && (control == SYNC_REQ || (control == READY && s.nodes[mac].enabled))
    ensures Inv(c, Broadcast(s, mac, control))
  {
    hide PacketOk, NodeOk, PacketOf;
    NodeGroup(c, s.nodes, mac, s.nodes[mac]);
    SentIsOk(c, s.nodes, mac, Shown(s.now, s.ahead[mac]), Send(None, control, 0, ""));
  }

  lemma NodeGroup(c: Config, nodes: map<Mac, Node>, x: Mac, n: Node)
    requires NodeOk(c, nodes, x, n)
    ensures 0 <= n.group < 256
  {
  }

  /** Changing one node keeps the invariant of all, if it stays in its group. */
  lemma NodeReplaced(c: Config, s: System, mac: Mac, n: Node, t: System)
    requires Inv(c, s) && mac in s.nodes && n.group == s.nodes[mac].group && (s.nodes[mac].enabled ==> n.enabled)
    requires NodeOk(c, s.nodes[mac := n], mac, n) && t == s.(nodes := s.nodes[mac := n])
    ensures Inv(c, t) && Grows(s.nodes, t.nodes)
  {
    hide PacketOk, NodeOk;
    assert Grows(s.nodes, t.nodes);
    forall x | x in t.nodes ensures NodeOk(c, t.nodes, x, t.nodes[x]) {
      if x != mac { NodeKept(c, s.nodes, t.nodes, x, s.nodes[x]); }
    }
    forall p | p in t.network ensures PacketOk(c, t.nodes, p) {
      PacketKept(c, s.nodes, t.nodes, p);
    }
  }

  lemma EnableKeeps(c: Config, s: System, mac: Mac, t: System)
    requires Inv(c, s) && Next(c, s, StartSync(mac), t)
    ensures Inv(c, t)
  {
    hide PacketOk, NodeOk, Enable;
    var n := s.nodes[mac].(master := s.nodes[mac].master || c.master(mac));
    EnabledNode(c, s.nodes, mac, n);
    NodeReplaced(c, s, mac, Enable(n, mac, c.total(mac), true), t);
  }

  lemma EnabledNode(c: Config, nodes: map<Mac, Node>, mac: Mac, n: Node)
    requires mac in nodes && NodeOk(c, nodes, mac, nodes[mac]) && n == nodes[mac].(master := n.master)
    ensures var e := Enable(n, mac, c.total(mac), true);
            NodeOk(c, nodes[mac := e], mac, e) && e.group == n.group && e.enabled
  {
    hide Opener;
    var e := Enable(n, mac, c.total(mac), true);
    var more := nodes[mac := e];
    assert Grows(nodes, more);
    assert Enabled(more, e.group, e.ready);
    if e.goReceived {
      var g :| Opener(c, nodes, e.group, g);
      OpenedKept(c, nodes, more, e.group, g);
    }
  }

  lemma DeliverKeeps(c: Config, s: System, mac: Mac, p: Packet)
    requires Inv(c, s) && mac in s.nodes && p in s.network
    ensures Inv(c, Delivered(s, mac, p))
  {
    hide PacketOk, NodeOk, Handle, SendsOk;
    var clock := Shown(s.now, s.ahead[mac]);
    var n := s.nodes[mac];
    var r := Handle(n, p.from, p.payload, clock);
    HandleKeeps(c, s.nodes, mac, n, p, clock);
    var t := s.(nodes := s.nodes[mac := r.node]);
    assert Grows(s.nodes, t.nodes);
    NodeKept(c, s.nodes, t.nodes, mac, r.node);
    NodeReplaced(c, s, mac, r.node, t);
    NodeGroup(c, s.nodes, mac, n);
    SendsAreOk(c, s.nodes, t.nodes, mac, clock, r.sends);
  }

  lemma SendsAreOk(c: Config, nodes: map<Mac, Node>, more: map<Mac, Node>, mac: Mac, clock: nat, sends: seq<Send>)
    requires mac in nodes && 0 <= nodes[mac].group < 256 && Grows(nodes, more)
    requires SendsOk(c, nodes, mac, nodes[mac].group, sends)
    ensures forall q :: q in PacketsOf(nodes[mac].group, mac, clock, sends) ==> PacketOk(c, more, q)
  {
    hide PacketOk, Quorum, PacketOf;
    forall i | 0 <= i < |sends| ensures PacketOk(c, more, PacketOf(nodes[mac].group, mac, clock, sends[i])) {
      assert SendOk(c, nodes, mac, nodes[mac].group, sends[i]);
      SentIsOk(c, nodes, mac, clock, sends[i]);
      PacketKept(c, nodes, more, PacketOf(nodes[mac].group, mac, clock, sends[i]));
    }
  }

  lemma NextKeeps(c: Config, s: System, step: Step, t: System)
    requires Inv(c, s) && Next(c, s, step, t)
    ensures Inv(c, t)
  {
    hide PacketOk, NodeOk, Delivered, Broadcast;
    match step
    case StartSync(mac) => EnableKeeps(c, s, mac, t);
    case SendReady(mac) => BroadcastKeeps(c, s, mac, READY);
    case SendSyncReq(mac) => SyncReqKeeps(c, s, mac, t);
    case Deliver(mac, p) => DeliverKeeps(c, s, mac, p);
    case Wait(d) =>
    case SetClock(mac, a) =>
  }

  lemma SyncReqKeeps(c: Config, s: System, mac: Mac, t: System)
    requires Inv(c, s) && Next(c, s, SendSyncReq(mac), t)
    ensures Inv(c, t)
  {
    hide PacketOk, NodeOk, Broadcast;
    var n := s.nodes[mac].(runningPtp := true);
    var u := s.(nodes := s.nodes[mac := n]);
    RunningOk(c, s.nodes, mac, s.nodes[mac]);
    assert Grows(s.nodes, u.nodes);
    NodeKept(c, s.nodes, u.nodes, mac, n);
    NodeReplaced(c, s, mac, n, u);
    BroadcastKeeps(c, u, mac, SYNC_REQ);
  }

  lemma RunningOk(c: Config, nodes: map<Mac, Node>, x: Mac, n: Node)
    requires NodeOk(c, nodes, x, n)
    ensures NodeOk(c, nodes, x, n.(runningPtp := true))
  {
    hide Opener, Enabled;
  }

  lemma {:induction false} RunKeeps(c: Config, run: seq<System>, i: nat)
    requires Run(c, run) && i < |run|
    ensures Inv(c, run[i])
  {
    hide Next, NodeOk, PacketOk;
    if i == 0 {
      InitOk(c, run[0]);
    } else {
      RunKeeps(c, run, i - 1);
      assert Steps(c, run[i - 1], run[i]);
      var step :| Next(c, run[i - 1], step, run[i]);
      NextKeeps(c, run[i - 1], step, run[i]);
    }
  }

  lemma InitOk(c: Config, s: System)
    requires Init(s)
    ensures Inv(c, s)
  {
  }

  // ---------------------------------------------------------------- the theorems

  /** In every run: when a node has received GO, some node of its group waits for as many nodes as have
      arrived at the barrier; no node sends GO or fires its callback twice. */
  lemma BarrierHolds(c: Config, run: seq<System>, i: nat, x: Mac)
    requires Run(c, run) && i < |run| && x in run[i].nodes
    ensures var n := run[i].nodes[x];
            && (n.goReceived ==> Opened(c, run[i].nodes, n.group))
            && n.gos <= 1 && n.fired <= 1
  {
    hide Opener, PacketOk;
    RunKeeps(c, run, i);
    assert NodeOk(c, run[i].nodes, x, run[i].nodes[x]);
  }

  /** When all nodes of the group wait for `k` nodes, `k` have arrived. */
  lemma GroupIsComplete(c: Config, run: seq<System>, i: nat, x: Mac, k: int)
    requires Run(c, run) && i < |run| && x in run[i].nodes && run[i].nodes[x].goReceived
    requires forall g :: g in run[i].nodes && run[i].nodes[g].group == run[i].nodes[x].group ==> c.total(g) == k
    ensures Quorum(run[i].nodes, run[i].nodes[x].group, k)
  {
    hide Quorum, Run;
    BarrierHolds(c, run, i, x);
    var g :| Opener(c, run[i].nodes, run[i].nodes[x].group, g);
  }

  /** The group was complete already before the step in which the node received GO. */
  lemma GoNeedsQuorum(c: Config, run: seq<System>, i: nat, x: Mac)
    requires Run(c, run) && i + 1 < |run| && x in run[i].nodes && x in run[i + 1].nodes
    requires !run[i].nodes[x].goReceived && run[i + 1].nodes[x].goReceived
    ensures Opened(c, run[i].nodes, run[i].nodes[x].group)
  {
    hide Opener, PacketOk, NodeOk, Handle, PacketsOf, PacketOf;
    RunKeeps(c, run, i);
    assert Steps(c, run[i + 1 - 1], run[i + 1]);
    var step :| Next(c, run[i], step, run[i + 1]);
    assert step.Deliver? && step.mac == x;
    GoIsBacked(c, run[i].nodes, run[i].nodes[x], step.packet, Shown(run[i].now, run[i].ahead[x]));
  }

  lemma GoIsBacked(c: Config, nodes: map<Mac, Node>, n: Node, p: Packet, clock: nat)
    requires PacketOk(c, nodes, p) && !n.goReceived && Handle(n, p.from, p.payload, clock).node.goReceived
    ensures Opened(c, nodes, n.group)
  {
    hide Build, Parse, CodeOf, Clean, Quorum, ScanTimes, ScanSample, ScanTime, OnDelayReq;
    var m: Message :| p.payload == Build(m) && Backed(c, nodes, p.from, m);
    ParseBuild(m);
    DelayReqIs(n, p.from, Clean(m.body), clock);
  }
}
