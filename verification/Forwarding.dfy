/** TCP packets that follow the route tables hop by hop while the flood goes on changing the tables. */
module Forwarding {
  import opened Bytes
  import opened Channels
  import opened Routes
  import opened Flood
  import opened FloodSafety
  import Segments

  /**
   A packet about to arrive at `at`, after `hops` links, from a host whose entry had ttl `learnt`.  It has `strayed`
   once a host without an entry, its sender included, has sent it out on all devices.
   */
  datatype Pkt = Pkt(dst: uint32, ttl: uint8, at: Port, hops: nat, learnt: int, strayed: bool)

  /** `handed` records the packets given to the layer above. */
  datatype Net = Net(flood: State, pkts: seq<Pkt>, handed: seq<Pkt>)

  /** `Capture`: the host that sent packet `i` captures it on the device it went out on. */
  datatype Step = Control(e: Event) | SendTcp(h: nat, dst: uint32) | Receive(i: nat) | Lose(i: nat) | Capture(i: nat)

  function Start(t: Topology): Net {
    Net(Init(t), [], [])
  }

  predicate HasRoute(n: Net, h: nat, dst: uint32)
    requires h < |n.flood.tables|
  {
    dst != BROADCAST && Key(dst) in n.flood.tables[h]
  }

  /** A frame for each next hop whose device is attached. */
  function Emit(t: Topology, h: nat, hops: seq<Hop>, p: Pkt): seq<Pkt> {
    if hops == [] then []
    else
      (if Port(h, hops[0].dev) in t.link then [p.(at := t.link[Port(h, hops[0].dev)])] else []) +
      Emit(t, h, hops[1..], p)
  }

  function Routed(t: Topology, n: Net, h: nat, p: Pkt): seq<Pkt>
    requires h < |t.hosts| && h < |n.flood.tables|
  {
    Emit(t, h, NextHops(t.hosts[h], n.flood.tables[h], p.dst, FULL_MASK),
         p.(strayed := p.strayed || !HasRoute(n, h, p.dst)))
  }

  /** The packet as a host passes it on: `forward` takes one off its ttl. */
  function Aged(p: Pkt): Pkt
    requires p.ttl > 0
  {
    p.(ttl := WireTtl(ForwardTtl(p.ttl)), hops := p.hops + 1)
  }

  /** `forward`: a packet that arrives with ttl 0 is dropped. */
  function Forwarded(t: Topology, n: Net, p: Pkt): seq<Pkt>
    requires p.at.host < |t.hosts| && p.at.host < |n.flood.tables|
  {
    if ForwardTtl(p.ttl) < 0 then [] else Routed(t, n, p.at.host, Aged(p))
  }

  /** What packet `p` does to the host it is at, depending on what `recvFrame` takes it for. */
  function Dispatched(t: Topology, n: Net, p: Pkt, what: Dispatch): Net
    requires p.at.host < |t.hosts| && p.at.host < |n.flood.tables|
  {
    match what
    case Local => n.(handed := n.handed + [p])
    case Forward => n.(pkts := n.pkts + Forwarded(t, n, p))
    case _ => n
  }

  predicate Arrives(t: Topology, p: Pkt) {
    p.at in t.link && ValidPort(t, p.at) && ValidPort(t, t.link[p.at])
  }

  /** What `recvFrame` decides about the packet when it comes from the device at `from`. */
  function Decision(t: Topology, p: Pkt, from: Port): Dispatch
    requires ValidPort(t, p.at) && ValidPort(t, from)
  {
    Classify(DeviceAt(t, p.at), DeviceAt(t, from).mac, p.dst, Segments.TCP_PROTO)
  }

  predicate Enabled(t: Topology, n: Net, st: Step) {
    match st
    case Control(e) => Flood.Enabled(t, n.flood, e)
    case SendTcp(h, dst) => h < |t.hosts| && h < |n.flood.tables|
    case Receive(i) => i < |n.pkts| && Arrives(t, n.pkts[i]) && n.pkts[i].at.host < |n.flood.tables|
    case Lose(i) => i < |n.pkts|
    case Capture(i) => i < |n.pkts| && Arrives(t, n.pkts[i]) && t.link[n.pkts[i].at].host < |n.flood.tables|
  }

  /** `sendTCPPacket` sends with ttl 10. */
  function NewPkt(n: Net, h: nat, dst: uint32): Pkt
    requires h < |n.flood.tables|
  {
    var learnt := if HasRoute(n, h, dst) then n.flood.tables[h][Key(dst)].ttl else 0;
    Pkt(dst, WireTtl(TCP_TTL), Port(h, 0), 1, learnt, false)
  }

  function Apply(t: Topology, n: Net, st: Step): Net
    requires Enabled(t, n, st)
  {
    match st
    case Control(e) => n.(flood := Flood.Apply(t, n.flood, e))
    case SendTcp(h, dst) => n.(pkts := n.pkts + Routed(t, n, h, NewPkt(n, h, dst)))
    case Receive(i) =>
      var p := n.pkts[i];
      Dispatched(t, n.(pkts := Without(n.pkts, i)), p, Decision(t, p, t.link[p.at]))
    case Lose(i) => n.(pkts := Without(n.pkts, i))
    case Capture(i) =>
      var p := n.pkts[i].(at := t.link[n.pkts[i].at]);
      Dispatched(t, n, p, Decision(t, p, p.at))
  }

  /** A host that captures a packet it has just sent does nothing. */
  lemma CapturingChangesNothing(t: Topology, n: Net, i: nat)
    requires Enabled(t, n, Capture(i))
    ensures Apply(t, n, Capture(i)) == n
  {
  }

  /** `ok` is the hypothesis on the announcements that go on meanwhile. */
  predicate Runs(t: Topology, ok: (State, Event) -> bool, n: Net, sts: seq<Step>)
    decreases |sts|
  {
    sts == [] ||
    (&& Enabled(t, n, sts[0]) && (sts[0].Control? ==> ok(n.flood, sts[0].e))
     && Runs(t, ok, Apply(t, n, sts[0]), sts[1..]))
  }

  function After(t: Topology, ok: (State, Event) -> bool, n: Net, sts: seq<Step>): Net
    requires Runs(t, ok, n, sts)
    decreases |sts|
  {
    if sts == [] then n else After(t, ok, Apply(t, n, sts[0]), sts[1..])
  }

  /** On a valid topology a TCP packet is never taken for the host's own or for an announcement. */
  lemma DecisionIs(t: Topology, p: Pkt)
    requires ValidTopology(t) && p.at in t.link
    ensures Arrives(t, p)
    ensures Decision(t, p, t.link[p.at]) == if DeviceAt(t, p.at).ip == p.dst then Local else Forward
  {
  }

  // ---- where packets go ----

  lemma {:induction false} EmitHas(t: Topology, h: nat, hops: seq<Hop>, p: Pkt, k: nat)
    requires k < |hops| && Port(h, hops[k].dev) in t.link
    ensures p.(at := t.link[Port(h, hops[k].dev)]) in Emit(t, h, hops, p)
  {
    if k > 0 {
      EmitHas(t, h, hops[1..], p, k - 1);
    }
  }

  lemma {:induction false} EmitOnlyMoves(t: Topology, h: nat, hops: seq<Hop>, p: Pkt, q: Pkt)
    requires ValidTopology(t) && q in Emit(t, h, hops, p)
    ensures q.at in t.link && t.link[q.at].host == h && q == p.(at := q.at)
  {
    if !(Port(h, hops[0].dev) in t.link && q == p.(at := t.link[Port(h, hops[0].dev)])) {
      EmitOnlyMoves(t, h, hops[1..], p, q);
    }
  }

  /** A host without an entry sends the packet out over each of its links. */
  lemma BroadcastReaches(t: Topology, n: Net, h: nat, p: Pkt, q: Port)
    requires ValidTopology(t) && h < |t.hosts| && h < |n.flood.tables| && !HasRoute(n, h, p.dst)
    requires q in t.link && q.host == h
    ensures p.(strayed := true, at := t.link[q]) in Routed(t, n, h, p)
  {
    assert q == Port(h, q.dev) && ValidPort(t, q);
    EmitHas(t, h, AllDevices(|t.hosts[h]|), p.(strayed := true), q.dev);
  }

  lemma EmitOne(t: Topology, h: nat, hop: Hop, p: Pkt)
    requires Port(h, hop.dev) in t.link
    ensures Emit(t, h, [hop], p) == [p.(at := t.link[Port(h, hop.dev)])]
  {
    assert [hop][1..] == [];
  }

  /** A host with an entry sends to its next hop and nowhere else. */
  lemma KnownRouteIsFollowed(t: Topology, n: Net, h: nat, p: Pkt)
    requires h < |t.hosts| && h < |n.flood.tables| && HasRoute(n, h, p.dst)
    requires Port(h, n.flood.tables[h][Key(p.dst)].dev) in t.link
    ensures Routed(t, n, h, p) == [p.(at := NextPort(t, h, n.flood.tables[h][Key(p.dst)]))]
  {
    var v := n.flood.tables[h][Key(p.dst)];
    EmitOne(t, h, Hop(v.mac, v.dev), p);
    assert p.(strayed := p.strayed || !HasRoute(n, h, p.dst)) == p;
  }

  // ---- packets that have not strayed ----

  /**
   Where it is, the packet's destination is owned or known by an entry that makes up for the hops taken, and it did
   not come from an owner.
   */
  ghost predicate OnCourse(t: Topology, tables: seq<Table>, p: Pkt)
    requires |tables| == |t.hosts|
  {
    && p.at in t.link && p.at.host < |t.hosts| && p.dst != BROADCAST
    && t.link[p.at].host < |t.hosts| && !Owns(t.hosts[t.link[p.at].host], p.dst)
    && p.hops >= 1 && 0 <= p.learnt && p.hops <= FLOOD_TTL + 1 - p.learnt
    && (Owns(t.hosts[p.at.host], p.dst) ||
        (Key(p.dst) in tables[p.at.host] && tables[p.at.host][Key(p.dst)].ttl >= p.learnt + p.hops))
  }

  ghost predicate InOrder(t: Topology, tables: seq<Table>, p: Pkt)
    requires |tables| == |t.hosts|
  {
    p.at in t.link && p.ttl == TCP_TTL + 1 - p.hops && (p.strayed || OnCourse(t, tables, p))
  }

  ghost predicate HandedRightly(t: Topology, p: Pkt) {
    && p.at in t.link && ValidPort(t, p.at) && DeviceAt(t, p.at).ip == p.dst
    && (p.strayed ||
        (p.hops <= FLOOD_TTL + 1 - p.learnt && ValidPort(t, t.link[p.at]) && !Owns(t.hosts[t.link[p.at].host], p.dst)))
  }

  ghost predicate Inv(t: Topology, n: Net) {
    && FloodSafety.Inv(t, n.flood)
    && (forall p :: p in n.pkts ==> InOrder(t, n.flood.tables, p))
    && (forall p :: p in n.handed ==> HandedRightly(t, p))
  }

  /** Every hop is towards an owner: the packet sent on from a host on course is on course at the next. */
  lemma NextHopIsOnCourse(t: Topology, n: Net, h: nat, p: Pkt)
    requires FloodSafety.Inv(t, n.flood) && h < |t.hosts| && HasRoute(n, h, p.dst)
    requires 0 <= p.learnt && p.hops >= 1 && n.flood.tables[h][Key(p.dst)].ttl >= p.learnt + p.hops - 1
    ensures Port(h, n.flood.tables[h][Key(p.dst)].dev) in t.link
    ensures OnCourse(t, n.flood.tables, p.(at := NextPort(t, h, n.flood.tables[h][Key(p.dst)])))
  {
    NextHopIsCloser(t, n.flood, p.dst, h);
    var nb := NextPort(t, h, n.flood.tables[h][Key(p.dst)]);
    assert nb in t.link;
    assert Rank(t, n.flood, p.dst, nb.host) >= p.learnt + p.hops;
  }

  /** What a host sends out is in order, if its entry, should it have one, makes up for the hops taken. */
  lemma RoutedIsInOrder(t: Topology, n: Net, h: nat, p: Pkt, q: Pkt)
    requires FloodSafety.Inv(t, n.flood) && h < |t.hosts| && p.ttl == TCP_TTL + 1 - p.hops
    requires !p.strayed && HasRoute(n, h, p.dst) ==>
               0 <= p.learnt && p.hops >= 1 && n.flood.tables[h][Key(p.dst)].ttl >= p.learnt + p.hops - 1
    requires q in Routed(t, n, h, p)
    ensures InOrder(t, n.flood.tables, q)
  {
    var out := p.(strayed := p.strayed || !HasRoute(n, h, p.dst));
    EmitOnlyMoves(t, h, NextHops(t.hosts[h], n.flood.tables[h], p.dst, FULL_MASK), out, q);
    if !out.strayed {
      NextHopIsOnCourse(t, n, h, p);
      KnownRouteIsFollowed(t, n, h, p);
    }
  }

  /** A packet on course that is not at an owner yet still has ttl left and a route to follow. */
  lemma OnCourseCanGoOn(t: Topology, n: Net, p: Pkt)
    requires FloodSafety.Inv(t, n.flood) && OnCourse(t, n.flood.tables, p) && p.ttl == TCP_TTL + 1 - p.hops
    requires !Owns(t.hosts[p.at.host], p.dst)
    ensures p.ttl > 0 && HasRoute(n, p.at.host, p.dst) && p.hops < FLOOD_TTL + 1 - p.learnt
    ensures n.flood.tables[p.at.host][Key(p.dst)].ttl >= p.learnt + p.hops
    ensures Port(p.at.host, n.flood.tables[p.at.host][Key(p.dst)].dev) in t.link
  {
    assert EntryInv(t, n.flood, p.at.host, Key(p.dst));
  }

  lemma OwnersHaveNoEntry(t: Topology, s: State, addr: uint32, h: nat)
    requires FloodSafety.Inv(t, s) && h < |t.hosts| && Owns(t.hosts[h], addr)
    ensures Key(addr) !in s.tables[h]
  {
  }

  lemma ForwardedIsInOrder(t: Topology, n: Net, p: Pkt, q: Pkt)
    requires FloodSafety.Inv(t, n.flood) && InOrder(t, n.flood.tables, p) && p.at.host < |t.hosts|
    requires q in Forwarded(t, n, p)
    ensures InOrder(t, n.flood.tables, q)
  {
    AgedByOne(p);
    if !p.strayed && HasRoute(n, p.at.host, p.dst) {
      EntryMakesUp(t, n, p);
    }
    RoutedIsInOrder(t, n, p.at.host, Aged(p), q);
  }

  lemma AgedByOne(p: Pkt)
    requires p.ttl > 0
    ensures Aged(p) == p.(ttl := p.ttl - 1, hops := p.hops + 1)
  {
  }

  lemma EntryMakesUp(t: Topology, n: Net, p: Pkt)
    requires FloodSafety.Inv(t, n.flood) && OnCourse(t, n.flood.tables, p) && HasRoute(n, p.at.host, p.dst)
    ensures 0 <= p.learnt && p.hops >= 1 && n.flood.tables[p.at.host][Key(p.dst)].ttl >= p.learnt + p.hops
  {
    if Owns(t.hosts[p.at.host], p.dst) {
      OwnersHaveNoEntry(t, n.flood, p.dst, p.at.host);
    }
  }

  lemma ControlKeepsOrder(t: Topology, n: Net, e: Event, p: Pkt)
    requires FloodSafety.Inv(t, n.flood) && Flood.Enabled(t, n.flood, e) && Unwrapped(n.flood, e)
    requires InOrder(t, n.flood.tables, p)
    ensures
      var s' := Flood.Apply(t, n.flood, e);
      |s'.tables| == |t.hosts| && InOrder(t, s'.tables, p)
  {
    if e.Deliver? {
      DeliverImproves(t, n.flood, e.i);
      if p.at.host < |t.hosts| {
        assert Improves(n.flood.tables[p.at.host], Flood.Apply(t, n.flood, e).tables[p.at.host]);
      }
    }
  }

  lemma ControlKeepsInv(t: Topology, n: Net, e: Event)
    requires Inv(t, n) && Enabled(t, n, Control(e)) && Unwrapped(n.flood, e)
    ensures Inv(t, Apply(t, n, Control(e)))
  {
    FloodSafety.StepKeepsInv(t, n.flood, e);
    forall p | p in n.pkts
      ensures InOrder(t, Flood.Apply(t, n.flood, e).tables, p)
    {
      ControlKeepsOrder(t, n, e, p);
    }
  }

  lemma NewPktIsInOrder(t: Topology, n: Net, h: nat, dst: uint32, q: Pkt)
    requires FloodSafety.Inv(t, n.flood) && h < |t.hosts| && q in Routed(t, n, h, NewPkt(n, h, dst))
    ensures InOrder(t, n.flood.tables, q)
  {
    NewPktMakesUp(t, n, h, dst);
    RoutedIsInOrder(t, n, h, NewPkt(n, h, dst), q);
  }

  lemma NewPktMakesUp(t: Topology, n: Net, h: nat, dst: uint32)
    requires FloodSafety.Inv(t, n.flood) && h < |t.hosts|
    ensures
      var p := NewPkt(n, h, dst);
      && p.dst == dst && p.hops == 1 && p.ttl == TCP_TTL + 1 - p.hops
      && (HasRoute(n, h, dst) ==> 0 <= p.learnt == n.flood.tables[h][Key(dst)].ttl)
  {
    assert WireTtl(TCP_TTL) == TCP_TTL;
    if HasRoute(n, h, dst) {
      assert EntryInv(t, n.flood, h, Key(dst));
    }
  }

  lemma SendKeepsInv(t: Topology, n: Net, h: nat, dst: uint32)
    requires Inv(t, n) && Enabled(t, n, SendTcp(h, dst))
    ensures Inv(t, Apply(t, n, SendTcp(h, dst)))
  {
    forall q | q in Routed(t, n, h, NewPkt(n, h, dst))
      ensures InOrder(t, n.flood.tables, q)
    {
      NewPktIsInOrder(t, n, h, dst, q);
    }
  }

  lemma ReceiveKeepsInv(t: Topology, n: Net, i: nat)
    requires Inv(t, n) && Enabled(t, n, Receive(i))
    ensures Inv(t, Apply(t, n, Receive(i)))
  {
    var p := n.pkts[i];
    assert InOrder(t, n.flood.tables, p);
    DecisionIs(t, p);
    forall q | q in Forwarded(t, n, p)
      ensures InOrder(t, n.flood.tables, q)
    {
      ForwardedIsInOrder(t, n, p, q);
    }
  }

  /** Route updates that interleave with forwarding keep packets on course. */
  lemma StepKeepsInv(t: Topology, n: Net, st: Step)
    requires Inv(t, n) && Enabled(t, n, st) && (st.Control? ==> Unwrapped(n.flood, st.e))
    ensures Inv(t, Apply(t, n, st))
  {
    match st
    case Control(e) => ControlKeepsInv(t, n, e);
    case SendTcp(h, dst) => SendKeepsInv(t, n, h, dst);
    case Receive(i) => ReceiveKeepsInv(t, n, i);
    case Lose(i) =>
    case Capture(i) => CapturingChangesNothing(t, n, i);
  }

  lemma {:induction false} RunsKeepInv(t: Topology, n: Net, sts: seq<Step>)
    requires Inv(t, n) && Runs(t, Unwrapped, n, sts)
    ensures Inv(t, After(t, Unwrapped, n, sts))
    decreases |sts|
  {
    if sts != [] {
      StepKeepsInv(t, n, sts[0]);
      RunsKeepInv(t, Apply(t, n, sts[0]), sts[1..]);
    }
  }

  predicate IsOneHopOn(t: Topology, p: Pkt, p': Pkt) {
    && p'.dst == p.dst && p'.learnt == p.learnt && p'.hops == p.hops + 1 && p'.ttl == p.ttl - 1
    && p'.strayed == p.strayed && p'.at in t.link && t.link[p'.at].host == p.at.host
  }

  predicate AtOwner(t: Topology, p: Pkt) {
    p.at.host < |t.hosts| && Owns(t.hosts[p.at.host], p.dst)
  }

  /** Receiving packet `i` sends it on to exactly one next host, within the hops it has left. */
  ghost predicate GoesOn(t: Topology, n: Net, i: nat)
    requires i < |n.pkts|
  {
    && Enabled(t, n, Receive(i)) && n.pkts[i].hops < FLOOD_TTL + 1 - n.pkts[i].learnt
    && exists p' :: IsOneHopOn(t, n.pkts[i], p') && Apply(t, n, Receive(i)) == n.(pkts := Without(n.pkts, i) + [p'])
  }

  /** It is never dropped by the ttl test and never broadcast: one packet goes on. */
  lemma RelayKeepsGoing(t: Topology, n: Net, i: nat)
    requires Inv(t, n) && i < |n.pkts| && !n.pkts[i].strayed && !AtOwner(t, n.pkts[i])
    ensures n.pkts[i].ttl > 0 && GoesOn(t, n, i)
  {
    assert InOrder(t, n.flood.tables, n.pkts[i]);
    OnCourseCanGoOn(t, n, n.pkts[i]);
    RouteIsTaken(t, n, i);
  }

  lemma RouteIsTaken(t: Topology, n: Net, i: nat)
    requires ValidTopology(t) && |n.flood.tables| == |t.hosts| && i < |n.pkts| && n.pkts[i].at in t.link
    requires n.pkts[i].ttl > 0 && n.pkts[i].hops < FLOOD_TTL + 1 - n.pkts[i].learnt && !AtOwner(t, n.pkts[i])
    requires HasRoute(n, n.pkts[i].at.host, n.pkts[i].dst)
    requires Port(n.pkts[i].at.host, n.flood.tables[n.pkts[i].at.host][Key(n.pkts[i].dst)].dev) in t.link
    ensures GoesOn(t, n, i)
  {
    var p := n.pkts[i];
    DecisionIs(t, p);
    assert DeviceAt(t, p.at) == t.hosts[p.at.host][p.at.dev];
    KnownRouteIsFollowed(t, n, p.at.host, Aged(p));
    var p' := Aged(p).(at := NextPort(t, p.at.host, n.flood.tables[p.at.host][Key(p.dst)]));
    assert IsOneHopOn(t, p, p');
  }

  /**
   However table updates interleave with forwarding, a packet that is sent with an entry of ttl t and has not strayed
   is at an owner, within 9 - t hops and with ttl left, or goes on to one next host.  No packet takes more than 11 hops.
   */
  lemma PacketsReachOwners(t: Topology, sts: seq<Step>)
    requires ValidTopology(t) && Runs(t, Unwrapped, Start(t), sts)
    ensures
      var n := After(t, Unwrapped, Start(t), sts);
      && (forall i: nat :: i < |n.pkts| ==> n.pkts[i].hops + n.pkts[i].ttl == 11)
      && (forall i: nat :: i < |n.pkts| && !n.pkts[i].strayed ==>
            && n.pkts[i].ttl > 0 && n.pkts[i].hops <= 9 - n.pkts[i].learnt
            && (AtOwner(t, n.pkts[i]) || GoesOn(t, n, i)))
      && (forall p :: p in n.handed ==> HandedRightly(t, p))
  {
    RunsKeepInv(t, Start(t), sts);
    var n := After(t, Unwrapped, Start(t), sts);
    forall i: nat | i < |n.pkts|
      ensures n.pkts[i].hops + n.pkts[i].ttl == 11
      ensures !n.pkts[i].strayed ==> n.pkts[i].ttl > 0 && n.pkts[i].hops <= FLOOD_TTL + 1 - n.pkts[i].learnt
      ensures !n.pkts[i].strayed ==> AtOwner(t, n.pkts[i]) || GoesOn(t, n, i)
    {
      assert InOrder(t, n.flood.tables, n.pkts[i]);
      if !n.pkts[i].strayed && !AtOwner(t, n.pkts[i]) {
        RelayKeepsGoing(t, n, i);
      }
    }
  }
}
