/** What becomes of a packet at a host that owns its destination. */
module Delivery {
  import opened Bytes
  import opened Channels
  import opened Routes
  import opened Flood
  import opened FloodSafety
  import opened Forwarding

  /** The packet as a host without an entry sends it out again, about to arrive at `at`. */
  function ReSent(p: Pkt, at: Port): Pkt
    requires p.ttl > 0
  {
    Aged(p).(strayed := true, at := at)
  }

  /**
   At the owning host, `recvFrame` hands the packet up exactly when the device it came in on has the address; on
   any other device the host, which never learns a route to itself, sends it out again over all its links.
   */
  lemma OwnerDeliversOnItsDevice(t: Topology, n: Net, i: nat)
    requires Forwarding.Inv(t, n) && i < |n.pkts| && AtOwner(t, n.pkts[i])
    ensures Forwarding.Enabled(t, n, Receive(i))
    ensures
      var p, n' := n.pkts[i], Forwarding.Apply(t, n, Receive(i));
      if DeviceAt(t, p.at).ip == p.dst then
        n' == n.(pkts := Without(n.pkts, i), handed := n.handed + [p])
      else
        && n'.handed == n.handed
        && (forall q :: q in t.link && q.host == p.at.host && p.ttl > 0 ==> ReSent(p, t.link[q]) in n'.pkts)
        && (forall x :: x in n'.pkts ==>
              x in Without(n.pkts, i) ||
              (p.ttl > 0 && x.at in t.link && t.link[x.at].host == p.at.host && x == ReSent(p, x.at)))
  {
    var p := n.pkts[i];
    assert InOrder(t, n.flood.tables, p);
    DecisionIs(t, p);
    OwnersHaveNoEntry(t, n.flood, p.dst, p.at.host);
    if DeviceAt(t, p.at).ip != p.dst && p.ttl > 0 {
      SentToAll(t, n, p);
    }
  }

  lemma SentToAll(t: Topology, n: Net, p: Pkt)
    requires ValidTopology(t) && p.at.host < |t.hosts| && p.at.host < |n.flood.tables| && p.ttl > 0
    requires !HasRoute(n, p.at.host, p.dst)
    ensures forall q :: q in t.link && q.host == p.at.host ==> ReSent(p, t.link[q]) in Forwarded(t, n, p)
    ensures forall x :: x in Forwarded(t, n, p) ==>
              x.at in t.link && t.link[x.at].host == p.at.host && x == ReSent(p, x.at)
  {
    forall q | q in t.link && q.host == p.at.host
      ensures ReSent(p, t.link[q]) in Routed(t, n, p.at.host, Aged(p))
    {
      BroadcastReaches(t, n, p.at.host, Aged(p), q);
    }
    forall x | x in Routed(t, n, p.at.host, Aged(p))
      ensures x.at in t.link && t.link[x.at].host == p.at.host && x == ReSent(p, x.at)
    {
      EmitOnlyMoves(t, p.at.host, AllDevices(|t.hosts[p.at.host]|), Aged(p).(strayed := true), x);
    }
  }

  // ---- what runs can lead to ----

  /** A packet for `dst` arrives at, or is handed up at, the port `p`; with `straight`, without having strayed. */
  datatype Goal =
    | Arrival(dst: uint32, p: Port, straight: bool)
    | HandUp(dst: uint32, p: Port, straight: bool)

  predicate IsFor(q: Pkt, g: Goal) {
    q.dst == g.dst && q.at == g.p && (g.straight ==> !q.strayed)
  }

  predicate Meets(n: Net, g: Goal) {
    exists q :: q in (if g.Arrival? then n.pkts else n.handed) && IsFor(q, g)
  }

  ghost predicate LeadsTo(t: Topology, ok: (State, Event) -> bool, n: Net, g: Goal) {
    exists sts :: Forwarding.Runs(t, ok, n, sts) && Meets(Forwarding.After(t, ok, n, sts), g)
  }

  lemma LeadsToNow(t: Topology, ok: (State, Event) -> bool, n: Net, g: Goal, q: Pkt)
    requires q in (if g.Arrival? then n.pkts else n.handed) && IsFor(q, g)
    ensures LeadsTo(t, ok, n, g)
  {
    assert Forwarding.Runs(t, ok, n, []) && Meets(Forwarding.After(t, ok, n, []), g);
  }

  lemma LeadsToPrepend(t: Topology, ok: (State, Event) -> bool, n: Net, st: Step, g: Goal)
    requires Forwarding.Enabled(t, n, st) && (st.Control? ==> ok(n.flood, st.e))
    requires LeadsTo(t, ok, Forwarding.Apply(t, n, st), g)
    ensures LeadsTo(t, ok, n, g)
  {
    var n' := Forwarding.Apply(t, n, st);
    var sts :| Forwarding.Runs(t, ok, n', sts) && Meets(Forwarding.After(t, ok, n', sts), g);
    assert ([st] + sts)[1..] == sts;
    assert Forwarding.Runs(t, ok, n, [st] + sts);
    assert Forwarding.After(t, ok, n, [st] + sts) == Forwarding.After(t, ok, n', sts);
  }

  /** A packet that arrives on the device with its destination is handed up. */
  lemma ArrivalIsHandedUp(t: Topology, ok: (State, Event) -> bool, n: Net, q: Pkt, straight: bool)
    requires ValidTopology(t) && |n.flood.tables| == |t.hosts| && q in n.pkts && q.at in t.link
    requires DeviceAt(t, q.at).ip == q.dst && (straight ==> !q.strayed)
    ensures LeadsTo(t, ok, n, HandUp(q.dst, q.at, straight))
  {
    var i: nat :| i < |n.pkts| && n.pkts[i] == q;
    DecisionIs(t, q);
    LeadsToNow(t, ok, Forwarding.Apply(t, n, Receive(i)), HandUp(q.dst, q.at, straight), q);
    LeadsToPrepend(t, ok, n, Receive(i), HandUp(q.dst, q.at, straight));
  }

  /** A packet that arrives on another device is passed on. */
  lemma ArrivalIsForwarded(t: Topology, n: Net, i: nat, q: Pkt)
    requires ValidTopology(t) && |n.flood.tables| == |t.hosts| && i < |n.pkts| && n.pkts[i].at in t.link
    requires DeviceAt(t, n.pkts[i].at).ip != n.pkts[i].dst && n.pkts[i].ttl > 0
    requires q in Routed(t, n, n.pkts[i].at.host, Aged(n.pkts[i]))
    ensures Forwarding.Enabled(t, n, Receive(i)) && q in Forwarding.Apply(t, n, Receive(i)).pkts
    ensures Forwarding.Apply(t, n, Receive(i)).flood == n.flood
  {
    DecisionIs(t, n.pkts[i]);
  }

  // ---- the first arrival ----

  lemma NotBroadcast(t: Topology, h: nat, addr: uint32)
    requires ValidTopology(t) && h < |t.hosts| && Owns(t.hosts[h], addr)
    ensures addr != BROADCAST
  {
    var k: nat :| k < |t.hosts[h]| && t.hosts[h][k].ip == addr;
    assert ValidPort(t, Port(h, k)) && DeviceAt(t, Port(h, k)).ip == addr;
  }

  /** The neighbour has just learnt the address from the owner over the link at `p`, and sends. */
  lemma SendOverLink(t: Topology, n: Net, dst: uint32, p: Port) returns (q: Pkt)
    requires ValidTopology(t) && p in t.link && |n.flood.tables| == |t.hosts| && HasRoute(n, t.link[p].host, dst)
    requires n.flood.tables[t.link[p].host][Key(dst)].dev == t.link[p].dev
    ensures Forwarding.Enabled(t, n, SendTcp(t.link[p].host, dst))
    ensures q in Forwarding.Apply(t, n, SendTcp(t.link[p].host, dst)).pkts && q.dst == dst && q.at == p && !q.strayed
  {
    var o := t.link[p];
    assert o == Port(o.host, o.dev) && t.link[o] == p;
    q := NewPkt(n, o.host, dst);
    KnownRouteIsFollowed(t, n, o.host, q);
    q := q.(at := p);
  }

  lemma NeighbourLearns(t: Topology, dst: uint32, p: Port) returns (i: nat, n2: Net)
    requires ValidTopology(t) && p in t.link
    requires Owns(t.hosts[p.host], dst) && !Owns(t.hosts[t.link[p].host], dst)
    ensures Forwarding.Enabled(t, Start(t), Control(Announce(p.host)))
    ensures
      var n1 := Forwarding.Apply(t, Start(t), Control(Announce(p.host)));
      && Forwarding.Enabled(t, n1, Control(Deliver(i))) && Unwrapped(n1.flood, Deliver(i))
      && n2 == Forwarding.Apply(t, n1, Control(Deliver(i))) && |n2.flood.tables| == |t.hosts|
      && var q := t.link[p]; Key(dst) in n2.flood.tables[q.host] && n2.flood.tables[q.host][Key(dst)].dev == q.dev
  {
    i := OwnerAnnounces(t, dst, t.link[p]);
    n2 := Forwarding.Apply(t, Forwarding.Apply(t, Start(t), Control(Announce(p.host))), Control(Deliver(i)));
  }

  /** The run in which the neighbour sends over the link, and what it leads to further on. */
  lemma NeighbourCanReach(t: Topology, dst: uint32, p: Port)
    requires ValidTopology(t) && p in t.link
    requires Owns(t.hosts[p.host], dst) && !Owns(t.hosts[t.link[p].host], dst)
    ensures LeadsTo(t, Unwrapped, Start(t), Arrival(dst, p, true))
    ensures DeviceAt(t, p).ip == dst ==> LeadsTo(t, Unwrapped, Start(t), HandUp(dst, p, true))
  {
    var i, n2 := NeighbourLearns(t, dst, p);
    NotBroadcast(t, p.host, dst);
    var q := SendOverLink(t, n2, dst, p);
    var n3 := Forwarding.Apply(t, n2, SendTcp(t.link[p].host, dst));
    LeadsToNow(t, Unwrapped, n3, Arrival(dst, p, true), q);
    FromStart(t, dst, p, i, n2, Arrival(dst, p, true));
    if DeviceAt(t, p).ip == dst {
      ArrivalIsHandedUp(t, Unwrapped, n3, q, true);
      FromStart(t, dst, p, i, n2, HandUp(dst, p, true));
    }
  }

  lemma FromStart(t: Topology, dst: uint32, p: Port, i: nat, n2: Net, g: Goal)
    requires p in t.link && Forwarding.Enabled(t, Start(t), Control(Announce(p.host)))
    requires
      var n1 := Forwarding.Apply(t, Start(t), Control(Announce(p.host)));
      && Forwarding.Enabled(t, n1, Control(Deliver(i))) && Unwrapped(n1.flood, Deliver(i))
      && n2 == Forwarding.Apply(t, n1, Control(Deliver(i)))
    requires Forwarding.Enabled(t, n2, SendTcp(t.link[p].host, dst))
    requires LeadsTo(t, Unwrapped, Forwarding.Apply(t, n2, SendTcp(t.link[p].host, dst)), g)
    ensures LeadsTo(t, Unwrapped, Start(t), g)
  {
    LeadsToPrepend(t, Unwrapped, n2, SendTcp(t.link[p].host, dst), g);
    LeadsToPrepend(t, Unwrapped, Forwarding.Apply(t, Start(t), Control(Announce(p.host))), Control(Deliver(i)), g);
    LeadsToPrepend(t, Unwrapped, Start(t), Control(Announce(p.host)), g);
  }

  lemma StraightComesFromNonOwner(t: Topology, dst: uint32, p: Port)
    requires ValidTopology(t) && p in t.link && LeadsTo(t, Unwrapped, Start(t), Arrival(dst, p, true))
    ensures !Owns(t.hosts[t.link[p].host], dst)
  {
    var g := Arrival(dst, p, true);
    var sts :| Forwarding.Runs(t, Unwrapped, Start(t), sts) && Meets(Forwarding.After(t, Unwrapped, Start(t), sts), g);
    Forwarding.RunsKeepInv(t, Start(t), sts);
    var n := Forwarding.After(t, Unwrapped, Start(t), sts);
    var q :| q in n.pkts && IsFor(q, g);
    assert InOrder(t, n.flood.tables, q);
  }

  /** A packet can first meet an owner on a link exactly when the host at the other end is not an owner. */
  lemma FirstArrivalIff(t: Topology, dst: uint32, p: Port)
    requires ValidTopology(t) && p in t.link && Owns(t.hosts[p.host], dst)
    ensures LeadsTo(t, Unwrapped, Start(t), Arrival(dst, p, true)) <==> !Owns(t.hosts[t.link[p].host], dst)
  {
    if LeadsTo(t, Unwrapped, Start(t), Arrival(dst, p, true)) {
      StraightComesFromNonOwner(t, dst, p);
    }
    if !Owns(t.hosts[t.link[p].host], dst) {
      NeighbourCanReach(t, dst, p);
    }
  }

  /** Every packet that first meets an owner on port `p` is handed up then. */
  ghost predicate DeliversFirst(t: Topology, dst: uint32, p: Port)
    requires ValidTopology(t) && p in t.link
  {
    forall sts, i: nat ::
      Forwarding.Runs(t, Unwrapped, Start(t), sts) && i < |Forwarding.After(t, Unwrapped, Start(t), sts).pkts| ==>
      HandsUp(t, Forwarding.After(t, Unwrapped, Start(t), sts), i, Arrival(dst, p, true))
  }

  predicate HandsUp(t: Topology, n: Net, i: nat, g: Goal)
    requires i < |n.pkts|
  {
    IsFor(n.pkts[i], g) ==>
      Forwarding.Enabled(t, n, Receive(i)) && Forwarding.Apply(t, n, Receive(i)).handed == n.handed + [n.pkts[i]]
  }

  lemma DeliversFirstIff(t: Topology, dst: uint32, p: Port)
    requires ValidTopology(t) && p in t.link && Owns(t.hosts[p.host], dst)
    ensures DeliversFirst(t, dst, p) <==> (DeviceAt(t, p).ip == dst || Owns(t.hosts[t.link[p].host], dst))
  {
    var g := Arrival(dst, p, true);
    FirstArrivalIff(t, dst, p);
    forall sts, i: nat |
      Forwarding.Runs(t, Unwrapped, Start(t), sts) && i < |Forwarding.After(t, Unwrapped, Start(t), sts).pkts|
      ensures
        var n := Forwarding.After(t, Unwrapped, Start(t), sts);
        IsFor(n.pkts[i], g) ==> (HandsUp(t, n, i, g) <==> DeviceAt(t, p).ip == dst) && LeadsTo(t, Unwrapped, Start(t), g)
    {
      Forwarding.RunsKeepInv(t, Start(t), sts);
      var n := Forwarding.After(t, Unwrapped, Start(t), sts);
      if IsFor(n.pkts[i], g) {
        OwnerDeliversOnItsDevice(t, n, i);
        assert n.pkts[i] in n.pkts && Meets(n, g);
      }
    }
    if LeadsTo(t, Unwrapped, Start(t), g) {
      var sts :| Forwarding.Runs(t, Unwrapped, Start(t), sts) && Meets(Forwarding.After(t, Unwrapped, Start(t), sts), g);
      var n := Forwarding.After(t, Unwrapped, Start(t), sts);
      var i: nat :| i < |n.pkts| && IsFor(n.pkts[i], g);
      assert HandsUp(t, n, i, g) <==> DeviceAt(t, p).ip == dst;
    }
  }

  /**
   Every packet that meets an owner of `dst` is handed up on its first arrival, on every run, if and only if the
   owners' links to other hosts are all on devices with that very address.
   */
  lemma FirstArrivalsDeliverIff(t: Topology, dst: uint32)
    requires ValidTopology(t)
    ensures (forall p :: p in t.link && Owns(t.hosts[p.host], dst) ==> DeliversFirst(t, dst, p)) <==>
            (forall p :: p in t.link && Owns(t.hosts[p.host], dst) && !Owns(t.hosts[t.link[p].host], dst) ==>
                           DeviceAt(t, p).ip == dst)
  {
    forall p | p in t.link && Owns(t.hosts[p.host], dst)
      ensures DeliversFirst(t, dst, p) <==> (DeviceAt(t, p).ip == dst || Owns(t.hosts[t.link[p].host], dst))
    {
      DeliversFirstIff(t, dst, p);
    }
  }

  // ---- any arrival ----

  predicate HandedOnTheirDevice(t: Topology, n: Net) {
    forall p :: p in n.handed ==> p.at in t.link && ValidPort(t, p.at) && DeviceAt(t, p.at).ip == p.dst
  }

  lemma {:induction false} RunsHandUpOnTheirDevice(t: Topology, ok: (State, Event) -> bool, n: Net, sts: seq<Step>)
    requires HandedOnTheirDevice(t, n) && Forwarding.Runs(t, ok, n, sts)
    ensures HandedOnTheirDevice(t, Forwarding.After(t, ok, n, sts))
    decreases |sts|
  {
    if sts != [] {
      RunsHandUpOnTheirDevice(t, ok, Forwarding.Apply(t, n, sts[0]), sts[1..]);
    }
  }

  /** A host that knows no route to `dst` sends to all its neighbours. */
  lemma UnknownIsSentToAll(t: Topology, dst: uint32, p: Port) returns (q: Pkt)
    requires ValidTopology(t) && p in t.link
    ensures Forwarding.Enabled(t, Start(t), SendTcp(t.link[p].host, dst))
    ensures q in Forwarding.Apply(t, Start(t), SendTcp(t.link[p].host, dst)).pkts && q.dst == dst && q.at == p
  {
    var o := t.link[p];
    assert o in t.link && t.link[o] == p;
    q := NewPkt(Start(t), o.host, dst);
    BroadcastReaches(t, Start(t), o.host, q, o);
    q := q.(strayed := true, at := p);
  }

  /**
   Whatever the announcements do, the attached devices on which some run hands up a packet for `dst`, strayed or not,
   are exactly those with that address.
   */
  lemma HandedUpIff(t: Topology, ok: (State, Event) -> bool, dst: uint32, p: Port)
    requires ValidTopology(t)
    ensures LeadsTo(t, ok, Start(t), HandUp(dst, p, false)) <==> p in t.link && DeviceAt(t, p).ip == dst
  {
    var g := HandUp(dst, p, false);
    if LeadsTo(t, ok, Start(t), g) {
      var sts :| Forwarding.Runs(t, ok, Start(t), sts) && Meets(Forwarding.After(t, ok, Start(t), sts), g);
      RunsHandUpOnTheirDevice(t, ok, Start(t), sts);
    }
    if p in t.link && DeviceAt(t, p).ip == dst {
      var q := UnknownIsSentToAll(t, dst, p);
      ArrivalIsHandedUp(t, ok, Forwarding.Apply(t, Start(t), SendTcp(t.link[p].host, dst)), q, false);
      LeadsToPrepend(t, ok, Start(t), SendTcp(t.link[p].host, dst), g);
    }
  }

  /** For packets that have followed entries all the way, the host at the other end must moreover not be an owner. */
  lemma HandedUpStraightIff(t: Topology, dst: uint32, p: Port)
    requires ValidTopology(t)
    ensures LeadsTo(t, Unwrapped, Start(t), HandUp(dst, p, true)) <==>
            p in t.link && DeviceAt(t, p).ip == dst && !Owns(t.hosts[t.link[p].host], dst)
  {
    var g := HandUp(dst, p, true);
    if LeadsTo(t, Unwrapped, Start(t), g) {
      var sts :| Forwarding.Runs(t, Unwrapped, Start(t), sts) && Meets(Forwarding.After(t, Unwrapped, Start(t), sts), g);
      Forwarding.RunsKeepInv(t, Start(t), sts);
    }
    if p in t.link && DeviceAt(t, p).ip == dst && !Owns(t.hosts[t.link[p].host], dst) {
      assert t.hosts[p.host][p.dev].ip == dst;
      NeighbourCanReach(t, dst, p);
    }
  }

  /**
   A packet that an owner sends out again may come back on the right device: it is enough that the host at the other
   end of that device's link has no entry, or one that points back.
   */
  lemma SecondArrival(t: Topology, ok: (State, Event) -> bool, n: Net, i: nat, r: Port)
    requires ValidTopology(t) && |n.flood.tables| == |t.hosts| && i < |n.pkts| && n.pkts[i].at in t.link
    requires r in t.link && r.host == n.pkts[i].at.host && DeviceAt(t, r).ip == n.pkts[i].dst
    requires DeviceAt(t, n.pkts[i].at).ip != n.pkts[i].dst && DeviceAt(t, t.link[r]).ip != n.pkts[i].dst
    requires n.pkts[i].ttl >= 2 && !HasRoute(n, r.host, n.pkts[i].dst)
    requires HasRoute(n, t.link[r].host, n.pkts[i].dst) ==>
               n.flood.tables[t.link[r].host][Key(n.pkts[i].dst)].dev == t.link[r].dev
    ensures LeadsTo(t, ok, n, HandUp(n.pkts[i].dst, r, false))
  {
    var g := HandUp(n.pkts[i].dst, r, false);
    var q := ReSent(n.pkts[i], t.link[r]);
    BroadcastReaches(t, n, r.host, Aged(n.pkts[i]), r);
    ArrivalIsForwarded(t, n, i, q);
    var n1 := Forwarding.Apply(t, n, Receive(i));
    ComesBack(t, ok, n1, q, r);
    LeadsToPrepend(t, ok, n, Receive(i), g);
  }

  lemma ComesBack(t: Topology, ok: (State, Event) -> bool, n: Net, q: Pkt, r: Port)
    requires ValidTopology(t) && |n.flood.tables| == |t.hosts| && q in n.pkts && q.ttl > 0
    requires r in t.link && q.at == t.link[r] && DeviceAt(t, r).ip == q.dst && DeviceAt(t, q.at).ip != q.dst
    requires HasRoute(n, q.at.host, q.dst) ==> n.flood.tables[q.at.host][Key(q.dst)].dev == q.at.dev
    ensures LeadsTo(t, ok, n, HandUp(q.dst, r, false))
  {
    var j: nat :| j < |n.pkts| && n.pkts[j] == q;
    assert q.at in t.link && t.link[q.at] == r && q.at == Port(q.at.host, q.at.dev);
    var back := Aged(q).(at := r);
    if HasRoute(n, q.at.host, q.dst) {
      KnownRouteIsFollowed(t, n, q.at.host, Aged(q));
    } else {
      BroadcastReaches(t, n, q.at.host, Aged(q), q.at);
      back := back.(strayed := true);
    }
    ArrivalIsForwarded(t, n, j, back);
    ArrivalIsHandedUp(t, ok, Forwarding.Apply(t, n, Receive(j)), back, false);
    LeadsToPrepend(t, ok, n, Receive(j), HandUp(q.dst, r, false));
  }

  // ---- examples ----

  /** On `Line`, a packet for the middle host's second device that comes in on its first is handed up in the end. */
  lemma LineDeliversOnSecondArrival(ok: (State, Event) -> bool, n: Net, i: nat)
    requires FloodSafety.Inv(Line(), n.flood) && i < |n.pkts|
    requires n.pkts[i].at == Port(1, 0) && n.pkts[i].dst == 11 && n.pkts[i].ttl >= 2
    ensures LeadsTo(Line(), ok, n, HandUp(11, Port(1, 1), false))
  {
    assert Line().hosts[1][1].ip == 11;
    OwnersHaveNoEntry(Line(), n.flood, 11, 1);
    if HasRoute(n, 2, 11) {
      assert EntryInv(Line(), n.flood, 2, Key(11));
      LinePorts(Port(2, n.flood.tables[2][Key(11)].dev));
    }
    SecondArrival(Line(), ok, n, i, Port(1, 1));
  }

  /** Two hosts on one link, the first with a second device that is not attached. */
  function Pair(): Topology {
    Topology([[ExampleDevice(0, 0), ExampleDevice(0, 1)], [ExampleDevice(1, 0)]],
             map[Port(0, 0) := Port(1, 0), Port(1, 0) := Port(0, 0)])
  }

  lemma PairPorts(p: Port)
    ensures p in Pair().link <==> p in {Port(0, 0), Port(1, 0)}
    ensures ValidPort(Pair(), p) <==> p in {Port(0, 0), Port(0, 1), Port(1, 0)}
    ensures p in Pair().link ==> Pair().link[p] in Pair().link && Pair().link[Pair().link[p]] == p != Pair().link[p]
  {
  }

  lemma PairDevices(p: Port)
    requires ValidPort(Pair(), p)
    ensures DeviceAt(Pair(), p).ip == DeviceAt(Pair(), p).mac[0] == 10 * p.host + p.dev < 100
  {
  }

  lemma PairLinkIsValid(p: Port)
    requires p in Pair().link
    ensures
      var t := Pair();
      && ValidPort(t, p) && t.link[p] in t.link && t.link[t.link[p]] == p && ValidPort(t, t.link[p])
      && DeviceAt(t, p).mac != DeviceAt(t, t.link[p]).mac
  {
    PairPorts(p);
    PairPorts(Pair().link[p]);
    PairDevices(p);
    PairDevices(Pair().link[p]);
  }

  lemma PairIsValid()
    ensures ValidTopology(Pair())
  {
    forall p | p in Pair().link
      ensures
        var t := Pair();
        && ValidPort(t, p) && t.link[p] in t.link && t.link[t.link[p]] == p && ValidPort(t, t.link[p])
        && DeviceAt(t, p).mac != DeviceAt(t, t.link[p]).mac
    {
      PairLinkIsValid(p);
    }
    forall p | ValidPort(Pair(), p)
      ensures DeviceAt(Pair(), p).ip != BROADCAST
    {
      PairDevices(p);
    }
    ExampleNames(0);
    ExampleNames(1);
  }

  /** There, packets for the second device reach its host and are handed up on no run at all. */
  lemma PairNeverDelivers(ok: (State, Event) -> bool, p: Port)
    ensures ValidTopology(Pair()) && Owns(Pair().hosts[0], 1)
    ensures LeadsTo(Pair(), Unwrapped, Start(Pair()), Arrival(1, Port(0, 0), true))
    ensures !LeadsTo(Pair(), ok, Start(Pair()), HandUp(1, p, false))
  {
    PairIsValid();
    assert Pair().hosts[0][1].ip == 1 && Pair().hosts[1][0].ip == 10;
    FirstArrivalIff(Pair(), 1, Port(0, 0));
    HandedUpIff(Pair(), ok, 1, p);
    if p in Pair().link {
      PairPorts(p);
      PairDevices(p);
    }
  }
}
