/**
 Why ttl 0 matters: letting an announcement wrap around makes two neighbours point at each other, and exactly on
 which topologies that can happen.
 */
module FloodWrap {
  import opened Bytes
  import opened Channels
  import opened Routes
  import opened Flood
  import Safety = FloodSafety

  /** The code as it is, with no manual routes. */
  predicate NoManual(s: State, e: Event) {
    !e.Manual?
  }

  /** An announcement about to cross a link neither end of which owns the address. */
  predicate Crossing(t: Topology, s: State, i: nat) {
    && i < |s.net| && s.net[i].at in t.link
    && s.net[i].at.host < |t.hosts| && t.link[s.net[i].at].host < |t.hosts|
    && !Owns(t.hosts[s.net[i].at.host], s.net[i].addr) && !Owns(t.hosts[t.link[s.net[i].at].host], s.net[i].addr)
  }

  /** The two ends of the link send packets for `addr` to each other. */
  predicate PointAtEachOther(t: Topology, s: State, addr: uint32, p: Port)
    requires p in t.link
  {
    Safety.HopsTo(t, s, addr, p.host, t.link[p].host) && Safety.HopsTo(t, s, addr, t.link[p].host, p.host)
  }

  /** What a host that does not own the address relays goes out on each of its links. */
  lemma RelayGoesOut(t: Topology, s: State, a: Ann, q: Port)
    requires ValidTopology(t) && |s.tables| == |t.hosts| && a.at in t.link
    requires q in t.link && q.host == a.at.host && !Owns(t.hosts[q.host], a.addr)
    ensures Ann(a.addr, WireTtl(a.ttl - 1), t.link[q]) in Receive(t, s, a).1
  {
    assert q == Port(q.host, q.dev) && q.dev < |t.hosts[q.host]|;
  }

  lemma IndexIn(front: seq<Ann>, back: seq<Ann>, a: Ann) returns (j: nat)
    requires a in back
    ensures j < |front + back| && (front + back)[j] == a
  {
    var k: nat :| k < |back| && back[k] == a;
    j := |front| + k;
  }

  lemma RelaysOnLink(t: Topology, s: State, i: nat, q: Port) returns (j: nat)
    requires ValidTopology(t) && |s.tables| == |t.hosts| && i < |s.net| && s.net[i].at in t.link
    requires q in t.link && q.host == s.net[i].at.host && !Owns(t.hosts[q.host], s.net[i].addr)
    ensures Enabled(t, s, Deliver(i)) && j < |Apply(t, s, Deliver(i)).net|
    ensures Apply(t, s, Deliver(i)).net[j] == Ann(s.net[i].addr, WireTtl(s.net[i].ttl - 1), t.link[q])
  {
    var back := Ann(s.net[i].addr, WireTtl(s.net[i].ttl - 1), t.link[q]);
    RelayGoesOut(t, s, s.net[i], q);
    assert Enabled(t, s, Deliver(i));
    assert Apply(t, s, Deliver(i)).net == Without(s.net, i) + Receive(t, s, s.net[i]).1;
    j := IndexIn(Without(s.net, i), Receive(t, s, s.net[i]).1, back);
  }

  /** So a delivered announcement crosses the same link back, one less. */
  lemma Bounce(t: Topology, s: State, i: nat) returns (j: nat)
    requires ValidTopology(t) && |s.tables| == |t.hosts| && Crossing(t, s, i)
    ensures Enabled(t, s, Deliver(i))
    ensures
      var s' := Apply(t, s, Deliver(i));
      && |s'.tables| == |t.hosts| && Crossing(t, s', j)
      && s'.net[j] == Ann(s.net[i].addr, WireTtl(s.net[i].ttl - 1), t.link[s.net[i].at])
  {
    j := RelaysOnLink(t, s, i, s.net[i].at);
  }

  /** A large ttl is recorded whatever small entry there was, and the other hosts' tables are left alone. */
  lemma LargeTtlIsRecorded(t: Topology, s: State, i: nat)
    requires ValidTopology(t) && |s.tables| == |t.hosts| && Crossing(t, s, i)
    requires var a := s.net[i]; Key(a.addr) in s.tables[a.at.host] ==> s.tables[a.at.host][Key(a.addr)].ttl < a.ttl
    ensures Enabled(t, s, Deliver(i))
    ensures
      var p, s' := s.net[i].at, Apply(t, s, Deliver(i));
      && Safety.HopsTo(t, s', s.net[i].addr, p.host, t.link[p].host)
      && forall h :: 0 <= h < |s.tables| && h != p.host ==> s'.tables[h] == s.tables[h]
  {
    assert s.net[i].at == Port(s.net[i].at.host, s.net[i].at.dev);
  }

  /** No entry for `addr` is larger than an announcement that has not wrapped. */
  ghost predicate Small(t: Topology, s: State, addr: uint32) {
    && ValidTopology(t) && |s.tables| == |t.hosts|
    && forall h :: 0 <= h < |s.tables| && Key(addr) in s.tables[h] ==> s.tables[h][Key(addr)].ttl <= FLOOD_TTL
  }

  lemma SmallStaysSmall(t: Topology, s: State, i: nat)
    requires i < |s.net| && s.net[i].ttl <= FLOOD_TTL
    requires Small(t, s, s.net[i].addr) && Enabled(t, s, Deliver(i))
    ensures Small(t, Apply(t, s, Deliver(i)), s.net[i].addr)
  {
  }

  lemma ReplyPointsBack(t: Topology, s: State, j: nat, p: Port)
    requires ValidTopology(t) && |s.tables| == |t.hosts| && Crossing(t, s, j)
    requires p in t.link && t.link[t.link[p]] == p && s.net[j].at == t.link[p] && t.link[p].host != p.host
    requires Safety.HopsTo(t, s, s.net[j].addr, p.host, t.link[p].host)
    requires var a := s.net[j]; Key(a.addr) in s.tables[a.at.host] ==> s.tables[a.at.host][Key(a.addr)].ttl < a.ttl
    ensures Enabled(t, s, Deliver(j)) && PointAtEachOther(t, Apply(t, s, Deliver(j)), s.net[j].addr, p)
  {
    LargeTtlIsRecorded(t, s, j);
  }

  /** The last deliveries: ttl 255 one way and, if the link joins two hosts, 254 back. */
  lemma WrappedPairMakesLoop(t: Topology, s: State, i: nat) returns (es: seq<Event>)
    requires Crossing(t, s, i) && s.net[i].ttl == 255 && Small(t, s, s.net[i].addr)
    ensures Runs(t, NoManual, s, es)
    ensures PointAtEachOther(t, After(t, NoManual, s, es), s.net[i].addr, s.net[i].at)
  {
    var p := s.net[i].at;
    LargeTtlIsRecorded(t, s, i);
    var j := Bounce(t, s, i);
    var s1 := Apply(t, s, Deliver(i));
    if t.link[p].host == p.host {
      es := [Deliver(i)] + [];
      RunsPrepend(t, NoManual, s, Deliver(i), []);
    } else {
      assert t.link[t.link[p]] == p;
      ReplyPointsBack(t, s1, j, p);
      RunsPrepend(t, NoManual, s1, Deliver(j), []);
      RunsPrepend(t, NoManual, s, Deliver(i), [Deliver(j)] + []);
      es := [Deliver(i)] + ([Deliver(j)] + []);
    }
  }

  /**
   From every state whose entries are small, an announcement crossing a link neither end of which owns the address
   can bounce on that link until it wraps, and then the two ends route to each other.
   */
  lemma {:induction false} WrappingMakesLoop(t: Topology, s: State, i: nat) returns (es: seq<Event>)
    requires Crossing(t, s, i) && s.net[i].ttl <= FLOOD_TTL && Small(t, s, s.net[i].addr)
    ensures Runs(t, NoManual, s, es)
    ensures PointAtEachOther(t, After(t, NoManual, s, es), s.net[i].addr, s.net[i].at)
    decreases s.net[i].ttl
  {
    var p, addr := s.net[i].at, s.net[i].addr;
    var j := Bounce(t, s, i);
    var s1 := Apply(t, s, Deliver(i));
    SmallStaysSmall(t, s, i);
    assert t.link[t.link[p]] == p && s1.net[j].addr == addr;
    assert s1.net[j].ttl == if s.net[i].ttl == 0 then 255 else s.net[i].ttl - 1;
    var rest;
    if s.net[i].ttl == 0 {
      rest := WrappedPairMakesLoop(t, s1, j);
    } else {
      rest := WrappingMakesLoop(t, s1, j);
    }
    es := [Deliver(i)] + rest;
    RunsPrepend(t, NoManual, s, Deliver(i), rest);
    assert PointAtEachOther(t, After(t, NoManual, s1, rest), addr, p);
  }

  /** Stated of reachable states. */
  lemma LoopFreedomNeedsNoWrap(t: Topology, es: seq<Event>, i: nat)
    requires ValidTopology(t) && Runs(t, Unwrapped, Init(t), es)
    requires
      var s := After(t, Unwrapped, Init(t), es);
      Crossing(t, s, i) && s.net[i].ttl <= FLOOD_TTL
    ensures
      var s := After(t, Unwrapped, Init(t), es);
      exists more ::
        Runs(t, NoManual, s, more) && PointAtEachOther(t, After(t, NoManual, s, more), s.net[i].addr, s.net[i].at)
  {
    Safety.RunsKeepInv(t, Unwrapped, Init(t), es);
    var s := After(t, Unwrapped, Init(t), es);
    forall h | 0 <= h < |s.tables| && Key(s.net[i].addr) in s.tables[h]
      ensures s.tables[h][Key(s.net[i].addr)].ttl <= FLOOD_TTL
    {
      assert Safety.EntryInv(t, s, h, Key(s.net[i].addr));
    }
    var more := WrappingMakesLoop(t, s, i);
  }

  // ---- exactly on which topologies ----

  /** A host that does not own the address and has a link to an owner. */
  ghost predicate NextToOwner(t: Topology, addr: uint32, h: nat)
    requires ValidTopology(t) && h < |t.hosts|
  {
    !Owns(t.hosts[h], addr) && exists p :: p in t.link && p.host == h && Owns(t.hosts[t.link[p].host], addr)
  }

  /** Such hosts have links to owners only: no announcement of the address travels further than one link. */
  ghost predicate OneLinkFloods(t: Topology, addr: uint32)
    requires ValidTopology(t)
  {
    forall q :: q in t.link && NextToOwner(t, addr, q.host) ==> Owns(t.hosts[t.link[q].host], addr)
  }

  ghost predicate DirectEntry(t: Topology, s: State, addr: uint32, h: nat)
    requires ValidTopology(t) && |s.tables| == |t.hosts| && h < |t.hosts| && Key(addr) in s.tables[h]
  {
    var p := Port(h, s.tables[h][Key(addr)].dev);
    !Owns(t.hosts[h], addr) && p in t.link && Owns(t.hosts[t.link[p].host], addr)
  }

  /** Every entry leads straight to an owner. */
  ghost predicate DirectInv(t: Topology, s: State, addr: uint32) {
    && ValidTopology(t) && |s.tables| == |t.hosts|
    && (forall h: nat :: h < |t.hosts| && Key(addr) in s.tables[h] ==> DirectEntry(t, s, addr, h))
    && (forall a :: a in s.net && a.addr == addr ==>
          && a.at in t.link
          && (Owns(t.hosts[t.link[a.at].host], addr) || NextToOwner(t, addr, t.link[a.at].host)))
  }

  /** An announcement that a non-owner takes comes straight from an owner. */
  lemma TakenFromOwner(t: Topology, s: State, a: Ann)
    requires DirectInv(t, s, a.addr) && OneLinkFloods(t, a.addr)
    requires a in s.net && !Owns(t.hosts[a.at.host], a.addr)
    ensures Owns(t.hosts[t.link[a.at].host], a.addr) && NextToOwner(t, a.addr, a.at.host)
  {
    assert t.link[a.at] in t.link && t.link[t.link[a.at]] == a.at;
  }

  lemma DeliverKeepsDirectEntries(t: Topology, s: State, i: nat, addr: uint32, h: nat)
    requires DirectInv(t, s, addr) && OneLinkFloods(t, addr) && Enabled(t, s, Deliver(i))
    requires h < |t.hosts| && Key(addr) in Apply(t, s, Deliver(i)).tables[h]
    ensures DirectEntry(t, Apply(t, s, Deliver(i)), addr, h)
  {
    var s' := Apply(t, s, Deliver(i));
    if Key(addr) in s.tables[h] && s'.tables[h][Key(addr)] == s.tables[h][Key(addr)] {
      assert DirectEntry(t, s, addr, h);
    } else {
      Safety.ChangedEntry(t, s, i, h, Key(addr));
      assert s.net[i] in s.net && s.net[i].at == Port(h, s.net[i].at.dev);
      TakenFromOwner(t, s, s.net[i]);
    }
  }

  lemma DeliverKeepsDirectAnnouncements(t: Topology, s: State, i: nat, b: Ann)
    requires DirectInv(t, s, b.addr) && OneLinkFloods(t, b.addr) && Enabled(t, s, Deliver(i))
    requires b in Apply(t, s, Deliver(i)).net
    ensures b.at in t.link
    ensures Owns(t.hosts[t.link[b.at].host], b.addr) || NextToOwner(t, b.addr, t.link[b.at].host)
  {
    if b !in s.net {
      var a := s.net[i];
      assert a in s.net;
      Safety.RelayIsBacked(t, s, a, b);
      if !Owns(t.hosts[a.at.host], a.addr) {
        TakenFromOwner(t, s, a);
      }
    }
  }

  lemma DeliverKeepsDirect(t: Topology, s: State, i: nat, addr: uint32)
    requires DirectInv(t, s, addr) && OneLinkFloods(t, addr) && Enabled(t, s, Deliver(i))
    ensures DirectInv(t, Apply(t, s, Deliver(i)), addr)
  {
    var s' := Apply(t, s, Deliver(i));
    forall h: nat | h < |t.hosts| && Key(addr) in s'.tables[h]
      ensures DirectEntry(t, s', addr, h)
    {
      DeliverKeepsDirectEntries(t, s, i, addr, h);
    }
    forall b | b in s'.net && b.addr == addr
      ensures b.at in t.link
      ensures Owns(t.hosts[t.link[b.at].host], addr) || NextToOwner(t, addr, t.link[b.at].host)
    {
      DeliverKeepsDirectAnnouncements(t, s, i, b);
    }
  }

  lemma StepKeepsDirect(t: Topology, s: State, e: Event, addr: uint32)
    requires DirectInv(t, s, addr) && OneLinkFloods(t, addr) && Enabled(t, s, e) && NoManual(s, e)
    ensures DirectInv(t, Apply(t, s, e), addr)
  {
    var s' := Apply(t, s, e);
    if e.Deliver? {
      DeliverKeepsDirect(t, s, e.i, addr);
    } else {
      forall h: nat | h < |t.hosts| && Key(addr) in s'.tables[h]
        ensures DirectEntry(t, s', addr, h)
      {
        assert DirectEntry(t, s, addr, h);
      }
    }
  }

  lemma {:induction false} RunsKeepDirect(t: Topology, s: State, es: seq<Event>, addr: uint32)
    requires DirectInv(t, s, addr) && OneLinkFloods(t, addr) && Runs(t, NoManual, s, es)
    ensures DirectInv(t, After(t, NoManual, s, es), addr)
    decreases |es|
  {
    if es != [] {
      StepKeepsDirect(t, s, es[0], addr);
      RunsKeepDirect(t, Apply(t, s, es[0]), es[1..], addr);
    }
  }

  lemma OwnersHopNowhere(t: Topology, s: State, addr: uint32, h: nat, b: nat)
    requires DirectInv(t, s, addr) && h < |t.hosts| && Owns(t.hosts[h], addr)
    ensures !Safety.HopsTo(t, s, addr, h, b)
  {
    assert Key(addr) in s.tables[h] ==> DirectEntry(t, s, addr, h);
  }

  lemma HopsLeadToOwners(t: Topology, s: State, addr: uint32, a: nat, b: nat)
    requires DirectInv(t, s, addr) && Safety.HopsTo(t, s, addr, a, b)
    ensures a != b && b < |t.hosts| && Owns(t.hosts[b], addr)
  {
    assert DirectEntry(t, s, addr, a);
  }

  lemma DirectHasNoCycle(t: Topology, s: State, addr: uint32, r: seq<nat>)
    requires DirectInv(t, s, addr)
    ensures !Safety.Cycle(t, s, addr, r)
  {
    if Safety.Cycle(t, s, addr, r) {
      assert Safety.HopsTo(t, s, addr, r[0], r[1]);
      HopsLeadToOwners(t, s, addr, r[0], r[1]);
      OwnersHopNowhere(t, s, addr, r[1], r[2]);
    }
  }

  /** Where an owner announces itself to a host that has a link to a non-owner, the flood can be led into a loop. */
  lemma LoopIsReached(t: Topology, addr: uint32, p: Port, q: Port) returns (es: seq<Event>)
    requires ValidTopology(t) && p in t.link && q in t.link && p.host == q.host && !Owns(t.hosts[p.host], addr)
    requires Owns(t.hosts[t.link[p].host], addr) && !Owns(t.hosts[t.link[q].host], addr)
    ensures Runs(t, NoManual, Init(t), es)
    ensures PointAtEachOther(t, After(t, NoManual, Init(t), es), addr, t.link[q])
  {
    var e := Announce(t.link[p].host);
    var i := OwnerAnnounces(t, addr, p);
    var rest := FirstRelayCanLoop(t, Apply(t, Init(t), e), i, q);
    RunsPrepend(t, NoManual, Init(t), e, rest);
    es := [e] + rest;
  }

  lemma FirstRelayCanLoop(t: Topology, s: State, i: nat, q: Port) returns (es: seq<Event>)
    requires i < |s.net| && s.net[i].ttl == FLOOD_TTL && Small(t, s, s.net[i].addr)
    requires s.net[i].at in t.link && q in t.link && q.host == s.net[i].at.host
    requires !Owns(t.hosts[q.host], s.net[i].addr) && !Owns(t.hosts[t.link[q].host], s.net[i].addr)
    ensures Runs(t, NoManual, s, es)
    ensures PointAtEachOther(t, After(t, NoManual, s, es), s.net[i].addr, t.link[q])
  {
    var j := RelaysOnLink(t, s, i, q);
    SmallStaysSmall(t, s, i);
    var rest := WrappingMakesLoop(t, Apply(t, s, Deliver(i)), j);
    RunsPrepend(t, NoManual, s, Deliver(i), rest);
    es := [Deliver(i)] + rest;
  }

  ghost predicate CanLoop(t: Topology, addr: uint32) {
    exists es, r :: Runs(t, NoManual, Init(t), es) && Safety.Cycle(t, After(t, NoManual, Init(t), es), addr, r)
  }

  lemma OneLinkFloodsCannotLoop(t: Topology, addr: uint32)
    requires ValidTopology(t) && OneLinkFloods(t, addr)
    ensures !CanLoop(t, addr)
  {
    forall es, r | Runs(t, NoManual, Init(t), es)
      ensures !Safety.Cycle(t, After(t, NoManual, Init(t), es), addr, r)
    {
      RunsKeepDirect(t, Init(t), es, addr);
      DirectHasNoCycle(t, After(t, NoManual, Init(t), es), addr, r);
    }
  }

  lemma LinkBeyondCanLoop(t: Topology, addr: uint32, p: Port, q: Port)
    requires ValidTopology(t) && p in t.link && q in t.link && p.host == q.host && !Owns(t.hosts[p.host], addr)
    requires Owns(t.hosts[t.link[p].host], addr) && !Owns(t.hosts[t.link[q].host], addr)
    ensures CanLoop(t, addr)
  {
    var es := LoopIsReached(t, addr, p, q);
    PointingIsCycle(t, After(t, NoManual, Init(t), es), addr, t.link[q]);
  }

  lemma PointingIsCycle(t: Topology, s: State, addr: uint32, p: Port)
    requires p in t.link && PointAtEachOther(t, s, addr, p)
    ensures Safety.Cycle(t, s, addr, [p.host, t.link[p].host, p.host])
  {
  }

  /**
   The code as it is, without manual routes, is free of routing loops for an address on every run if and only if no
   host next to an owner has a link to a host that does not own the address.
   */
  lemma LoopFreeIff(t: Topology, addr: uint32)
    requires ValidTopology(t)
    ensures !CanLoop(t, addr) <==> OneLinkFloods(t, addr)
  {
    if OneLinkFloods(t, addr) {
      OneLinkFloodsCannotLoop(t, addr);
    } else {
      var q :| q in t.link && NextToOwner(t, addr, q.host) && !Owns(t.hosts[t.link[q].host], addr);
      var p :| p in t.link && p.host == q.host && Owns(t.hosts[t.link[p].host], addr);
      LinkBeyondCanLoop(t, addr, p, q);
    }
  }

  lemma LineCanLoop()
    ensures ValidTopology(Line()) && CanLoop(Line(), 0)
  {
    var t := Line();
    LineIsValid();
    assert t.hosts[0][0].ip == 0;
    LinkBeyondCanLoop(t, 0, Port(1, 0), Port(1, 1));
  }
}
