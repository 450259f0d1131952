/** A lossless flood finds shortest paths: what the tables hold once no announcement is left to deliver. */
module FloodShortest {
  import opened Bytes
  import opened Routes
  import opened Flood
  import opened FloodSafety

  /** Host `h` is at most `k` links away from an owner of `addr`. */
  ghost predicate Within(t: Topology, addr: uint32, h: nat, k: nat)
    decreases k, 0
  {
    if k == 0 then h < |t.hosts| && Owns(t.hosts[h], addr)
    else Within(t, addr, h, k - 1) || NeighbourWithin(t, addr, h, k - 1)
  }

  ghost predicate NeighbourWithin(t: Topology, addr: uint32, h: nat, k: nat)
    decreases k, 1
  {
    exists p :: p in t.link && p.host == h && Within(t, addr, t.link[p].host, k)
  }

  ghost predicate AtDistance(t: Topology, addr: uint32, h: nat, d: nat) {
    Within(t, addr, h, d) && (d > 0 ==> !Within(t, addr, h, d - 1))
  }

  lemma {:induction false} WithinIsMonotone(t: Topology, addr: uint32, h: nat, k: nat, k': nat)
    requires k <= k' && Within(t, addr, h, k)
    ensures Within(t, addr, h, k')
    decreases k'
  {
    if k < k' {
      WithinIsMonotone(t, addr, h, k, k' - 1);
    }
  }

  ghost predicate Linked(t: Topology, h: nat, nb: nat) {
    exists p :: p in t.link && p.host == h && t.link[p].host == nb
  }

  lemma LinkExtends(t: Topology, addr: uint32, h: nat, nb: nat, k: nat)
    requires Linked(t, h, nb)
    ensures Within(t, addr, nb, k) ==> Within(t, addr, h, k + 1)
  {
    assert Within(t, addr, nb, k) ==> NeighbourWithin(t, addr, h, k);
  }

  /** The entry of `h` points over a link to an owner, with ttl 8, or to a host with a larger entry. */
  ghost predicate GuidesAt(t: Topology, s: State, addr: uint32, h: nat)
    requires |s.tables| == |t.hosts| && h < |t.hosts| && Key(addr) in s.tables[h]
  {
    var ttl, nb := s.tables[h][Key(addr)].ttl, Next(t, s, addr, h);
    && 0 <= ttl <= FLOOD_TTL && !Owns(t.hosts[h], addr)
    && nb < |t.hosts| && Linked(t, h, nb)
    && (if Owns(t.hosts[nb], addr) then ttl == FLOOD_TTL
        else Key(addr) in s.tables[nb] && s.tables[nb][Key(addr)].ttl > ttl)
  }

  ghost predicate Guides(t: Topology, s: State, addr: uint32) {
    && |s.tables| == |t.hosts|
    && forall h: nat :: h < |t.hosts| && Key(addr) in s.tables[h] ==> GuidesAt(t, s, addr, h)
  }

  lemma TablesGuide(t: Topology, s: State, addr: uint32)
    requires Inv(t, s)
    ensures Guides(t, s, addr)
  {
    forall h: nat | h < |t.hosts| && Key(addr) in s.tables[h]
      ensures GuidesAt(t, s, addr, h)
    {
      NextHopIsCloser(t, s, addr, h);
      assert Port(h, s.tables[h][Key(addr)].dev) in t.link;
    }
  }

  /** Soundness: an entry with ttl t belongs to a host at most 9 - t links away. */
  lemma {:induction false} EntryIsWithin(t: Topology, s: State, addr: uint32, h: nat)
    requires Guides(t, s, addr) && h < |t.hosts| && Key(addr) in s.tables[h]
    ensures 0 <= s.tables[h][Key(addr)].ttl <= FLOOD_TTL
    ensures Within(t, addr, h, FLOOD_TTL + 1 - s.tables[h][Key(addr)].ttl)
    decreases FLOOD_TTL + 1 - s.tables[h][Key(addr)].ttl
  {
    assert GuidesAt(t, s, addr, h);
    var ttl, nb := s.tables[h][Key(addr)].ttl, Next(t, s, addr, h);
    if Owns(t.hosts[nb], addr) {
      assert Within(t, addr, nb, 0);
    } else {
      assert GuidesAt(t, s, addr, nb);
      EntryIsWithin(t, s, addr, nb);
      WithinIsMonotone(t, addr, nb, FLOOD_TTL + 1 - s.tables[nb][Key(addr)].ttl, FLOOD_TTL - ttl);
    }
    LinkExtends(t, addr, h, nb, FLOOD_TTL - ttl);
  }

  // ---- completeness ----

  /** The host behind port `q` knows `addr` at least as well as `ttl`, or is about to be told. */
  ghost predicate Told(t: Topology, s: State, addr: uint32, ttl: int, q: Port)
    requires q.host < |t.hosts| && |s.tables| == |t.hosts|
  {
    || Owns(t.hosts[q.host], addr)
    || (Key(addr) in s.tables[q.host] && s.tables[q.host][Key(addr)].ttl >= ttl)
    || (exists a :: a in s.net && a.addr == addr && a.at == q && ttl <= a.ttl <= FLOOD_TTL)
  }

  ghost predicate OwnerPassedOn(t: Topology, s: State, addr: uint32, p: Port)
    requires ValidTopology(t) && |s.tables| == |t.hosts| && p in t.link
  {
    p.host in s.started && Owns(t.hosts[p.host], addr) ==> Told(t, s, addr, FLOOD_TTL, t.link[p])
  }

  ghost predicate EntryPassedOn(t: Topology, s: State, addr: uint32, p: Port)
    requires ValidTopology(t) && |s.tables| == |t.hosts| && p in t.link
  {
    Key(addr) in s.tables[p.host] && s.tables[p.host][Key(addr)].ttl >= 1 ==>
      Told(t, s, addr, s.tables[p.host][Key(addr)].ttl - 1, t.link[p])
  }

  /** What host `p.host` knows about `addr` it has passed on over the link at port `p`. */
  ghost predicate PassedOn(t: Topology, s: State, addr: uint32, p: Port)
    requires ValidTopology(t) && |s.tables| == |t.hosts| && p in t.link
  {
    OwnerPassedOn(t, s, addr, p) && EntryPassedOn(t, s, addr, p)
  }

  ghost predicate SpreadInv(t: Topology, s: State, addr: uint32)
    requires ValidTopology(t) && |s.tables| == |t.hosts|
  {
    forall p :: p in t.link ==> PassedOn(t, s, addr, p)
  }

  /** What a delivery takes from the network it leaves in the table. */
  lemma DeliverKeepsTold(t: Topology, s: State, i: nat, addr: uint32, ttl: int, q: Port)
    requires Inv(t, s) && Enabled(t, s, Deliver(i)) && s.net[i].ttl <= FLOOD_TTL
    requires q.host < |t.hosts| && Told(t, s, addr, ttl, q)
    ensures Told(t, Apply(t, s, Deliver(i)), addr, ttl, q)
  {
    var s' := Apply(t, s, Deliver(i));
    DeliverImproves(t, s, i);
    assert Improves(s.tables[q.host], s'.tables[q.host]);
    if a :| a in s.net && a.addr == addr && a.at == q && ttl <= a.ttl <= FLOOD_TTL {
      if a != s.net[i] {
        assert a in s'.net;
      }
    }
  }

  /** An entry that a delivery changes has just been relayed over every link. */
  lemma ChangedEntryIsPassedOn(t: Topology, s: State, i: nat, addr: uint32, p: Port)
    requires ValidTopology(t) && |s.tables| == |t.hosts| && p in t.link
    requires Enabled(t, s, Deliver(i)) && 1 <= s.net[i].ttl <= FLOOD_TTL
    requires s.net[i].at.host == p.host && s.net[i].addr == addr && !Owns(t.hosts[p.host], addr)
    ensures Told(t, Apply(t, s, Deliver(i)), addr, s.net[i].ttl - 1, t.link[p])
  {
    var a := s.net[i];
    assert p == Port(p.host, p.dev) && WireTtl(a.ttl - 1) == a.ttl - 1;
    assert Ann(addr, a.ttl - 1, t.link[p]) in Broadcast(t, p.host, addr, a.ttl - 1);
    assert Ann(addr, a.ttl - 1, t.link[p]) in Apply(t, s, Deliver(i)).net;
  }

  lemma ChangedEntryIsAnnounced(t: Topology, s: State, i: nat, addr: uint32, h: nat)
    requires |s.tables| == |t.hosts| && h < |t.hosts| && Enabled(t, s, Deliver(i))
    requires Key(addr) in Apply(t, s, Deliver(i)).tables[h]
    requires Key(addr) in s.tables[h] ==> s.tables[h][Key(addr)] != Apply(t, s, Deliver(i)).tables[h][Key(addr)]
    ensures s.net[i].at.host == h && s.net[i].addr == addr && !Owns(t.hosts[h], addr)
    ensures Apply(t, s, Deliver(i)).tables[h][Key(addr)].ttl == s.net[i].ttl
  {
  }

  lemma DeliverKeepsEntryPassedOn(t: Topology, s: State, i: nat, addr: uint32, p: Port)
    requires Inv(t, s) && Enabled(t, s, Deliver(i)) && s.net[i].ttl <= FLOOD_TTL
    requires p in t.link && EntryPassedOn(t, s, addr, p)
    ensures EntryPassedOn(t, Apply(t, s, Deliver(i)), addr, p)
  {
    var s' := Apply(t, s, Deliver(i));
    if Key(addr) in s'.tables[p.host] && s'.tables[p.host][Key(addr)].ttl >= 1 {
      var ttl := s'.tables[p.host][Key(addr)].ttl;
      if Key(addr) in s.tables[p.host] && s.tables[p.host][Key(addr)].ttl == ttl {
        DeliverKeepsTold(t, s, i, addr, ttl - 1, t.link[p]);
      } else {
        ChangedEntryIsAnnounced(t, s, i, addr, p.host);
        ChangedEntryIsPassedOn(t, s, i, addr, p);
      }
    }
  }

  lemma DeliverKeepsSpread(t: Topology, s: State, i: nat, addr: uint32, p: Port)
    requires Inv(t, s) && Enabled(t, s, Deliver(i)) && s.net[i].ttl <= FLOOD_TTL
    requires SpreadInv(t, s, addr) && p in t.link
    ensures PassedOn(t, Apply(t, s, Deliver(i)), addr, p)
  {
    assert PassedOn(t, s, addr, p);
    DeliverKeepsEntryPassedOn(t, s, i, addr, p);
    if p.host in s.started && Owns(t.hosts[p.host], addr) {
      DeliverKeepsTold(t, s, i, addr, FLOOD_TTL, t.link[p]);
    }
  }

  lemma ToldStays(t: Topology, s: State, s': State, addr: uint32, ttl: int, q: Port)
    requires |s.tables| == |t.hosts| && s'.tables == s.tables && q.host < |t.hosts|
    requires forall a :: a in s.net && a.ttl <= FLOOD_TTL ==> a in s'.net
    requires Told(t, s, addr, ttl, q)
    ensures Told(t, s', addr, ttl, q)
  {
  }

  lemma AnnouncedOnLink(t: Topology, addr: uint32, p: Port)
    requires ValidTopology(t) && p in t.link && Owns(t.hosts[p.host], addr)
    ensures Ann(addr, FLOOD_TTL, t.link[p]) in AnnounceUpTo(t, p.host, |t.hosts[p.host]|)
  {
    var k :| 0 <= k < |t.hosts[p.host]| && t.hosts[p.host][k].ip == addr;
    assert p == Port(p.host, p.dev) && p.dev < |t.hosts[p.host]|;
    assert Ann(t.hosts[p.host][k].ip, FLOOD_TTL, t.link[Port(p.host, p.dev)]) in AnnounceUpTo(t, p.host, |t.hosts[p.host]|);
  }

  lemma AnnounceKeepsSpread(t: Topology, s: State, h: nat, addr: uint32, p: Port)
    requires Inv(t, s) && Enabled(t, s, Announce(h)) && SpreadInv(t, s, addr) && p in t.link
    ensures PassedOn(t, Apply(t, s, Announce(h)), addr, p)
  {
    var s' := Apply(t, s, Announce(h));
    assert PassedOn(t, s, addr, p);
    if p.host == h && Owns(t.hosts[h], addr) {
      AnnouncedOnLink(t, addr, p);
      assert Ann(addr, FLOOD_TTL, t.link[p]) in s'.net;
    } else if p.host in s.started && Owns(t.hosts[p.host], addr) {
      ToldStays(t, s, s', addr, FLOOD_TTL, t.link[p]);
    }
    if Key(addr) in s.tables[p.host] && s.tables[p.host][Key(addr)].ttl >= 1 {
      ToldStays(t, s, s', addr, s.tables[p.host][Key(addr)].ttl - 1, t.link[p]);
    }
  }

  lemma QuietKeepsSpread(t: Topology, s: State, e: Event, addr: uint32, p: Port)
    requires Inv(t, s) && Enabled(t, s, e) && UnwrappedNoLoss(s, e) && (e.Drop? || e.Duplicate?)
    requires SpreadInv(t, s, addr) && p in t.link
    ensures PassedOn(t, Apply(t, s, e), addr, p)
  {
    var s' := Apply(t, s, e);
    assert PassedOn(t, s, addr, p);
    if p.host in s.started && Owns(t.hosts[p.host], addr) {
      ToldStays(t, s, s', addr, FLOOD_TTL, t.link[p]);
    }
    if Key(addr) in s.tables[p.host] && s.tables[p.host][Key(addr)].ttl >= 1 {
      ToldStays(t, s, s', addr, s.tables[p.host][Key(addr)].ttl - 1, t.link[p]);
    }
  }

  lemma StepKeepsSpread(t: Topology, s: State, e: Event, addr: uint32)
    requires Inv(t, s) && Enabled(t, s, e) && UnwrappedNoLoss(s, e) && SpreadInv(t, s, addr)
    ensures Inv(t, Apply(t, s, e)) && SpreadInv(t, Apply(t, s, e), addr)
  {
    StepKeepsInv(t, s, e);
    forall p | p in t.link
      ensures PassedOn(t, Apply(t, s, e), addr, p)
    {
      match e
      case Announce(h) => AnnounceKeepsSpread(t, s, h, addr, p);
      case Deliver(i) => DeliverKeepsSpread(t, s, i, addr, p);
      case Drop(_) => QuietKeepsSpread(t, s, e, addr, p);
      case Duplicate(_) => QuietKeepsSpread(t, s, e, addr, p);
      case Manual(_, _, _, _) =>
      case Overhear(_) =>
    }
  }

  lemma {:induction false} RunsKeepSpread(t: Topology, s: State, es: seq<Event>, addr: uint32)
    requires Inv(t, s) && SpreadInv(t, s, addr) && Runs(t, UnwrappedNoLoss, s, es)
    ensures
      var s' := After(t, UnwrappedNoLoss, s, es);
      Inv(t, s') && SpreadInv(t, s', addr)
    decreases |es|
  {
    if es != [] {
      StepKeepsSpread(t, s, es[0], addr);
      RunsKeepSpread(t, Apply(t, s, es[0]), es[1..], addr);
    }
  }

  /** No announcement of `addr` is left to deliver, and every owner has announced itself. */
  ghost predicate Drained(t: Topology, s: State, addr: uint32) {
    && (forall a :: a in s.net && a.addr == addr ==> a.ttl > FLOOD_TTL)
    && (forall h: nat :: h < |t.hosts| && Owns(t.hosts[h], addr) ==> h in s.started)
  }

  /** Once drained, what `p.host` knows has reached the other end of the link. */
  lemma NeighbourHasHeard(t: Topology, s: State, addr: uint32, p: Port)
    requires ValidTopology(t) && |s.tables| == |t.hosts| && p in t.link
    requires SpreadInv(t, s, addr) && Drained(t, s, addr) && !Owns(t.hosts[t.link[p].host], addr)
    ensures
      var h, nb := t.link[p].host, p.host;
      && (Owns(t.hosts[nb], addr) ==> Key(addr) in s.tables[h] && s.tables[h][Key(addr)].ttl >= FLOOD_TTL)
      && (Key(addr) in s.tables[nb] && s.tables[nb][Key(addr)].ttl >= 1 ==>
            Key(addr) in s.tables[h] && s.tables[h][Key(addr)].ttl >= s.tables[nb][Key(addr)].ttl - 1)
  {
    assert PassedOn(t, s, addr, p);
  }

  /** A host within d links that is no owner is within d - 1 links, or has a link to a host that is. */
  lemma OneLinkLess(t: Topology, addr: uint32, h: nat, d: nat) returns (already: bool, q: Port)
    requires ValidTopology(t) && h < |t.hosts| && Within(t, addr, h, d) && !Owns(t.hosts[h], addr)
    ensures d >= 1
    ensures already ==> Within(t, addr, h, d - 1)
    ensures !already ==> q in t.link && t.link[q].host == h && q.host < |t.hosts| && Within(t, addr, q.host, d - 1)
  {
    already, q := Within(t, addr, h, d - 1), Port(h, 0);
    if !already {
      assert NeighbourWithin(t, addr, h, d - 1);
      var p :| p in t.link && p.host == h && Within(t, addr, t.link[p].host, d - 1);
      q := t.link[p];
    }
  }

  lemma HeardFromNeighbour(t: Topology, s: State, addr: uint32, q: Port, d: nat)
    requires ValidTopology(t) && |s.tables| == |t.hosts| && q in t.link
    requires SpreadInv(t, s, addr) && Drained(t, s, addr) && !Owns(t.hosts[t.link[q].host], addr)
    requires 1 <= d <= FLOOD_TTL + 1
    requires Owns(t.hosts[q.host], addr) ||
             (d >= 2 && Key(addr) in s.tables[q.host] && s.tables[q.host][Key(addr)].ttl >= FLOOD_TTL + 2 - d)
    ensures
      var h := t.link[q].host;
      Key(addr) in s.tables[h] && s.tables[h][Key(addr)].ttl >= FLOOD_TTL + 1 - d
  {
    NeighbourHasHeard(t, s, addr, q);
  }

  /** Completeness: once drained, a host within d <= 9 links has an entry with ttl at least 9 - d. */
  lemma {:induction false} WithinHasEntry(t: Topology, s: State, addr: uint32, h: nat, d: nat)
    requires ValidTopology(t) && |s.tables| == |t.hosts| && SpreadInv(t, s, addr) && Drained(t, s, addr)
    requires h < |t.hosts| && !Owns(t.hosts[h], addr)
    requires d <= FLOOD_TTL + 1 && Within(t, addr, h, d)
    ensures d >= 1 && Key(addr) in s.tables[h] && s.tables[h][Key(addr)].ttl >= FLOOD_TTL + 1 - d
    decreases d
  {
    var already, q := OneLinkLess(t, addr, h, d);
    if already {
      WithinHasEntry(t, s, addr, h, d - 1);
    } else {
      if !Owns(t.hosts[q.host], addr) {
        WithinHasEntry(t, s, addr, q.host, d - 1);
      }
      HeardFromNeighbour(t, s, addr, q, d);
    }
  }

  lemma TtlIsBoundedByDistance(t: Topology, s: State, addr: uint32, h: nat, d: nat)
    requires Guides(t, s, addr) && h < |t.hosts| && Key(addr) in s.tables[h]
    requires d >= 1 && !Within(t, addr, h, d - 1)
    ensures s.tables[h][Key(addr)].ttl <= FLOOD_TTL + 1 - d
  {
    EntryIsWithin(t, s, addr, h);
    var k := FLOOD_TTL + 1 - s.tables[h][Key(addr)].ttl;
    if k <= d - 1 {
      WithinIsMonotone(t, addr, h, k, d - 1);
    }
  }

  /** The two bounds meet: at distance d the ttl is 9 - d, and the next hop is at distance d - 1. */
  lemma EntryIsExact(t: Topology, s: State, addr: uint32, h: nat, d: nat)
    requires ValidTopology(t) && Guides(t, s, addr) && SpreadInv(t, s, addr) && Drained(t, s, addr)
    requires h < |t.hosts| && !Owns(t.hosts[h], addr)
    requires d <= FLOOD_TTL + 1 && AtDistance(t, addr, h, d)
    ensures d >= 1 && Key(addr) in s.tables[h] && s.tables[h][Key(addr)].ttl == FLOOD_TTL + 1 - d
    ensures AtDistance(t, addr, Next(t, s, addr, h), d - 1)
  {
    WithinHasEntry(t, s, addr, h, d);
    TtlIsBoundedByDistance(t, s, addr, h, d);
    NextHopIsOneCloser(t, s, addr, h, d);
  }

  lemma NextHopIsNoCloser(t: Topology, s: State, addr: uint32, h: nat, d: nat)
    requires Guides(t, s, addr) && h < |t.hosts| && Key(addr) in s.tables[h]
    requires d >= 2 && !Within(t, addr, h, d - 1)
    ensures !Within(t, addr, Next(t, s, addr, h), d - 2)
  {
    assert GuidesAt(t, s, addr, h);
    LinkExtends(t, addr, h, Next(t, s, addr, h), d - 2);
  }

  lemma NextHopIsWithin(t: Topology, s: State, addr: uint32, h: nat, d: nat)
    requires Guides(t, s, addr) && h < |t.hosts| && Key(addr) in s.tables[h]
    requires d >= 1 && s.tables[h][Key(addr)].ttl == FLOOD_TTL + 1 - d
    ensures Within(t, addr, Next(t, s, addr, h), d - 1)
  {
    assert GuidesAt(t, s, addr, h);
    var nb := Next(t, s, addr, h);
    if Owns(t.hosts[nb], addr) {
      WithinIsMonotone(t, addr, nb, 0, d - 1);
    } else {
      EntryIsWithin(t, s, addr, nb);
      WithinIsMonotone(t, addr, nb, FLOOD_TTL + 1 - s.tables[nb][Key(addr)].ttl, d - 1);
    }
  }

  lemma NextHopIsOneCloser(t: Topology, s: State, addr: uint32, h: nat, d: nat)
    requires Guides(t, s, addr) && h < |t.hosts| && Key(addr) in s.tables[h]
    requires d >= 1 && AtDistance(t, addr, h, d) && s.tables[h][Key(addr)].ttl == FLOOD_TTL + 1 - d
    ensures AtDistance(t, addr, Next(t, s, addr, h), d - 1)
  {
    NextHopIsWithin(t, s, addr, h, d);
    if d >= 2 {
      NextHopIsNoCloser(t, s, addr, h, d);
    }
  }

  /** The entry a host has, if any, measures its distance and points along a shortest path. */
  ghost predicate Shortest(t: Topology, s: State, addr: uint32, h: nat)
    requires |s.tables| == |t.hosts| && h < |t.hosts|
  {
    && (Key(addr) in s.tables[h] <==> Within(t, addr, h, FLOOD_TTL + 1))
    && forall d: nat :: d <= FLOOD_TTL + 1 && AtDistance(t, addr, h, d) ==>
         && Key(addr) in s.tables[h] && s.tables[h][Key(addr)].ttl == FLOOD_TTL + 1 - d
         && d >= 1 && AtDistance(t, addr, Next(t, s, addr, h), d - 1)
  }

  lemma HasEntryIff(t: Topology, s: State, addr: uint32, h: nat)
    requires ValidTopology(t) && Guides(t, s, addr) && SpreadInv(t, s, addr) && Drained(t, s, addr)
    requires h < |t.hosts| && !Owns(t.hosts[h], addr)
    ensures Key(addr) in s.tables[h] <==> Within(t, addr, h, FLOOD_TTL + 1)
  {
    if Key(addr) in s.tables[h] {
      EntryIsWithin(t, s, addr, h);
      WithinIsMonotone(t, addr, h, FLOOD_TTL + 1 - s.tables[h][Key(addr)].ttl, FLOOD_TTL + 1);
    }
    if Within(t, addr, h, FLOOD_TTL + 1) {
      WithinHasEntry(t, s, addr, h, FLOOD_TTL + 1);
    }
  }

  lemma DrainedIsShortest(t: Topology, s: State, addr: uint32, h: nat)
    requires ValidTopology(t) && Guides(t, s, addr) && SpreadInv(t, s, addr) && Drained(t, s, addr)
    requires h < |t.hosts| && !Owns(t.hosts[h], addr)
    ensures Shortest(t, s, addr, h)
  {
    HasEntryIff(t, s, addr, h);
    forall d: nat | d <= FLOOD_TTL + 1 && AtDistance(t, addr, h, d)
      ensures Key(addr) in s.tables[h] && s.tables[h][Key(addr)].ttl == FLOOD_TTL + 1 - d
      ensures d >= 1 && AtDistance(t, addr, Next(t, s, addr, h), d - 1)
    {
      EntryIsExact(t, s, addr, h, d);
    }
  }

  /**
   When a lossless flood has drained, a host that does not own the address has an entry exactly when an owner is
   at most nine links away; at distance d its ttl is 9 - d, and its next hop is at distance d - 1.
   */
  lemma FloodFindsShortestPaths(t: Topology, es: seq<Event>, addr: uint32, h: nat)
    requires ValidTopology(t) && Runs(t, UnwrappedNoLoss, Init(t), es)
    requires Drained(t, After(t, UnwrappedNoLoss, Init(t), es), addr)
    requires h < |t.hosts| && !Owns(t.hosts[h], addr)
    ensures
      var s := After(t, UnwrappedNoLoss, Init(t), es);
      |s.tables| == |t.hosts| && Shortest(t, s, addr, h)
  {
    RunsKeepSpread(t, Init(t), es, addr);
    var s := After(t, UnwrappedNoLoss, Init(t), es);
    TablesGuide(t, s, addr);
    DrainedIsShortest(t, s, addr, h);
  }
}
