/** The flood as a whole: it comes to an end, and where it has ended the tables are shortest paths. */
module FloodSettles {
  import opened Bytes
  import opened Channels
  import opened Routes
  import opened Flood
  import opened FloodSafety
  import opened FloodShortest
  import opened FloodTermination

  /** No host starts a new flood, nothing is duplicated, and nothing but wrapped announcements is lost. */
  predicate Settling(s: State, e: Event) {
    UnwrappedNoLoss(s, e) && DyingOut(s, e)
  }

  predicate OwnersHaveAnnounced(t: Topology, s: State, addr: uint32) {
    forall h :: 0 <= h < |t.hosts| && Owns(t.hosts[h], addr) ==> h in s.started
  }

  /** No announcement that has not wrapped can be delivered any more. */
  predicate NothingToDeliver(t: Topology, s: State) {
    forall i :: 0 <= i < |s.net| && s.net[i].ttl <= FLOOD_TTL ==> !Enabled(t, s, Deliver(i))
  }

  lemma {:induction false} SettlingStartsNothing(t: Topology, s: State, es: seq<Event>)
    requires Runs(t, Settling, s, es)
    ensures After(t, Settling, s, es).started == s.started
    decreases |es|
  {
    if es != [] {
      SettlingStartsNothing(t, Apply(t, s, es[0]), es[1..]);
    }
  }

  /** In a reachable state an announcement can always be delivered, so that none are left. */
  lemma NothingLeft(t: Topology, s: State, addr: uint32)
    requires FloodSafety.Inv(t, s) && NothingToDeliver(t, s) && OwnersHaveAnnounced(t, s, addr)
    ensures Drained(t, s, addr)
  {
    forall a | a in s.net && a.ttl <= FLOOD_TTL
      ensures false
    {
      var i: nat :| i < |s.net| && s.net[i] == a;
      assert Enabled(t, s, Deliver(i));
    }
  }

  /**
   Once every owner of the address has announced itself, a lossless flood without copies on a network of at most `d`
   devices a host processes a bounded number of announcements, and where it can process no more every entry for the
   address measures the distance and points along a shortest path.
   */
  lemma FloodSettles(t: Topology, d: nat, before: seq<Event>, after: seq<Event>, addr: uint32)
    requires ValidTopology(t) && AtMostDevices(t, d) && Runs(t, UnwrappedNoLoss, Init(t), before)
    requires OwnersHaveAnnounced(t, After(t, UnwrappedNoLoss, Init(t), before), addr)
    requires Runs(t, Settling, After(t, UnwrappedNoLoss, Init(t), before), after)
    ensures
      var s := After(t, UnwrappedNoLoss, Init(t), before);
      var s' := After(t, Settling, s, after);
      && |s'.tables| == |t.hosts|
      && Deliveries(after) <= Sum(Weigher(d), s.net)
      && (NothingToDeliver(t, s') ==>
            forall h: nat :: h < |t.hosts| && !Owns(t.hosts[h], addr) ==> Shortest(t, s', addr, h))
  {
    var s := After(t, UnwrappedNoLoss, Init(t), before);
    var s' := After(t, Settling, s, after);
    RunsKeepSpread(t, Init(t), before, addr);
    RunsWeaken(t, Settling, UnwrappedNoLoss, s, after);
    RunsKeepSpread(t, s, after, addr);
    RunsWeaken(t, Settling, DyingOut, s, after);
    FloodDiesOut(t, d, s, after);
    SettlingStartsNothing(t, s, after);
    if NothingToDeliver(t, s') {
      AllShortest(t, s', addr);
    }
  }

  lemma AllShortest(t: Topology, s: State, addr: uint32)
    requires FloodSafety.Inv(t, s) && SpreadInv(t, s, addr)
    requires NothingToDeliver(t, s) && OwnersHaveAnnounced(t, s, addr)
    ensures forall h: nat :: h < |t.hosts| && !Owns(t.hosts[h], addr) ==> Shortest(t, s, addr, h)
  {
    NothingLeft(t, s, addr);
    TablesGuide(t, s, addr);
    forall h: nat | h < |t.hosts| && !Owns(t.hosts[h], addr)
      ensures Shortest(t, s, addr, h)
    {
      DrainedIsShortest(t, s, addr, h);
    }
  }
}
