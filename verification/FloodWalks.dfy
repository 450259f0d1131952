/** What is true of the code exactly as written, with its 8-bit ttl wrapping around and with manual routes. */
module FloodWalks {
  import opened Bytes
  import opened Routes
  import opened Flood
  import Safety = FloodSafety

  /** There is a walk of `d` links from an owner of `addr` whose last link ends on port `p`. */
  ghost predicate Walk(t: Topology, addr: uint32, p: Port, d: nat)
    decreases d, 0
  {
    p in t.link && d >= 1 && WalkToHost(t, addr, t.link[p].host, d - 1)
  }

  ghost predicate WalkToHost(t: Topology, addr: uint32, h: nat, d: nat)
    decreases d, 1
  {
    if d == 0 then h < |t.hosts| && Owns(t.hosts[h], addr)
    else exists p :: p in t.link && p.host == h && Walk(t, addr, p, d)
  }

  /** A ttl that a walk of some length explains: t = 9 - d modulo 256. */
  ghost predicate Explained(t: Topology, addr: uint32, ttl: int, p: Port) {
    exists d: nat :: Walk(t, addr, p, d) && (ttl + d) % 256 == 9
  }

  ghost predicate EntryIsExplained(t: Topology, h: nat, key: RtKey, v: RtValue) {
    || v.ttl == 1024
    || (0 <= v.ttl <= 255 && key.mask == FULL_MASK && Explained(t, key.dest, v.ttl, Port(h, v.dev)))
  }

  ghost predicate Inv(t: Topology, s: State) {
    && ValidTopology(t) && |s.tables| == |t.hosts|
    && (forall a :: a in s.net ==> a.at in t.link && Explained(t, a.addr, a.ttl, a.at))
    && (forall h: nat, key :: h < |t.hosts| && key in s.tables[h] ==> EntryIsExplained(t, h, key, s.tables[h][key]))
  }

  lemma WireTtlCountsDown(ttl: uint8, d: nat)
    requires (ttl + d) % 256 == 9
    ensures (WireTtl(ttl - 1) + (d + 1)) % 256 == 9
  {
  }

  /** Relaying takes the walk one link further. */
  lemma RelayIsExplained(t: Topology, s: State, a: Ann, b: Ann)
    requires ValidTopology(t) && a.at in t.link && a.at.host < |s.tables|
    requires Explained(t, a.addr, a.ttl, a.at) && b in Receive(t, s, a).1
    ensures b.at in t.link && Explained(t, b.addr, b.ttl, b.at)
  {
    RelayedFrom(t, s, a, b);
    ExplainedExtends(t, a.addr, a.ttl, a.at, b.at);
  }

  lemma ExplainedExtends(t: Topology, addr: uint32, ttl: uint8, p: Port, q: Port)
    requires Explained(t, addr, ttl, p) && q in t.link && t.link[q].host == p.host
    ensures Explained(t, addr, WireTtl(ttl - 1), q)
  {
    var d: nat :| Walk(t, addr, p, d) && (ttl + d) % 256 == 9;
    WireTtlCountsDown(ttl, d);
    WalkExtends(t, addr, p, d, q);
  }

  lemma RelayedFrom(t: Topology, s: State, a: Ann, b: Ann)
    requires ValidTopology(t) && a.at in t.link && a.at.host < |s.tables| && b in Receive(t, s, a).1
    ensures b.at in t.link && t.link[b.at].host == a.at.host && b.addr == a.addr && b.ttl == WireTtl(a.ttl - 1)
  {
  }

  lemma WalkExtends(t: Topology, addr: uint32, p: Port, d: nat, q: Port)
    requires Walk(t, addr, p, d) && q in t.link && t.link[q].host == p.host
    ensures Walk(t, addr, q, d + 1)
  {
    assert WalkToHost(t, addr, p.host, d);
  }

  lemma OwnAnnouncementIsExplained(t: Topology, a: Ann)
    requires ValidTopology(t) && a.at in t.link && a.ttl == FLOOD_TTL && Owns(t.hosts[t.link[a.at].host], a.addr)
    ensures Explained(t, a.addr, a.ttl, a.at)
  {
    assert Walk(t, a.addr, a.at, 1);
  }

  lemma NetStaysExplained(t: Topology, s: State, e: Event, b: Ann)
    requires Inv(t, s) && Enabled(t, s, e) && b in Apply(t, s, e).net
    ensures b.at in t.link && Explained(t, b.addr, b.ttl, b.at)
  {
    if b !in s.net {
      match e
      case Announce(h) => OwnAnnouncementIsExplained(t, b);
      case Deliver(i) => RelayIsExplained(t, s, s.net[i], b);
      case _ =>
    }
  }

  lemma EntryStaysExplained(t: Topology, s: State, e: Event, h: nat, key: RtKey)
    requires Inv(t, s) && Enabled(t, s, e) && h < |t.hosts| && key in Apply(t, s, e).tables[h]
    ensures EntryIsExplained(t, h, key, Apply(t, s, e).tables[h][key])
  {
    var s' := Apply(t, s, e);
    if key in s.tables[h] && s'.tables[h][key] == s.tables[h][key] {
      assert EntryIsExplained(t, h, key, s.tables[h][key]);
    } else if e.Deliver? {
      var a := s.net[e.i];
      assert a in s.net;
      Safety.ChangedEntry(t, s, e.i, h, key);
      assert a.at == Port(h, a.at.dev);
    }
  }

  lemma StepKeepsInv(t: Topology, s: State, e: Event)
    requires Inv(t, s) && Enabled(t, s, e)
    ensures Inv(t, Apply(t, s, e))
  {
    var s' := Apply(t, s, e);
    forall b | b in s'.net
      ensures b.at in t.link && Explained(t, b.addr, b.ttl, b.at)
    {
      NetStaysExplained(t, s, e, b);
    }
    forall h: nat, key | h < |t.hosts| && key in s'.tables[h]
      ensures EntryIsExplained(t, h, key, s'.tables[h][key])
    {
      EntryStaysExplained(t, s, e, h, key);
    }
  }

  lemma {:induction false} RunsKeepInv(t: Topology, s: State, es: seq<Event>)
    requires Inv(t, s) && Runs(t, Unrestricted, s, es)
    ensures Inv(t, After(t, Unrestricted, s, es))
    decreases |es|
  {
    if es != [] {
      StepKeepsInv(t, s, es[0]);
      RunsKeepInv(t, Apply(t, s, es[0]), es[1..]);
    }
  }

  /**
   In every reachable state of the unrestricted protocol, an entry is manual or there is a walk of some length d
   from an owner that arrives on the recorded device, with ttl = 9 - d modulo 256.
   */
  lemma EntriesComeFromWalks(t: Topology, es: seq<Event>, h: nat, key: RtKey)
    requires ValidTopology(t) && Runs(t, Unrestricted, Init(t), es) && h < |t.hosts|
    ensures
      var s := After(t, Unrestricted, Init(t), es);
      && |s.tables| == |t.hosts|
      && (key in s.tables[h] ==> EntryIsExplained(t, h, key, s.tables[h][key]))
  {
    RunsKeepInv(t, Init(t), es);
  }

  /** No announcement displaces a manual route: only another manual route for the same key does. */
  lemma {:induction false} ManualRoutesStay(t: Topology, s: State, es: seq<Event>, h: nat, key: RtKey)
    requires Runs(t, Unrestricted, s, es) && h < |s.tables|
    requires key in s.tables[h] && s.tables[h][key].ttl == 1024
    requires forall e :: e in es && e.Manual? ==> e.h != h || e.key != key
    ensures
      var s' := After(t, Unrestricted, s, es);
      h < |s'.tables| && key in s'.tables[h] && s'.tables[h][key] == s.tables[h][key]
    decreases |es|
  {
    if es != [] {
      assert es[0] in es;
      ManualRoutesStay(t, Apply(t, s, es[0]), es[1..], h, key);
    }
  }
}
