/**
 The myArp flooding protocol on a network of hosts joined by point-to-point links: each host keeps a route table
 and handles announcements by `RecvAnnouncement`, and announcements are in flight on the links.
 */
module Flood {
  import opened Bytes
  import opened Channels
  import opened Routes

  datatype Port = Port(host: nat, dev: nat)

  /** `link` joins the two ends of every link; a device that is not in it is not attached. */
  datatype Topology = Topology(hosts: seq<seq<Device>>, link: map<Port, Port>)

  predicate ValidPort(t: Topology, p: Port) {
    p.host < |t.hosts| && p.dev < |t.hosts[p.host]|
  }

  function DeviceAt(t: Topology, p: Port): Device
    requires ValidPort(t, p)
  {
    t.hosts[p.host][p.dev]
  }

  /** The two ends of a link know each other and have different hardware addresses; a host's devices have unique names. */
  ghost predicate ValidTopology(t: Topology) {
    && (forall p :: p in t.link ==>
          && ValidPort(t, p) && t.link[p] in t.link && t.link[t.link[p]] == p && ValidPort(t, t.link[p])
          && DeviceAt(t, p).mac != DeviceAt(t, t.link[p]).mac)
    && (forall p :: ValidPort(t, p) ==> DeviceAt(t, p).ip != BROADCAST)
    && (forall h :: 0 <= h < |t.hosts| ==> UniqueNames(t.hosts[h]))
  }

  /** An announcement of `addr` about to arrive at the port `at`. */
  datatype Ann = Ann(addr: uint32, ttl: uint8, at: Port)

  /** `started` records the hosts that have run `sendArp`. */
  datatype State = State(tables: seq<Table>, net: seq<Ann>, started: set<nat>)

  /** `Overhear`: the host that sent announcement `i` captures it on the device it went out on. */
  datatype Event =
    | Announce(h: nat)
    | Deliver(i: nat)
    | Drop(i: nat)
    | Duplicate(i: nat)
    | Manual(h: nat, key: RtKey, dev: nat, mac: Mac)
    | Overhear(i: nat)

  function Key(addr: uint32): RtKey {
    RtKey(addr, FULL_MASK)
  }

  function Init(t: Topology): State {
    State(seq(|t.hosts|, _ => map[]), [], {})
  }

  /** One announcement on each of the host's first `n` devices that is attached. */
  function OnDevices(t: Topology, h: nat, addr: uint32, ttl: uint8, n: nat): (r: seq<Ann>)
    ensures |r| <= n
    ensures forall d: nat :: d < n && Port(h, d) in t.link ==> Ann(addr, ttl, t.link[Port(h, d)]) in r
    ensures forall a :: a in r ==> a.addr == addr && a.ttl == ttl
    ensures ValidTopology(t) ==> forall a :: a in r ==> a.at in t.link && t.link[a.at].host == h
  {
    if n == 0 then []
    else
      OnDevices(t, h, addr, ttl, n - 1) +
      if Port(h, n - 1) in t.link then [Ann(addr, ttl, t.link[Port(h, n - 1)])] else []
  }

  /** `sendArpBroadCast`, as the announcements it puts on the links. */
  function Broadcast(t: Topology, h: nat, addr: uint32, ttl: uint8): seq<Ann>
    requires h < |t.hosts|
  {
    OnDevices(t, h, addr, ttl, |t.hosts[h]|)
  }

  /** `sendArp`: the addresses of the first `n` devices, each on every device. */
  function AnnounceUpTo(t: Topology, h: nat, n: nat): (r: seq<Ann>)
    requires h < |t.hosts| && n <= |t.hosts[h]|
    ensures forall i: nat, d: nat :: i < n && d < |t.hosts[h]| && Port(h, d) in t.link ==>
              Ann(t.hosts[h][i].ip, FLOOD_TTL, t.link[Port(h, d)]) in r
    ensures forall a :: a in r ==> a.ttl == FLOOD_TTL && Owns(t.hosts[h], a.addr)
    ensures ValidTopology(t) ==> forall a :: a in r ==> a.at in t.link && t.link[a.at].host == h
  {
    if n == 0 then [] else AnnounceUpTo(t, h, n - 1) + Broadcast(t, h, t.hosts[h][n - 1].ip, FLOOD_TTL)
  }

  predicate Enabled(t: Topology, s: State, e: Event) {
    match e
    case Announce(h) => h < |t.hosts|
    case Deliver(i) =>
      && i < |s.net| && s.net[i].at in t.link && ValidPort(t, s.net[i].at) && ValidPort(t, t.link[s.net[i].at])
      && s.net[i].at.host < |s.tables|
    case Drop(i) => i < |s.net|
    case Duplicate(i) => i < |s.net|
    case Manual(h, _, _, _) => h < |s.tables|
    case Overhear(i) =>
      i < |s.net| && s.net[i].at in t.link && ValidPort(t, t.link[s.net[i].at]) && t.link[s.net[i].at].host < |s.tables|
  }

  /** What the host at `p` does with announcement `a`, come from the hardware address `mac`: its new table and relays. */
  function Handle(t: Topology, s: State, a: Ann, p: Port, mac: Mac): (Table, seq<Ann>)
    requires ValidPort(t, p) && p.host < |s.tables|
  {
    var (table, relay) := RecvAnnouncement(t.hosts[p.host], s.tables[p.host], a.addr, FULL_MASK, p.dev, mac, a.ttl);
    (table, if relay then Broadcast(t, p.host, a.addr, WireTtl(a.ttl - 1)) else [])
  }

  function Receive(t: Topology, s: State, a: Ann): (Table, seq<Ann>)
    requires a.at in t.link && ValidPort(t, a.at) && ValidPort(t, t.link[a.at]) && a.at.host < |s.tables|
  {
    Handle(t, s, a, a.at, DeviceAt(t, t.link[a.at]).mac)
  }

  /** What a copy of announcement `a` does to the host at `p`, depending on what `recvFrame` takes it for. */
  function Heard(t: Topology, s: State, a: Ann, p: Port, mac: Mac, what: Dispatch): State
    requires ValidPort(t, p) && p.host < |s.tables|
  {
    if what == Announcement then
      var (table, out) := Handle(t, s, a, p, mac);
      s.(tables := s.tables[p.host := table], net := s.net + out)
    else s
  }

  function Apply(t: Topology, s: State, e: Event): State
    requires Enabled(t, s, e)
  {
    match e
    case Announce(h) => s.(net := s.net + AnnounceUpTo(t, h, |t.hosts[h]|), started := s.started + {h})
    case Deliver(i) =>
      var a := s.net[i];
      var (table, out) := Receive(t, s, a);
      s.(tables := s.tables[a.at.host := table], net := Without(s.net, i) + out)
    case Drop(i) => s.(net := Without(s.net, i))
    case Duplicate(i) => s.(net := s.net + [s.net[i]])
    case Manual(h, key, dev, mac) => s.(tables := s.tables[h := s.tables[h][key := RtValue(dev, mac, MANUAL_TTL)]])
    case Overhear(i) =>
      var p := t.link[s.net[i].at];
      var mac := DeviceAt(t, p).mac;
      Heard(t, s, s.net[i], p, mac, Classify(DeviceAt(t, p), mac, BROADCAST, L3_MYARP))
  }

  /** A host that captures an announcement it has just sent, on the device it went out on, does nothing. */
  lemma OverhearingChangesNothing(t: Topology, s: State, i: nat)
    requires Enabled(t, s, Overhear(i))
    ensures Apply(t, s, Overhear(i)) == s
  {
  }

  /** On a valid topology `recvFrame` treats every announcement that arrives over a link as one. */
  lemma AnnouncementsAreRecognised(t: Topology, p: Port)
    requires ValidTopology(t) && p in t.link
    ensures Classify(DeviceAt(t, p), DeviceAt(t, t.link[p]).mac, BROADCAST, L3_MYARP) == Announcement
  {
    assert ValidPort(t, p);
  }

  predicate Runs(t: Topology, ok: (State, Event) -> bool, s: State, es: seq<Event>)
    decreases |es|
  {
    es == [] || (Enabled(t, s, es[0]) && ok(s, es[0]) && Runs(t, ok, Apply(t, s, es[0]), es[1..]))
  }

  function After(t: Topology, ok: (State, Event) -> bool, s: State, es: seq<Event>): State
    requires Runs(t, ok, s, es)
    decreases |es|
  {
    if es == [] then s else After(t, ok, Apply(t, s, es[0]), es[1..])
  }

  lemma RunsPrepend(t: Topology, ok: (State, Event) -> bool, s: State, e: Event, es: seq<Event>)
    requires Enabled(t, s, e) && ok(s, e) && Runs(t, ok, Apply(t, s, e), es)
    ensures Runs(t, ok, s, [e] + es)
    ensures After(t, ok, s, [e] + es) == After(t, ok, Apply(t, s, e), es)
  {
    assert ([e] + es)[1..] == es;
  }

  lemma {:induction false} RunsWeaken(t: Topology, ok: (State, Event) -> bool, ok': (State, Event) -> bool, s: State,
                                      es: seq<Event>)
    requires Runs(t, ok, s, es) && forall s', e :: ok(s', e) ==> ok'(s', e)
    ensures Runs(t, ok', s, es) && After(t, ok', s, es) == After(t, ok, s, es)
    decreases |es|
  {
    if es != [] {
      RunsWeaken(t, ok, ok', Apply(t, s, es[0]), es[1..]);
    }
  }

  /** An owner that announces itself first sends its address with ttl 8 over each of its links. */
  lemma OwnerAnnounces(t: Topology, addr: uint32, p: Port) returns (i: nat)
    requires ValidTopology(t) && p in t.link && Owns(t.hosts[t.link[p].host], addr)
    ensures
      var s1 := Apply(t, Init(t), Announce(t.link[p].host));
      i < |s1.net| && s1.net[i] == Ann(addr, FLOOD_TTL, p)
  {
    var o := t.link[p];
    var s1 := Apply(t, Init(t), Announce(o.host));
    assert o == Port(o.host, o.dev) && o in t.link && t.link[o] == p;
    var k :| 0 <= k < |t.hosts[o.host]| && t.hosts[o.host][k].ip == addr;
    assert Ann(t.hosts[o.host][k].ip, FLOOD_TTL, t.link[Port(o.host, o.dev)]) in s1.net;
    i :| i < |s1.net| && s1.net[i] == Ann(addr, FLOOD_TTL, p);
  }

  /** The code as it is: anything may happen. */
  predicate Unrestricted(s: State, e: Event) {
    true
  }

  /**
   No manual routes, and an announcement that has wrapped below ttl 0 is never delivered.  Announcements start
   with ttl 8, so this holds of every run in which the relays of an announcement with ttl 0 are all lost.
   */
  predicate Unwrapped(s: State, e: Event) {
    match e
    case Deliver(i) => i < |s.net| && s.net[i].ttl <= FLOOD_TTL
    case Manual(_, _, _, _) => false
    case _ => true
  }

  /** Moreover nothing else is lost. */
  predicate UnwrappedNoLoss(s: State, e: Event) {
    Unwrapped(s, e) && (e.Drop? ==> e.i < |s.net| && s.net[e.i].ttl > FLOOD_TTL)
  }

  // ---- the smallest example ----

  /** Device `d` of host `h`, with an address of its own. */
  function ExampleDevice(h: nat, d: nat): Device
    requires h < 10 && d < 2
  {
    var n: uint8 := 10 * h + d;
    Device(n, [n, n, n, n, n, n], if d == 0 then "eth0" else "eth1")
  }

  /** Three hosts in a row: the owner of address 0, a host next to it, and a host behind that one. */
  function Line(): Topology {
    Topology([[ExampleDevice(0, 0)], [ExampleDevice(1, 0), ExampleDevice(1, 1)], [ExampleDevice(2, 0)]],
             map[Port(0, 0) := Port(1, 0), Port(1, 0) := Port(0, 0), Port(1, 1) := Port(2, 0), Port(2, 0) := Port(1, 1)])
  }

  lemma LinePorts(p: Port)
    ensures p in Line().link <==> p in {Port(0, 0), Port(1, 0), Port(1, 1), Port(2, 0)}
    ensures ValidPort(Line(), p) <==> p in Line().link
    ensures p in Line().link ==> Line().link[p] in Line().link && Line().link[Line().link[p]] == p
  {
  }

  lemma LineDevices(p: Port)
    requires ValidPort(Line(), p)
    ensures DeviceAt(Line(), p).ip == DeviceAt(Line(), p).mac[0] == 10 * p.host + p.dev < 100
  {
  }

  lemma ExampleNames(h: nat)
    requires h < 10
    ensures UniqueNames([ExampleDevice(h, 0), ExampleDevice(h, 1)]) && UniqueNames([ExampleDevice(h, 0)])
  {
    assert "eth0"[3] != "eth1"[3];
  }

  lemma LineLinkIsValid(p: Port)
    requires p in Line().link
    ensures
      var t := Line();
      && ValidPort(t, p) && t.link[p] in t.link && t.link[t.link[p]] == p && ValidPort(t, t.link[p])
      && DeviceAt(t, p).mac != DeviceAt(t, t.link[p]).mac
  {
    LinePorts(p);
    LinePorts(Line().link[p]);
    LineDevices(p);
    LineDevices(Line().link[p]);
  }

  lemma LineIsValid()
    ensures ValidTopology(Line())
  {
    forall p | p in Line().link
      ensures
        var t := Line();
        && ValidPort(t, p) && t.link[p] in t.link && t.link[t.link[p]] == p && ValidPort(t, t.link[p])
        && DeviceAt(t, p).mac != DeviceAt(t, t.link[p]).mac
    {
      LineLinkIsValid(p);
    }
    forall p | ValidPort(Line(), p)
      ensures DeviceAt(Line(), p).ip != BROADCAST
    {
      LineDevices(p);
    }
    ExampleNames(0);
    ExampleNames(1);
    ExampleNames(2);
  }
}

/** Loop freedom: what a table entry says about the neighbour it points to. */
module FloodSafety {
  import opened Bytes
  import opened Routes
  import opened Flood

  /** The host may tell a neighbour `ttl`: it owns the address and ttl is 8, or its own entry is larger. */
  predicate Backs(t: Topology, tables: seq<Table>, addr: uint32, ttl: int, h: nat)
    requires h < |t.hosts| && |tables| == |t.hosts|
  {
    || (Owns(t.hosts[h], addr) && ttl == FLOOD_TTL)
    || (Key(addr) in tables[h] && tables[h][Key(addr)].ttl >= ttl + 1)
  }

  /** The port that an entry of `h` sends to. */
  function NextPort(t: Topology, h: nat, v: RtValue): Port
    requires Port(h, v.dev) in t.link
  {
    t.link[Port(h, v.dev)]
  }

  ghost predicate EntryInv(t: Topology, s: State, h: nat, key: RtKey)
    requires ValidTopology(t) && |s.tables| == |t.hosts| && h < |t.hosts| && key in s.tables[h]
  {
    var v := s.tables[h][key];
    && key.mask == FULL_MASK && !Owns(t.hosts[h], key.dest)
    && 0 <= v.ttl <= FLOOD_TTL
    && Port(h, v.dev) in t.link
    && v.mac == DeviceAt(t, NextPort(t, h, v)).mac
    && Backs(t, s.tables, key.dest, v.ttl, NextPort(t, h, v).host)
  }

  ghost predicate Inv(t: Topology, s: State) {
    && ValidTopology(t) && |s.tables| == |t.hosts|
    && (forall h: nat, key: RtKey :: h < |t.hosts| && key in s.tables[h] ==> EntryInv(t, s, h, key))
    && (forall a :: a in s.net ==> a.at in t.link)
    && (forall a :: a in s.net && a.ttl <= FLOOD_TTL ==> Backs(t, s.tables, a.addr, a.ttl, t.link[a.at].host))
  }

  /** Tables only improve: nothing that was backed stops being so. */
  predicate Improves(before: Table, after: Table) {
    forall key :: key in before ==> key in after && after[key].ttl >= before[key].ttl
  }

  predicate AllImprove(before: seq<Table>, after: seq<Table>) {
    |before| == |after| && forall h :: 0 <= h < |before| ==> Improves(before[h], after[h])
  }

  lemma BackedStaysBacked(t: Topology, before: seq<Table>, after: seq<Table>, addr: uint32, ttl: int, h: nat)
    requires h < |t.hosts| && |before| == |t.hosts| && AllImprove(before, after)
    requires Backs(t, before, addr, ttl, h)
    ensures Backs(t, after, addr, ttl, h)
  {
    assert Improves(before[h], after[h]);
  }

  lemma DeliverImproves(t: Topology, s: State, i: nat)
    requires |s.tables| == |t.hosts| && Enabled(t, s, Deliver(i))
    ensures AllImprove(s.tables, Apply(t, s, Deliver(i)).tables)
  {
  }

  lemma UnchangedEntryStays(t: Topology, s: State, s': State, h: nat, key: RtKey)
    requires ValidTopology(t) && |s.tables| == |t.hosts| && AllImprove(s.tables, s'.tables)
    requires h < |t.hosts| && key in s.tables[h] && EntryInv(t, s, h, key)
    requires key in s'.tables[h] && s'.tables[h][key] == s.tables[h][key]
    ensures EntryInv(t, s', h, key)
  {
    var v := s.tables[h][key];
    BackedStaysBacked(t, s.tables, s'.tables, key.dest, v.ttl, NextPort(t, h, v).host);
  }

  /** A delivery changes an entry only to what the announcement says. */
  lemma ChangedEntry(t: Topology, s: State, i: nat, h: nat, key: RtKey)
    requires |s.tables| == |t.hosts| && Enabled(t, s, Deliver(i))
    requires h < |t.hosts| && key in Apply(t, s, Deliver(i)).tables[h]
    requires key in s.tables[h] ==> s.tables[h][key] != Apply(t, s, Deliver(i)).tables[h][key]
    ensures
      var a := s.net[i];
      && h == a.at.host && key == Key(a.addr) && !Owns(t.hosts[h], a.addr)
      && Apply(t, s, Deliver(i)).tables[h][key] == RtValue(a.at.dev, DeviceAt(t, t.link[a.at]).mac, a.ttl)
  {
  }

  lemma ChangedEntryIsBacked(t: Topology, s: State, i: nat)
    requires Inv(t, s) && Enabled(t, s, Deliver(i)) && s.net[i].ttl <= FLOOD_TTL
    ensures
      var s' := Apply(t, s, Deliver(i));
      |s'.tables| == |t.hosts| && Backs(t, s'.tables, s.net[i].addr, s.net[i].ttl, t.link[s.net[i].at].host)
  {
    assert s.net[i] in s.net;
    DeliverImproves(t, s, i);
    BackedStaysBacked(t, s.tables, Apply(t, s, Deliver(i)).tables, s.net[i].addr, s.net[i].ttl, t.link[s.net[i].at].host);
  }

  lemma ChangedEntryIsValid(t: Topology, s': State, a: Ann)
    requires ValidTopology(t) && |s'.tables| == |t.hosts| && a.at in t.link && a.ttl <= FLOOD_TTL
    requires !Owns(t.hosts[a.at.host], a.addr) && Backs(t, s'.tables, a.addr, a.ttl, t.link[a.at].host)
    requires Key(a.addr) in s'.tables[a.at.host]
    requires s'.tables[a.at.host][Key(a.addr)] == RtValue(a.at.dev, DeviceAt(t, t.link[a.at]).mac, a.ttl)
    ensures EntryInv(t, s', a.at.host, Key(a.addr))
  {
    assert a.at == Port(a.at.host, a.at.dev);
  }

  lemma DeliverKeepsEntries(t: Topology, s: State, i: nat, h: nat, key: RtKey)
    requires Inv(t, s) && Enabled(t, s, Deliver(i)) && s.net[i].ttl <= FLOOD_TTL
    requires h < |t.hosts| && key in Apply(t, s, Deliver(i)).tables[h]
    ensures EntryInv(t, Apply(t, s, Deliver(i)), h, key)
  {
    var s' := Apply(t, s, Deliver(i));
    DeliverImproves(t, s, i);
    if key in s.tables[h] && s'.tables[h][key] == s.tables[h][key] {
      UnchangedEntryStays(t, s, s', h, key);
    } else {
      ChangedEntry(t, s, i, h, key);
      ChangedEntryIsBacked(t, s, i);
      ChangedEntryIsValid(t, s', s.net[i]);
    }
  }

  /** A relayed announcement is backed by the entry its own announcement left, unless its ttl has wrapped. */
  lemma RelayIsBacked(t: Topology, s: State, a: Ann, b: Ann)
    requires ValidTopology(t) && a.at in t.link && a.at.host < |s.tables|
    requires b in Receive(t, s, a).1
    ensures b.at in t.link && t.link[b.at].host == a.at.host && b.addr == a.addr
    ensures b.ttl == if a.ttl == 0 then 255 else a.ttl - 1
    ensures Key(a.addr) in Receive(t, s, a).0 && Receive(t, s, a).0[Key(a.addr)].ttl >= a.ttl
  {
  }

  lemma DeliverKeepsAnnouncements(t: Topology, s: State, i: nat, b: Ann)
    requires Inv(t, s) && Enabled(t, s, Deliver(i)) && s.net[i].ttl <= FLOOD_TTL
    requires b in Apply(t, s, Deliver(i)).net
    ensures b.at in t.link
    ensures b.ttl <= FLOOD_TTL ==> Backs(t, Apply(t, s, Deliver(i)).tables, b.addr, b.ttl, t.link[b.at].host)
  {
    var s' := Apply(t, s, Deliver(i));
    DeliverImproves(t, s, i);
    if b in s.net {
      if b.ttl <= FLOOD_TTL {
        BackedStaysBacked(t, s.tables, s'.tables, b.addr, b.ttl, t.link[b.at].host);
      }
    } else {
      RelayIsBacked(t, s, s.net[i], b);
    }
  }

  lemma DeliverKeepsInv(t: Topology, s: State, i: nat)
    requires Inv(t, s) && Enabled(t, s, Deliver(i)) && s.net[i].ttl <= FLOOD_TTL
    ensures Inv(t, Apply(t, s, Deliver(i)))
  {
    var s' := Apply(t, s, Deliver(i));
    forall h: nat, key: RtKey | h < |t.hosts| && key in s'.tables[h]
      ensures EntryInv(t, s', h, key)
    {
      DeliverKeepsEntries(t, s, i, h, key);
    }
    forall b | b in s'.net
      ensures b.at in t.link
      ensures b.ttl <= FLOOD_TTL ==> Backs(t, s'.tables, b.addr, b.ttl, t.link[b.at].host)
    {
      DeliverKeepsAnnouncements(t, s, i, b);
    }
  }

  lemma StepKeepsInv(t: Topology, s: State, e: Event)
    requires Inv(t, s) && Enabled(t, s, e) && Unwrapped(s, e)
    ensures Inv(t, Apply(t, s, e))
  {
    var s' := Apply(t, s, e);
    if e.Deliver? {
      DeliverKeepsInv(t, s, e.i);
    } else {
      forall h: nat, key: RtKey | h < |t.hosts| && key in s'.tables[h]
        ensures EntryInv(t, s', h, key)
      {
        assert EntryInv(t, s, h, key);
      }
    }
  }

  lemma {:induction false} RunsKeepInv(t: Topology, ok: (State, Event) -> bool, s: State, es: seq<Event>)
    requires Inv(t, s) && Runs(t, ok, s, es)
    requires forall s', e :: ok(s', e) ==> Unwrapped(s', e)
    ensures Inv(t, After(t, ok, s, es))
    decreases |es|
  {
    if es != [] {
      StepKeepsInv(t, s, es[0]);
      RunsKeepInv(t, ok, Apply(t, s, es[0]), es[1..]);
    }
  }

  /** An entry changes only to one with a larger ttl: the first announcement of the largest ttl is the one recorded. */
  predicate OnlyForLarger(before: Table, after: Table) {
    forall key :: key in before ==> key in after && (after[key] == before[key] || after[key].ttl > before[key].ttl)
  }

  lemma StepIsOnlyForLarger(t: Topology, s: State, e: Event, h: nat)
    requires Enabled(t, s, e) && !e.Manual? && h < |s.tables|
    ensures |Apply(t, s, e).tables| == |s.tables| && OnlyForLarger(s.tables[h], Apply(t, s, e).tables[h])
  {
  }

  /** Over any run without manual routes, wrapped announcements included, an entry that keeps its ttl stays as it is. */
  lemma {:induction false} RoutesChangeOnlyForLarger(t: Topology, ok: (State, Event) -> bool, s: State, es: seq<Event>,
                                                     h: nat)
    requires Runs(t, ok, s, es) && h < |s.tables| && forall s', e :: ok(s', e) ==> !e.Manual?
    ensures |After(t, ok, s, es).tables| == |s.tables| && OnlyForLarger(s.tables[h], After(t, ok, s, es).tables[h])
    decreases |es|
  {
    if es != [] {
      StepIsOnlyForLarger(t, s, es[0], h);
      RoutesChangeOnlyForLarger(t, ok, Apply(t, s, es[0]), es[1..], h);
    }
  }

  /** How far a host is along the way to `addr`: its entry's ttl, or 9 at an owner. */
  function Rank(t: Topology, s: State, addr: uint32, h: nat): int
    requires h < |t.hosts| && |s.tables| == |t.hosts|
  {
    if Owns(t.hosts[h], addr) then FLOOD_TTL + 1
    else if Key(addr) in s.tables[h] then s.tables[h][Key(addr)].ttl
    else -1
  }

  /** An entry points over a link to an owner, exactly when its ttl is 8, or to a host with a larger entry. */
  lemma NextHopIsCloser(t: Topology, s: State, addr: uint32, h: nat)
    requires Inv(t, s) && h < |t.hosts| && Key(addr) in s.tables[h]
    ensures
      var v := s.tables[h][Key(addr)];
      && 0 <= v.ttl <= FLOOD_TTL && Port(h, v.dev) in t.link
      && !Owns(t.hosts[h], addr)
      && NextPort(t, h, v).host < |t.hosts|
      && (Owns(t.hosts[NextPort(t, h, v).host], addr) ==> v.ttl == FLOOD_TTL)
      && Rank(t, s, addr, NextPort(t, h, v).host) > Rank(t, s, addr, h) == v.ttl
  {
    assert EntryInv(t, s, h, Key(addr));
    var nb := NextPort(t, h, s.tables[h][Key(addr)]).host;
    if Key(addr) in s.tables[nb] {
      assert EntryInv(t, s, nb, Key(addr));
    }
  }

  /** Packets for `addr` go on from host `a` to host `b`. */
  predicate HopsTo(t: Topology, s: State, addr: uint32, a: nat, b: nat) {
    && a < |s.tables| && Key(addr) in s.tables[a]
    && Port(a, s.tables[a][Key(addr)].dev) in t.link
    && t.link[Port(a, s.tables[a][Key(addr)].dev)].host == b
  }

  /** Going on and on, they come back to where they started. */
  ghost predicate Cycle(t: Topology, s: State, addr: uint32, r: seq<nat>) {
    && |r| >= 2 && r[0] == r[|r| - 1]
    && forall i, j :: 0 <= i < j < |r| && j == i + 1 ==> HopsTo(t, s, addr, r[i], r[j])
  }

  lemma {:induction false} HopsClimb(t: Topology, s: State, addr: uint32, r: seq<nat>, k: nat)
    requires Inv(t, s) && Cycle(t, s, addr, r) && 1 <= k < |r|
    ensures r[0] < |t.hosts| && r[k] < |t.hosts| && Rank(t, s, addr, r[k]) > Rank(t, s, addr, r[0])
  {
    assert HopsTo(t, s, addr, r[k - 1], r[k]);
    NextHopIsCloser(t, s, addr, r[k - 1]);
    if k > 1 {
      HopsClimb(t, s, addr, r, k - 1);
    }
  }

  lemma NoCycles(t: Topology, s: State, addr: uint32)
    requires Inv(t, s)
    ensures forall r :: !Cycle(t, s, addr, r)
  {
    forall r | Cycle(t, s, addr, r)
      ensures false
    {
      HopsClimb(t, s, addr, r, |r| - 1);
    }
  }

  /** The neighbour that the entry of `h` for `addr` points to. */
  function Next(t: Topology, s: State, addr: uint32, h: nat): nat
    requires h < |t.hosts| && |s.tables| == |t.hosts|
  {
    if Key(addr) in s.tables[h] && Port(h, s.tables[h][Key(addr)].dev) in t.link
    then NextPort(t, h, s.tables[h][Key(addr)]).host else h
  }

  ghost predicate Climbs(t: Topology, s: State, addr: uint32) {
    && |s.tables| == |t.hosts|
    && forall h: nat :: h < |t.hosts| && Rank(t, s, addr, h) >= 0 ==>
         (Rank(t, s, addr, h) == FLOOD_TTL + 1 && Owns(t.hosts[h], addr)) ||
         (Next(t, s, addr, h) < |t.hosts| &&
          FLOOD_TTL + 1 >= Rank(t, s, addr, Next(t, s, addr, h)) > Rank(t, s, addr, h))
  }

  lemma TablesClimb(t: Topology, s: State, addr: uint32)
    requires Inv(t, s)
    ensures Climbs(t, s, addr)
  {
    forall h: nat | h < |t.hosts| && Key(addr) in s.tables[h]
      ensures !Owns(t.hosts[h], addr) && Rank(t, s, addr, h) <= FLOOD_TTL
      ensures Next(t, s, addr, h) < |t.hosts|
      ensures FLOOD_TTL + 1 >= Rank(t, s, addr, Next(t, s, addr, h)) > Rank(t, s, addr, h)
    {
      NextHopIsCloser(t, s, addr, h);
      var nb := Next(t, s, addr, h);
      if Key(addr) in s.tables[nb] {
        NextHopIsCloser(t, s, addr, nb);
      }
    }
  }

  /** The hosts a packet for `addr` visits from `h` by following the tables as they are. */
  ghost function Route(t: Topology, s: State, addr: uint32, h: nat): (r: seq<nat>)
    requires Climbs(t, s, addr) && h < |t.hosts| && Rank(t, s, addr, h) >= 0
    ensures |r| >= 1 && r[0] == h
    ensures forall i :: 0 <= i < |r| ==> r[i] < |t.hosts|
    ensures Rank(t, s, addr, r[|r| - 1]) == FLOOD_TTL + 1
    ensures |r| <= Max(1, FLOOD_TTL + 2 - Rank(t, s, addr, h))
    decreases FLOOD_TTL + 1 - Rank(t, s, addr, h)
  {
    if Rank(t, s, addr, h) == FLOOD_TTL + 1 then [h] else [h] + Route(t, s, addr, Next(t, s, addr, h))
  }

  ghost predicate Ascending(t: Topology, s: State, addr: uint32, r: seq<nat>)
    requires |s.tables| == |t.hosts|
  {
    && (forall i :: 0 <= i < |r| ==> r[i] < |t.hosts|)
    && forall i, j :: 0 <= i < j < |r| ==> Rank(t, s, addr, r[i]) < Rank(t, s, addr, r[j])
  }

  lemma AscendingPrepends(t: Topology, s: State, addr: uint32, h: nat, tail: seq<nat>)
    requires |s.tables| == |t.hosts| && h < |t.hosts| && Ascending(t, s, addr, tail)
    requires |tail| >= 1 && Rank(t, s, addr, h) < Rank(t, s, addr, tail[0])
    ensures Ascending(t, s, addr, [h] + tail)
  {
    var r := [h] + tail;
    forall i, j | 0 <= i < j < |r|
      ensures Rank(t, s, addr, r[i]) < Rank(t, s, addr, r[j])
    {
      assert r[j] == tail[j - 1] && (i > 0 ==> r[i] == tail[i - 1]);
      assert j > 1 ==> Rank(t, s, addr, tail[0]) < Rank(t, s, addr, tail[j - 1]);
    }
  }

  lemma {:induction false} RouteAscends(t: Topology, s: State, addr: uint32, h: nat)
    requires Climbs(t, s, addr) && h < |t.hosts| && Rank(t, s, addr, h) >= 0
    ensures Ascending(t, s, addr, Route(t, s, addr, h))
    decreases FLOOD_TTL + 1 - Rank(t, s, addr, h)
  {
    if Rank(t, s, addr, h) != FLOOD_TTL + 1 {
      var nb := Next(t, s, addr, h);
      RouteAscends(t, s, addr, nb);
      AscendingPrepends(t, s, addr, h, Route(t, s, addr, nb));
    }
  }

  /** Following next hops reaches an owner and visits no host twice. */
  ghost predicate LoopFree(t: Topology, s: State, addr: uint32, h: nat) {
    && Climbs(t, s, addr) && h < |t.hosts| && Rank(t, s, addr, h) >= 0
    && var r := Route(t, s, addr, h);
       && Owns(t.hosts[r[|r| - 1]], addr)
       && |r| - 1 <= FLOOD_TTL + 1 - Rank(t, s, addr, h)
       && forall i, j :: 0 <= i < j < |r| ==> r[i] != r[j]
  }

  lemma ClimbingIsLoopFree(t: Topology, s: State, addr: uint32, h: nat)
    requires Climbs(t, s, addr) && h < |t.hosts| && Rank(t, s, addr, h) >= 0
    ensures LoopFree(t, s, addr, h)
  {
    RouteAscends(t, s, addr, h);
    var r := Route(t, s, addr, h);
    forall i, j | 0 <= i < j < |r|
      ensures r[i] != r[j]
    {
      assert Rank(t, s, addr, r[i]) < Rank(t, s, addr, r[j]);
    }
  }

  lemma EntriesAreLoopFree(t: Topology, s: State, addr: uint32, h: nat)
    requires Inv(t, s) && h < |t.hosts| && Key(addr) in s.tables[h]
    ensures LoopFree(t, s, addr, h) && Rank(t, s, addr, h) == s.tables[h][Key(addr)].ttl
  {
    NextHopIsCloser(t, s, addr, h);
    TablesClimb(t, s, addr);
    ClimbingIsLoopFree(t, s, addr, h);
  }

  /**
   In every reachable state, following next hops from a host with ttl t reaches an owner within 9 - t hops
   without visiting any host twice, and no packet can go round in a circle.
   */
  lemma RoutesAreLoopFree(t: Topology, es: seq<Event>, addr: uint32, h: nat)
    requires ValidTopology(t) && Runs(t, Unwrapped, Init(t), es) && h < |t.hosts|
    ensures
      var s := After(t, Unwrapped, Init(t), es);
      && |s.tables| == |t.hosts|
      && (Key(addr) in s.tables[h] ==> LoopFree(t, s, addr, h) && Rank(t, s, addr, h) == s.tables[h][Key(addr)].ttl)
      && forall r :: !Cycle(t, s, addr, r)
  {
    RunsKeepInv(t, Unwrapped, Init(t), es);
    var s := After(t, Unwrapped, Init(t), es);
    NoCycles(t, s, addr);
    if Key(addr) in s.tables[h] {
      EntriesAreLoopFree(t, s, addr, h);
    }
  }
}
