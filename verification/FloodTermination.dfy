/** The flood dies out: an announcement weighs more than all those it can be relayed as. */
module FloodTermination {
  import opened Bytes
  import opened Channels
  import opened Routes
  import opened Flood

  function Power(b: nat, e: nat): nat {
    if e == 0 then 1 else b * Power(b, e - 1)
  }

  /** No host has more than `d` devices. */
  predicate AtMostDevices(t: Topology, d: nat) {
    forall h :: 0 <= h < |t.hosts| ==> |t.hosts[h]| <= d
  }

  /** (d + 1)^ttl; an announcement that has wrapped is never delivered. */
  function Weight(d: nat, a: Ann): nat {
    if a.ttl <= FLOOD_TTL then Power(d + 1, a.ttl) else 0
  }

  function Weigher(d: nat): Ann -> nat {
    a => Weight(d, a)
  }

  lemma FewerIsLess(n: nat, d: nat, w: nat)
    requires n <= d && w > 0
    ensures n * w < (d + 1) * w
  {
    assert (d + 1) * w == n * w + (d + 1 - n) * w;
    assert (d + 1 - n) * w > 0;
  }

  lemma RelaysWeighLess(d: nat, t: Topology, h: nat, addr: uint32, ttl: uint8)
    requires h < |t.hosts| && AtMostDevices(t, d) && ttl <= FLOOD_TTL
    ensures Sum(Weigher(d), Broadcast(t, h, addr, WireTtl(ttl - 1))) < Power(d + 1, ttl)
  {
    var out := Broadcast(t, h, addr, WireTtl(ttl - 1));
    if ttl == 0 {
      UniformSum(Weigher(d), out, 0);
    } else {
      assert WireTtl(ttl - 1) == ttl - 1;
      UniformSum(Weigher(d), out, Power(d + 1, ttl - 1));
      PowerIsPositive(d + 1, ttl - 1);
      FewerIsLess(|out|, d, Power(d + 1, ttl - 1));
    }
  }

  lemma {:induction false} PowerIsPositive(b: nat, e: nat)
    requires b > 0
    ensures Power(b, e) > 0
  {
    if e > 0 {
      PowerIsPositive(b, e - 1);
    }
  }

  lemma RepliesWeighLess(d: nat, t: Topology, s: State, a: Ann)
    requires a.at in t.link && ValidPort(t, a.at) && ValidPort(t, t.link[a.at]) && a.at.host < |s.tables|
    requires AtMostDevices(t, d) && a.ttl <= FLOOD_TTL
    ensures Sum(Weigher(d), Receive(t, s, a).1) < Weigher(d)(a)
  {
    PowerIsPositive(d + 1, a.ttl);
    RelaysWeighLess(d, t, a.at.host, a.addr, a.ttl);
  }

  /** No host starts a new flood and nothing is duplicated. */
  predicate DyingOut(s: State, e: Event) {
    Unwrapped(s, e) && (e.Deliver? || e.Drop?)
  }

  lemma StepLowersWeight(t: Topology, d: nat, s: State, e: Event)
    requires AtMostDevices(t, d) && Enabled(t, s, e) && DyingOut(s, e)
    ensures Sum(Weigher(d), Apply(t, s, e).net) <= Sum(Weigher(d), s.net)
    ensures e.Deliver? ==> Sum(Weigher(d), Apply(t, s, e).net) < Sum(Weigher(d), s.net)
  {
    if e.Deliver? {
      RepliesWeighLess(d, t, s, s.net[e.i]);
      SumAfter(Weigher(d), s.net, e.i, Receive(t, s, s.net[e.i]).1);
    } else {
      SumAfter(Weigher(d), s.net, e.i, []);
    }
  }

  function Deliveries(es: seq<Event>): nat {
    if es == [] then 0 else (if es[0].Deliver? then 1 else 0) + Deliveries(es[1..])
  }

  /** On any topology at most sum of (d + 1)^ttl further announcements are processed. */
  lemma {:induction false} FloodDiesOut(t: Topology, d: nat, s: State, es: seq<Event>)
    requires AtMostDevices(t, d) && Runs(t, DyingOut, s, es)
    ensures Deliveries(es) + Sum(Weigher(d), After(t, DyingOut, s, es).net) <= Sum(Weigher(d), s.net)
    decreases |es|
  {
    if es != [] {
      StepLowersWeight(t, d, s, es[0]);
      FloodDiesOut(t, d, Apply(t, s, es[0]), es[1..]);
    }
  }
}
