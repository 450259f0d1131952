/** Packets die out, also those that owners and hosts without an entry send out on all devices. */
module ForwardingTermination {
  import opened Bytes
  import opened Channels
  import opened Routes
  import opened Flood
  import opened FloodTermination
  import opened Forwarding

  /** (d + 1)^(ttl + 1) */
  function PktWeigher(d: nat): Pkt -> nat {
    (p: Pkt) => Power(d + 1, p.ttl + 1)
  }

  lemma {:induction false} EmitIsShort(t: Topology, h: nat, hops: seq<Hop>, p: Pkt)
    ensures |Emit(t, h, hops, p)| <= |hops|
    ensures forall q :: q in Emit(t, h, hops, p) ==> q.ttl == p.ttl
  {
    if hops != [] {
      EmitIsShort(t, h, hops[1..], p);
    }
  }

  /** What a host forwards weighs less than what it received. */
  lemma ForwardedWeighsLess(t: Topology, d: nat, n: Net, p: Pkt)
    requires p.at.host < |t.hosts| && p.at.host < |n.flood.tables| && AtMostDevices(t, d) && d >= 1
    ensures Sum(PktWeigher(d), Forwarded(t, n, p)) < PktWeigher(d)(p)
  {
    var out := Forwarded(t, n, p);
    PowerIsPositive(d + 1, p.ttl + 1);
    if p.ttl > 0 {
      var q, h := Aged(p), p.at.host;
      EmitIsShort(t, h, NextHops(t.hosts[h], n.flood.tables[h], q.dst, FULL_MASK),
                  q.(strayed := q.strayed || !HasRoute(n, h, q.dst)));
      assert q.ttl == p.ttl - 1;
      UniformSum(PktWeigher(d), out, Power(d + 1, p.ttl));
      PowerIsPositive(d + 1, p.ttl);
      FewerIsLess(|out|, d, Power(d + 1, p.ttl));
    }
  }

  /** Nobody sends anything new. */
  predicate NothingSent(sts: seq<Step>) {
    forall st :: st in sts ==> !st.SendTcp?
  }

  function Receptions(sts: seq<Step>): nat {
    if sts == [] then 0 else (if sts[0].Receive? then 1 else 0) + Receptions(sts[1..])
  }

  lemma StepLowersPktWeight(t: Topology, d: nat, n: Net, st: Step)
    requires Forwarding.Enabled(t, n, st) && AtMostDevices(t, d) && d >= 1 && !st.SendTcp?
    ensures
      Sum(PktWeigher(d), Forwarding.Apply(t, n, st).pkts) + (if st.Receive? then 1 else 0) <= Sum(PktWeigher(d), n.pkts)
  {
    match st
    case Control(_) =>
    case Receive(i) =>
      PowerIsPositive(d + 1, n.pkts[i].ttl + 1);
      ForwardedWeighsLess(t, d, n, n.pkts[i]);
      SumAfter(PktWeigher(d), n.pkts, i, Forwarded(t, n, n.pkts[i]));
    case Capture(i) => CapturingChangesNothing(t, n, i);
    case Lose(i) => SumAfter(PktWeigher(d), n.pkts, i, []);
  }

  /**
   Whatever the announcements do to the tables meanwhile, loops included, at most the sum of (d + 1)^(ttl + 1) packets
   are still received once nobody sends any more.
   */
  lemma {:induction false} PacketsDieOut(t: Topology, ok: (State, Event) -> bool, d: nat, n: Net, sts: seq<Step>)
    requires AtMostDevices(t, d) && d >= 1 && Forwarding.Runs(t, ok, n, sts) && NothingSent(sts)
    ensures
      Receptions(sts) + Sum(PktWeigher(d), Forwarding.After(t, ok, n, sts).pkts) <= Sum(PktWeigher(d), n.pkts)
    decreases |sts|
  {
    if sts != [] {
      assert sts[0] in sts;
      StepLowersPktWeight(t, d, n, sts[0]);
      PacketsDieOut(t, ok, d, Forwarding.Apply(t, n, sts[0]), sts[1..]);
    }
  }
}
