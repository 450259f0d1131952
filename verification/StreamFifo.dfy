/** The receiver never has a hole: what makes the bytes handed to `read` a prefix of those written. */
module StreamContiguity {
  import opened Bytes
  import opened Endpoints
  import opened Stream
  import opened StreamSafety

  /** Every cell below the receiver's size mark has been stored to. */
  ghost predicate Contiguous(s: State) {
    forall j: nat :: j < s.rcv.sizep ==> j in s.filled
  }

  /** What `read` has returned so far, one call after the other, is the start of the stream. */
  ghost predicate ReadsArePrefix(s: State)
    requires Safe(s)
  {
    s.output == Written(s)[..s.rcv.readp]
  }

  lemma ContiguousIsPrefix(s: State)
    requires Safe(s) && Contiguous(s)
    ensures s.rcv.buf[..s.rcv.sizep] == Written(s)[..s.rcv.sizep]
  {
    forall j | 0 <= j < s.rcv.sizep
      ensures s.rcv.buf[j] == s.snd.buf[j]
    {
      assert j in s.filled;
    }
  }

  /** One step keeps the reads a prefix, provided the receiver had no hole. */
  lemma StepKeepsReads(s: State, e: Event)
    requires Safe(s) && Contiguous(s) && ReadsArePrefix(s) && Enabled(s, e)
    ensures Safe(Apply(s, e)) && ReadsArePrefix(Apply(s, e))
  {
    StepIsSafe(s, e);
    match e
    case Append(data) => AppendIsSafe(s, data);
    case Read(len) =>
      ContiguousIsPrefix(s);
      NextSlice(s.rcv.buf, Written(s), s.rcv.sizep, s.rcv.readp, s.rcv.readp + len);
    case _ =>
  }

  /** A segment that starts at or below the size mark leaves no hole. */
  lemma DeliverKeepsContiguous(s: State, i: nat)
    requires Contiguous(s) && Enabled(s, Deliver(i))
    requires s.net[i].Data? ==> s.net[i].seqno <= s.rcv.sizep
    ensures Contiguous(Apply(s, Deliver(i)))
  {
  }
}

/**
 First hypothesis: data segments are neither lost nor reordered (a duplicate may follow later), while
 acknowledgements may suffer anything.  Writes and reads have any size.
 */
module StreamFifo {
  import opened Bytes
  import opened Channels
  import opened Endpoints
  import opened Stream
  import opened StreamSafety
  import opened StreamContiguity

  predicate NoData(net: seq<Message>) {
    forall m :: m in net ==> m.Ack?
  }

  predicate FifoData(s: State, e: Event) {
    match e
    case Deliver(i) => i < |s.net| && (s.net[i].Data? ==> NoData(s.net[..i]))
    case Drop(i) => i < |s.net| && s.net[i].Ack?
    case _ => true
  }

  /** The size mark a receiver at `size` will have once it has taken all of `net`. */
  function Frontier(size: int, net: seq<Message>): (r: int)
    ensures r >= size
    decreases |net|
  {
    if net == [] then size
    else Frontier(if net[0].Data? then Max(size, net[0].seqno + |net[0].bytes|) else size, net[1..])
  }

  /** Taken in order, each segment starts at or below the size mark it meets. */
  predicate Chained(size: int, net: seq<Message>)
    decreases |net|
  {
    net == [] ||
    match net[0]
    case Data(seqno, bytes) => seqno <= size && Chained(Max(size, seqno + |bytes|), net[1..])
    case Ack(_) => Chained(size, net[1..])
  }

  lemma {:induction false} ChainSplits(size: int, a: seq<Message>, b: seq<Message>)
    ensures Frontier(size, a + b) == Frontier(Frontier(size, a), b)
    ensures Chained(size, a + b) <==> Chained(size, a) && Chained(Frontier(size, a), b)
    decreases |a|
  {
    if a == [] {
      assert a + b == b;
    } else {
      assert (a + b)[1..] == a[1..] + b;
      ChainSplits(if a[0].Data? then Max(size, a[0].seqno + |a[0].bytes|) else size, a[1..], b);
    }
  }

  lemma {:induction false} NoDataIsTransparent(size: int, net: seq<Message>)
    requires NoData(net)
    ensures Frontier(size, net) == size && Chained(size, net)
  {
    if net != [] {
      assert net[0] in net;
      NoDataIsTransparent(size, net[1..]);
    }
  }

  /** Adding a segment that starts below the frontier, or any acknowledgement, extends the chain. */
  lemma ChainGrows(size: int, net: seq<Message>, m: Message)
    requires Chained(size, net)
    requires m.Data? ==> m.seqno <= Frontier(size, net)
    ensures Chained(size, net + [m])
    ensures Frontier(size, net + [m]) ==
            if m.Data? then Max(Frontier(size, net), m.seqno + |m.bytes|) else Frontier(size, net)
  {
    ChainSplits(size, net, [m]);
  }

  /** Taking out an acknowledgement, or the earliest segment, leaves a chain for the new size mark. */
  lemma ChainShrinks(size: int, net: seq<Message>, i: nat)
    requires i < |net| && Chained(size, net)
    requires net[i].Data? ==> NoData(net[..i])
    ensures net[i].Data? ==> net[i].seqno <= size
    ensures
      var size' := if net[i].Data? then Max(size, net[i].seqno + |net[i].bytes|) else size;
      Chained(size', Without(net, i)) && Frontier(size', Without(net, i)) == Frontier(size, net)
  {
    var size' := if net[i].Data? then Max(size, net[i].seqno + |net[i].bytes|) else size;
    assert net == net[..i] + ([net[i]] + net[i + 1..]);
    ChainSplits(size, net[..i], [net[i]] + net[i + 1..]);
    ChainSplits(size', net[..i], net[i + 1..]);
    ChainSplits(Frontier(size, net[..i]), [net[i]], net[i + 1..]);
    if net[i].Data? {
      NoDataIsTransparent(size, net[..i]);
      NoDataIsTransparent(size', net[..i]);
    }
  }

  lemma ChainBoundsStart(size: int, net: seq<Message>, i: nat)
    requires i < |net| && Chained(size, net) && net[i].Data?
    ensures net[i].seqno <= Frontier(size, net)
  {
    assert net == net[..i] + ([net[i]] + net[i + 1..]);
    ChainSplits(size, net[..i], [net[i]] + net[i + 1..]);
  }

  /** Nothing in flight, and nothing the sender may still send, starts beyond where the receiver will be. */
  predicate InSequence(s: State) {
    && Chained(s.rcv.sizep, s.net)
    && (forall m :: m in s.net && m.Ack? ==> m.next <= s.rcv.sizep)
    && s.snd.writep <= Frontier(s.rcv.sizep, s.net)
  }

  ghost predicate Inv(s: State) {
    Safe(s) && Contiguous(s) && ReadsArePrefix(s) && InSequence(s)
  }

  lemma DataStaysInSequence(s: State, i: nat)
    requires Safe(s) && InSequence(s) && Enabled(s, Deliver(i)) && FifoData(s, Deliver(i)) && s.net[i].Data?
    ensures InSequence(Apply(s, Deliver(i)))
  {
    var s' := Apply(s, Deliver(i));
    var m := Ack(s.net[i].seqno + |s.net[i].bytes|);
    ChainShrinks(s.rcv.sizep, s.net, i);
    assert s'.net == Without(s.net, i) + [m];
    ChainGrows(s'.rcv.sizep, Without(s.net, i), m);
  }

  lemma AckStaysInSequence(s: State, i: nat)
    requires Safe(s) && InSequence(s) && Enabled(s, Deliver(i)) && s.net[i].Ack?
    ensures InSequence(Apply(s, Deliver(i)))
  {
    var s' := Apply(s, Deliver(i));
    ChainShrinks(s.rcv.sizep, s.net, i);
    assert Truthful(s.snd, s.net[i]);
    if s.net[i].next < s.snd.sizep {
      var m := RecvAck(s.snd, s.net[i].next).1[0];
      assert s'.net == Without(s.net, i) + [m];
      ChainGrows(s.rcv.sizep, Without(s.net, i), m);
    } else {
      assert s'.net == Without(s.net, i);
    }
  }

  lemma DeliverKeepsInv(s: State, i: nat)
    requires Inv(s) && Enabled(s, Deliver(i)) && FifoData(s, Deliver(i))
    ensures Inv(Apply(s, Deliver(i)))
  {
    ChainShrinks(s.rcv.sizep, s.net, i);
    DeliverKeepsContiguous(s, i);
    StepKeepsReads(s, Deliver(i));
    if s.net[i].Data? {
      DataStaysInSequence(s, i);
    } else {
      AckStaysInSequence(s, i);
    }
  }

  lemma StepKeepsInv(s: State, e: Event)
    requires Inv(s) && Enabled(s, e) && FifoData(s, e)
    ensures Inv(Apply(s, e))
  {
    match e
    case Deliver(i) => DeliverKeepsInv(s, i);
    case Drop(i) =>
      StepKeepsReads(s, e);
      ChainShrinks(s.rcv.sizep, s.net, i);
    case Duplicate(i) =>
      StepKeepsReads(s, e);
      if s.net[i].Data? {
        ChainBoundsStart(s.rcv.sizep, s.net, i);
      }
      ChainGrows(s.rcv.sizep, s.net, s.net[i]);
    case Send =>
      StepKeepsReads(s, e);
      ChainGrows(s.rcv.sizep, s.net, FirstSegment(s.snd).1);
    case _ => StepKeepsReads(s, e);
  }

  lemma {:induction false} RunsKeepInv(s: State, es: seq<Event>)
    requires Inv(s) && Runs(FifoData, s, es)
    ensures Inv(After(FifoData, s, es))
    decreases |es|
  {
    if es != [] {
      StepKeepsInv(s, es[0]);
      RunsKeepInv(Apply(s, es[0]), es[1..]);
    }
  }

  /** The receiver's bytes, and all bytes handed to `read`, are prefixes of the bytes written. */
  lemma FifoStreamIsPrefix(es: seq<Event>)
    requires Runs(FifoData, INIT, es)
    ensures
      var s := After(FifoData, INIT, es);
      && Safe(s)
      && s.rcv.buf[..s.rcv.sizep] == Written(s)[..s.rcv.sizep]
      && Written(s) == AllWrites(es)
      && s.rcv.readp == ReadTotal(es) <= |AllWrites(es)|
      && s.output == AllWrites(es)[..ReadTotal(es)]
  {
    RunsKeepInv(INIT, es);
    ReadsReturnWhatTheyAsk(FifoData, INIT, es);
    WrittenIsAllWrites(FifoData, INIT, es);
    ContiguousIsPrefix(After(FifoData, INIT, es));
  }
}
