/**
 Second hypothesis: nothing is lost, but segments and acknowledgements may be reordered at will, and
 writes of any size overlap.  Acknowledgements are not cumulative and several chains of segments may
 be in flight, yet every byte gets through and the run comes to rest.
 */
module StreamDrain {
  import opened Bytes
  import opened Channels
  import opened Endpoints
  import opened Stream
  import opened StreamSafety

  predicate NoLoss(s: State, e: Event) {
    !e.Drop?
  }

  predicate NoLossNoCopies(s: State, e: Event) {
    !e.Drop? && !e.Duplicate?
  }

  /** The chain of segments that `m` belongs to will still carry every byte from here on. */
  function Start(m: Message): nat {
    match m
    case Data(seqno, _) => seqno
    case Ack(next) => next
  }

  ghost predicate InFlight(s: State, j: nat) {
    exists m :: m in s.net && Start(m) <= j
  }

  /** Byte `j` has arrived, or some chain in flight is still to carry it, or the writer is. */
  ghost predicate Covered(s: State, j: nat) {
    || j in s.filled
    || InFlight(s, j)
    || (s.writer.Appended? && s.writer.base <= j && s.snd.writep <= j)
  }

  /** While the writer waits for the lock, chains that have already run into the new bytes left no hole. */
  ghost predicate NoHoleBehind(s: State) {
    s.writer.Appended? ==>
      && (forall m :: m in s.net ==> forall j: nat :: s.writer.base <= j < Start(m) ==> j in s.filled)
      && (forall j: nat :: s.writer.base <= j < s.snd.writep ==> j in s.filled)
  }

  ghost predicate Inv(s: State) {
    && Safe(s)
    && (forall j: nat :: j < s.snd.sizep ==> Covered(s, j))
    && NoHoleBehind(s)
    && (s.net == [] && !s.writer.Appended? ==> s.snd.writep == s.snd.sizep)
  }

  /** A message that takes over from the one delivered keeps every byte it covered covered. */
  lemma DeliverKeepsCover(s: State, i: nat, j: nat)
    requires Inv(s) && Enabled(s, Deliver(i)) && j < s.snd.sizep
    ensures Covered(Apply(s, Deliver(i)), j)
  {
    var s' := Apply(s, Deliver(i));
    var m := s.net[i];
    assert Truthful(s.snd, m);
    assert Covered(s, j);
    if InFlight(s, j) {
      var k :| k in s.net && Start(k) <= j;
      if k == m {
        assert j in s'.filled || (s'.net[|s'.net| - 1] in s'.net && Start(s'.net[|s'.net| - 1]) <= j);
      } else {
        assert k in s'.net;
      }
    } else {
      assert m in s.net && j < Start(m);
    }
  }

  lemma DeliverKeepsInv(s: State, i: nat)
    requires Inv(s) && Enabled(s, Deliver(i))
    ensures Inv(Apply(s, Deliver(i)))
  {
    StepIsSafe(s, Deliver(i));
    var s' := Apply(s, Deliver(i));
    assert s.net[i] in s.net;
    assert Truthful(s.snd, s.net[i]);
    forall j: nat | j < s'.snd.sizep
      ensures Covered(s', j)
    {
      DeliverKeepsCover(s, i, j);
    }
  }

  lemma SendKeepsInv(s: State)
    requires Inv(s) && Enabled(s, Send)
    ensures Inv(Apply(s, Send))
  {
    StepIsSafe(s, Send);
    var s' := Apply(s, Send);
    var m := FirstSegment(s.snd).1;
    assert m in s'.net;
    forall j: nat | j < s'.snd.sizep
      ensures Covered(s', j)
    {
      assert Covered(s, j);
      if InFlight(s, j) {
        var k :| k in s.net && Start(k) <= j;
        assert k in s'.net;
      }
    }
  }

  lemma AppendKeepsInv(s: State, data: seq<uint8>)
    requires Inv(s) && Enabled(s, Append(data))
    ensures Inv(Apply(s, Append(data)))
  {
    StepIsSafe(s, Append(data));
    var s' := Apply(s, Append(data));
    forall m | m in s'.net
      ensures Start(m) <= s.snd.sizep
    {
      assert Truthful(s.snd, m);
    }
    forall j: nat | j < s'.snd.sizep
      ensures Covered(s', j)
    {
      if j < s.snd.sizep {
        assert Covered(s, j);
        if InFlight(s, j) {
          var k :| k in s.net && Start(k) <= j;
          assert k in s'.net;
        }
      }
    }
  }

  lemma DuplicateKeepsInv(s: State, i: nat)
    requires Inv(s) && Enabled(s, Duplicate(i))
    ensures Inv(Apply(s, Duplicate(i)))
  {
    StepIsSafe(s, Duplicate(i));
    var s' := Apply(s, Duplicate(i));
    assert s.net[i] in s.net;
    forall j: nat | j < s'.snd.sizep
      ensures Covered(s', j)
    {
      assert Covered(s, j);
      if InFlight(s, j) {
        var k :| k in s.net && Start(k) <= j;
        assert k in s'.net;
      }
    }
  }

  lemma StepKeepsInv(s: State, e: Event)
    requires Inv(s) && Enabled(s, e) && NoLoss(s, e)
    ensures Inv(Apply(s, e))
  {
    match e
    case Append(data) => AppendKeepsInv(s, data);
    case Send => SendKeepsInv(s);
    case Deliver(i) => DeliverKeepsInv(s, i);
    case Duplicate(i) => DuplicateKeepsInv(s, i);
    case Drop(_) =>
    case Return =>
      assert forall j: nat :: j < s.snd.sizep ==> Covered(s, j) && InFlight(s, j) == InFlight(Apply(s, e), j);
    case Read(_) =>
      assert forall j: nat :: j < s.snd.sizep ==> Covered(s, j) && InFlight(s, j) == InFlight(Apply(s, e), j);
  }

  lemma {:induction false} RunsKeepInv(ok: (State, Event) -> bool, s: State, es: seq<Event>)
    requires Inv(s) && Runs(ok, s, es)
    requires forall s', e :: ok(s', e) ==> NoLoss(s', e)
    ensures Inv(After(ok, s, es))
    decreases |es|
  {
    if es != [] {
      StepKeepsInv(s, es[0]);
      RunsKeepInv(ok, Apply(s, es[0]), es[1..]);
    }
  }

  /** Nothing is left to do but read and write. */
  ghost predicate AtRest(s: State) {
    !Enabled(s, Send) && !Enabled(s, Return) && forall i: nat :: i < |s.net| ==> !Enabled(s, Deliver(i))
  }

  /** Both ends agree and the receiver holds all that was written. */
  ghost predicate Arrived(s: State) {
    && Safe(s) && s.writer.Idle? && s.net == []
    && s.snd.writep == s.snd.sizep == s.rcv.sizep
    && s.rcv.buf[..s.rcv.sizep] == Written(s)
  }

  lemma RestMeansArrived(s: State)
    requires Inv(s) && AtRest(s)
    ensures Arrived(s)
  {
    if s.net != [] {
      DeliveryIsEnabled(s, 0);
      assert false;
    }
    forall j: nat | j < s.snd.sizep
      ensures j in s.filled
    {
      assert Covered(s, j);
    }
    assert s.snd.sizep > 0 ==> s.snd.sizep - 1 in s.filled;
  }

  /** Whenever a lossless run comes to rest, copies or not, the whole stream has arrived. */
  lemma AtRestEverythingArrived(es: seq<Event>)
    requires Runs(NoLoss, INIT, es) && AtRest(After(NoLoss, INIT, es))
    ensures Arrived(After(NoLoss, INIT, es)) && Written(After(NoLoss, INIT, es)) == AllWrites(es)
  {
    RunsKeepInv(NoLoss, INIT, es);
    WrittenIsAllWrites(NoLoss, INIT, es);
    RestMeansArrived(After(NoLoss, INIT, es));
  }

  // ---- and it does come to rest ----

  /** How much traffic one message can still cause. */
  function Weight(size: int, m: Message): nat {
    match m
    case Data(seqno, bytes) => 2 * Max(0, size - seqno - |bytes|) + 2
    case Ack(next) => 2 * Max(0, size - next) + 1
  }

  function Weigher(size: int): Message -> nat {
    m => Weight(size, m)
  }

  function WriterWeight(s: State): nat
    requires s.snd.sizep >= 0
  {
    match s.writer
    case Idle => 0
    case Spinning(_) => 1
    case Appended(_) => 2 * s.snd.sizep + 4
  }

  function Measure(s: State): nat
    requires s.snd.sizep >= 0
  {
    Sum(Weigher(s.snd.sizep), s.net) + WriterWeight(s)
  }

  predicate IsProtocolStep(e: Event) {
    e.Send? || e.Return? || e.Deliver?
  }

  lemma SendLowersMeasure(s: State)
    requires Safe(s) && Enabled(s, Send)
    ensures Measure(Apply(s, Send)) < Measure(s)
  {
    var w, m := Weigher(s.snd.sizep), FirstSegment(s.snd).1;
    SumSplits(w, s.net, [m]);
    SumOne(w, m);
  }

  /** A message weighs more than what it causes. */
  lemma CausesLess(s: State, i: nat)
    requires Safe(s) && Enabled(s, Deliver(i))
    ensures
      var s' := Apply(s, Deliver(i));
      && s'.snd.sizep == s.snd.sizep && s'.writer == s.writer
      && exists out :: s'.net == Without(s.net, i) + out && Sum(Weigher(s.snd.sizep), out) < Weight(s.snd.sizep, s.net[i])
  {
    var w, s' := Weigher(s.snd.sizep), Apply(s, Deliver(i));
    assert Truthful(s.snd, s.net[i]);
    match s.net[i]
    case Data(seqno, bytes) =>
      SumOne(w, Ack(seqno + |bytes|));
      assert s'.net == Without(s.net, i) + [Ack(seqno + |bytes|)];
    case Ack(next) =>
      var out := RecvAck(s.snd, next).1;
      if out != [] {
        SumOne(w, out[0]);
      }
      assert s'.net == Without(s.net, i) + out;
  }

  lemma DeliverLowersMeasure(s: State, i: nat)
    requires Safe(s) && Enabled(s, Deliver(i))
    ensures Measure(Apply(s, Deliver(i))) < Measure(s)
  {
    var w, s' := Weigher(s.snd.sizep), Apply(s, Deliver(i));
    CausesLess(s, i);
    var out :| s'.net == Without(s.net, i) + out && Sum(w, out) < Weight(s.snd.sizep, s.net[i]);
    SumAfter(w, s.net, i, out);
  }

  lemma StepLowersMeasure(s: State, e: Event)
    requires Safe(s) && Enabled(s, e) && IsProtocolStep(e)
    ensures Safe(Apply(s, e)) && Measure(Apply(s, e)) < Measure(s)
  {
    StepIsSafe(s, e);
    match e
    case Send => SendLowersMeasure(s);
    case Return =>
    case Deliver(i) => DeliverLowersMeasure(s, i);
  }

  function ProtocolSteps(es: seq<Event>): nat {
    if es == [] then 0 else (if IsProtocolStep(es[0]) then 1 else 0) + ProtocolSteps(es[1..])
  }

  /** Once writes stop, a lossless run without copies takes at most `Measure` more protocol steps. */
  lemma {:induction false} RunsDrain(s: State, es: seq<Event>)
    requires Safe(s) && Runs(NoLossNoCopies, s, es)
    requires forall e :: e in es ==> !e.Append?
    ensures ProtocolSteps(es) <= Measure(s)
    decreases |es|
  {
    if es != [] {
      assert es[0] in es;
      StepIsSafe(s, es[0]);
      if IsProtocolStep(es[0]) {
        StepLowersMeasure(s, es[0]);
      }
      RunsDrain(Apply(s, es[0]), es[1..]);
    }
  }

  lemma DrainsFrom(s: State, es: seq<Event>)
    requires Inv(s) && Runs(NoLossNoCopies, s, es) && forall e :: e in es ==> !e.Append?
    ensures ProtocolSteps(es) <= Measure(s)
    ensures Safe(After(NoLossNoCopies, s, es)) && Written(After(NoLossNoCopies, s, es)) == Written(s)
    ensures AtRest(After(NoLossNoCopies, s, es)) ==> Arrived(After(NoLossNoCopies, s, es))
  {
    RunsDrain(s, es);
    RunsKeepInv(NoLossNoCopies, s, es);
    WrittenIsAllWrites(NoLossNoCopies, s, es);
    NothingWritten(es);
    if AtRest(After(NoLossNoCopies, s, es)) {
      RestMeansArrived(After(NoLossNoCopies, s, es));
    }
  }

  lemma ReachedFromInit(es: seq<Event>)
    requires Runs(NoLossNoCopies, INIT, es)
    ensures Inv(After(NoLossNoCopies, INIT, es)) && Written(After(NoLossNoCopies, INIT, es)) == AllWrites(es)
  {
    RunsKeepInv(NoLossNoCopies, INIT, es);
    WrittenIsAllWrites(NoLossNoCopies, INIT, es);
  }

  /**
   Once writes stop, a lossless run without copies takes a bounded number of protocol steps, and where it can take
   no more the receiver's buffer is the whole stream, however many chains of segments were in flight.
   */
  lemma StreamDrains(before: seq<Event>, after: seq<Event>)
    requires Runs(NoLossNoCopies, INIT, before)
    requires Runs(NoLossNoCopies, After(NoLossNoCopies, INIT, before), after)
    requires forall e :: e in after ==> !e.Append?
    ensures
      var s := After(NoLossNoCopies, INIT, before);
      var s' := After(NoLossNoCopies, s, after);
      && Safe(s) && ProtocolSteps(after) <= Measure(s)
      && (AtRest(s') ==> Arrived(s') && Written(s') == AllWrites(before))
  {
    ReachedFromInit(before);
    DrainsFrom(After(NoLossNoCopies, INIT, before), after);
  }

  lemma {:induction false} NothingWritten(es: seq<Event>)
    requires forall e :: e in es ==> !e.Append?
    ensures AllWrites(es) == []
  {
    if es != [] {
      assert es[0] in es;
      NothingWritten(es[1..]);
    }
  }
}
