/**
 Third hypothesis: any loss, duplication and reordering, but `write`'s own segment always leaves more
 than one segment's worth unsent, so that `write` can only return through an acknowledgement.

 Writes longer than 1000 bytes are meant to guarantee that.  They do when no acknowledgement is processed
 between `mywrite` and the lock `write` takes next; if one is, the guarantee fails, and `SendKeepsItIff`
 says exactly when.
 */
module StreamLongWrites {
  import opened Bytes
  import opened Endpoints
  import opened Stream
  import opened StreamSafety
  import opened StreamContiguity
  import Drain = StreamDrain

  /** `write` will still have to wait for an acknowledgement, or has nothing to wait for. */
  predicate SafeToSend(s: State) {
    s.snd.sizep - s.snd.writep > SEGMENT_SIZE || s.rcv.sizep == s.snd.sizep
  }

  predicate GuardedSends(s: State, e: Event) {
    e.Send? ==> SafeToSend(s)
  }

  /** When `write` returns, or is about to, the receiver has everything. */
  ghost predicate Inv(s: State) {
    && Safe(s) && Contiguous(s) && ReadsArePrefix(s)
    && (forall m :: m in s.net ==> Drain.Start(m) <= s.rcv.sizep)
    && (match s.writer
        case Idle => s.rcv.sizep == s.snd.sizep
        case Appended(_) => s.snd.writep <= s.rcv.sizep
        case Spinning(_) => s.snd.writep == s.snd.sizep ==> s.rcv.sizep == s.snd.sizep)
  }

  lemma StepKeepsInv(s: State, e: Event)
    requires Inv(s) && Enabled(s, e) && GuardedSends(s, e)
    ensures Inv(Apply(s, e))
  {
    StepKeepsReads(s, e);
    if e.Deliver? {
      assert s.net[e.i] in s.net;
      assert Truthful(s.snd, s.net[e.i]);
      DeliverKeepsContiguous(s, e.i);
    }
  }

  lemma {:induction false} RunsKeepInv(s: State, es: seq<Event>)
    requires Inv(s) && Runs(GuardedSends, s, es)
    ensures Inv(After(GuardedSends, s, es))
    decreases |es|
  {
    if es != [] {
      StepKeepsInv(s, es[0]);
      RunsKeepInv(Apply(s, es[0]), es[1..]);
    }
  }

  /** Writes longer than a segment, with no acknowledgement processed between append and send. */
  predicate LongUndisturbedWrites(s: State, e: Event) {
    match e
    case Append(data) => |data| > SEGMENT_SIZE
    case Deliver(i) => i < |s.net| && (s.net[i].Ack? ==> !s.writer.Appended?)
    case _ => true
  }

  ghost predicate LongInv(s: State) {
    Inv(s) && (s.writer.Appended? ==> s.snd.sizep - s.snd.writep > SEGMENT_SIZE)
  }

  lemma {:induction false} LongRunsKeepInv(s: State, es: seq<Event>)
    requires LongInv(s) && Runs(LongUndisturbedWrites, s, es)
    ensures LongInv(After(LongUndisturbedWrites, s, es))
    decreases |es|
  {
    if es != [] {
      StepKeepsInv(s, es[0]);
      LongRunsKeepInv(Apply(s, es[0]), es[1..]);
    }
  }

  /**
   Under any loss, duplication and reordering, the receiver holds a gap-free prefix of the stream, every
   byte handed to `read` is in place, and a `write` that has returned has been received in full.
   */
  lemma LongWritesAreGapFree(es: seq<Event>)
    requires Runs(LongUndisturbedWrites, INIT, es)
    ensures
      var s := After(LongUndisturbedWrites, INIT, es);
      && Safe(s) && s.rcv.sizep <= |AllWrites(es)|
      && s.rcv.buf[..s.rcv.sizep] == AllWrites(es)[..s.rcv.sizep]
      && ReadTotal(es) <= s.rcv.sizep && s.output == AllWrites(es)[..ReadTotal(es)]
      && (s.writer.Idle? ==> s.rcv.sizep == |AllWrites(es)|)
  {
    LongRunsKeepInv(INIT, es);
    ReadsReturnWhatTheyAsk(LongUndisturbedWrites, INIT, es);
    WrittenIsAllWrites(LongUndisturbedWrites, INIT, es);
    ContiguousIsPrefix(After(LongUndisturbedWrites, INIT, es));
  }

  // ---- the exact condition ----

  /** The run that opens a hole: `write` returns early, and a later write's segment overtakes. */
  function HoleRun(s: State): seq<Event> {
    [Send, Return, Append(seq(SEGMENT_SIZE + 1, _ => 0)), Send, Deliver(|s.net| + 1)]
  }

  predicate LaterSendsAreGuarded(es: seq<Event>, s: State)
    requires Enabled(s, Send)
  {
    |es| > 0 && es[0].Send? && Runs(GuardedSends, Apply(s, Send), es[1..])
  }

  /** The state in which the later segment is about to overtake. */
  lemma EarlyReturnAllowsWrite(s: State, write: Event) returns (s4: State)
    requires Inv(s) && s.writer.Appended? && !SafeToSend(s)
    requires write.Append? && |write.data| == SEGMENT_SIZE + 1 && s.snd.sizep + SEGMENT_SIZE + 1 <= CAPACITY
    ensures
      var s1 := Apply(s, Send);
      Runs(GuardedSends, s1, [Return, write, Send]) && s4 == After(GuardedSends, s1, [Return, write, Send])
    ensures s4.rcv == s.rcv && s4.filled == s.filled && |s4.net| == |s.net| + 2
    ensures
      var m := s4.net[|s.net| + 1];
      m.Data? && m.seqno == s.snd.sizep && |m.bytes| == SEGMENT_SIZE
  {
    var ok, s1 := GuardedSends, Apply(s, Send);
    RunsExtend(ok, s1, [], Return);
    RunsExtend(ok, s1, [Return], write);
    RunsExtend(ok, s1, [Return, write], Send);
    assert [] + [Return] == [Return] && [Return] + [write] == [Return, write];
    assert [Return, write] + [Send] == [Return, write, Send];
    s4 := After(ok, s1, [Return, write, Send]);
  }

  lemma OvertakingOpensHole(s: State, i: nat)
    requires Enabled(s, Deliver(i)) && s.net[i].Data? && s.net[i].bytes != []
    requires 0 <= s.rcv.sizep < s.net[i].seqno && s.rcv.sizep !in s.filled
    ensures !Contiguous(Apply(s, Deliver(i)))
  {
    var j: nat := s.rcv.sizep;
    var s' := Apply(s, Deliver(i));
    assert j !in s'.filled && j < s'.rcv.sizep;
  }

  lemma EarlyReturnOpensHole(s: State)
    requires Inv(s) && s.writer.Appended? && !SafeToSend(s)
    requires s.snd.sizep + SEGMENT_SIZE + 1 <= CAPACITY
    ensures LaterSendsAreGuarded(HoleRun(s), s)
    ensures !Contiguous(After(GuardedSends, Apply(s, Send), HoleRun(s)[1..]))
  {
    var write, last := Append(seq(SEGMENT_SIZE + 1, _ => 0)), Deliver(|s.net| + 1);
    var s4 := EarlyReturnAllowsWrite(s, write);
    OvertakingOpensHole(s4, |s.net| + 1);
    RunsExtend(GuardedSends, Apply(s, Send), [Return, write, Send], last);
    assert HoleRun(s)[1..] == [Return, write, Send] + [last];
  }

  /**
   Exactly when the send step of `write` is harmless: with room for one more write, no continuation
   whose later sends are guarded can open a hole if and only if more than a segment is left to send,
   or the receiver is already complete.
   */
  lemma SendKeepsItIff(s: State)
    requires Inv(s) && s.writer.Appended?
    requires s.snd.sizep + SEGMENT_SIZE + 1 <= CAPACITY
    ensures SafeToSend(s) <==>
            forall es :: LaterSendsAreGuarded(es, s) ==> Contiguous(After(GuardedSends, Apply(s, Send), es[1..]))
  {
    if SafeToSend(s) {
      forall es | LaterSendsAreGuarded(es, s)
        ensures Contiguous(After(GuardedSends, Apply(s, Send), es[1..]))
      {
        StepKeepsInv(s, Send);
        RunsKeepInv(Apply(s, Send), es[1..]);
      }
    } else {
      EarlyReturnOpensHole(s);
    }
  }

  // ---- long writes alone are not enough ----

  predicate LongWrites(s: State, e: Event) {
    e.Append? ==> |e.data| > SEGMENT_SIZE
  }

  function Bytes1001(): (r: seq<uint8>)
    ensures |r| == SEGMENT_SIZE + 1
  {
    seq(SEGMENT_SIZE + 1, _ => 1)
  }

  /** Takes one more step of a run under construction. */
  lemma Take(es: seq<Event>, e: Event) returns (es': seq<Event>, s: State)
    requires Runs(LongWrites, INIT, es)
    requires Enabled(After(LongWrites, INIT, es), e) && LongWrites(After(LongWrites, INIT, es), e)
    ensures Runs(LongWrites, INIT, es')
    ensures s == After(LongWrites, INIT, es') == Apply(After(LongWrites, INIT, es), e)
  {
    es' := es + [e];
    RunsExtend(LongWrites, INIT, es, e);
    s := After(LongWrites, INIT, es');
  }

  /** The sizes and marks of a state, which is all that the run below depends on. */
  predicate Marks(s: State, sizep: nat, writep: nat, received: nat) {
    && Fits(s.snd) && Fits(s.rcv)
    && s.snd.sizep == sizep && s.snd.writep == writep && s.rcv.sizep == received
  }

  /** A first write of 1001 bytes whose first acknowledgement has been copied. */
  lemma FirstAckIsCopied() returns (es: seq<Event>, s: State)
    ensures Runs(LongWrites, INIT, es) && s == After(LongWrites, INIT, es)
    ensures Marks(s, 1001, 1000, 1000) && s.writer.Spinning? && s.net == [Ack(1000), Ack(1000)]
  {
    es, s := FirstSegmentIsSent();
    es, s := Take(es, Deliver(0));
    assert s.net == [Ack(1000)];
    es, s := Take(es, Duplicate(0));
  }

  lemma FirstSegmentIsSent() returns (es: seq<Event>, s: State)
    ensures Runs(LongWrites, INIT, es) && s == After(LongWrites, INIT, es)
    ensures Marks(s, 1001, 1000, 0) && s.writer.Spinning? && |s.net| == 1
    ensures s.net[0].Data? && s.net[0].seqno == 0 && |s.net[0].bytes| == 1000
  {
    es, s := Take([], Append(Bytes1001()));
    assert Marks(s, 1001, 0, 0) && s.writer.Appended? && s.net == [];
    es, s := Take(es, Send);
  }

  /** The write completes and returns while the copy is still in flight. */
  lemma FirstWriteLeavesCopy() returns (es: seq<Event>, s: State)
    ensures Runs(LongWrites, INIT, es) && s == After(LongWrites, INIT, es)
    ensures Marks(s, 1001, 1001, 1001) && s.writer.Idle? && s.net == [Ack(1000)]
  {
    es, s := FirstAckIsCopied();
    es, s := Take(es, Deliver(0));
    assert s.net[0] == Ack(1000) && s.net[1].Data? && s.net[1].seqno == 1000 && |s.net[1].bytes| == 1;
    es, s := Take(es, Deliver(1));
    assert s.net == [Ack(1000), Ack(1001)];
    es, s := Take(es, Deliver(1));
    assert s.net == [Ack(1000)];
    es, s := Take(es, Return);
  }

  /** The second write: the copied acknowledgement is processed between its append and its send. */
  lemma CopyIsProcessedBeforeSend() returns (es: seq<Event>, s: State)
    ensures Runs(LongWrites, INIT, es) && s == After(LongWrites, INIT, es)
    ensures Marks(s, 2002, 2000, 2000) && s.writer.Appended? && |s.net| == 1
  {
    es, s := FirstWriteLeavesCopy();
    es, s := Take(es, Append(Bytes1001()));
    es, s := Take(es, Deliver(0));
    assert s.net[0].Data? && s.net[0].seqno == 1000 && |s.net[0].bytes| == 1000;
    es, s := Take(es, Deliver(0));
    assert s.net == [Ack(2000)];
    es, s := Take(es, Deliver(0));
  }

  /**
   Every write is longer than a segment, yet the second returns before its last two bytes are
   acknowledged, and the third write's segment leaves them as a hole that `read` may step over.
   */
  lemma LongWritesMayOpenHole()
    ensures exists es :: Runs(LongWrites, INIT, es) && !Contiguous(After(LongWrites, INIT, es))
  {
    var es, s := CopyIsProcessedBeforeSend();
    RunsAreSafe(LongWrites, INIT, es);
    es, s := Take(es, Send);
    es, s := Take(es, Return);
    es, s := Take(es, Append(Bytes1001()));
    assert Marks(s, 3003, 2002, 2000) && |s.net| == 2;
    es, s := Take(es, Send);
    assert s.net[2].Data? && s.net[2].seqno == 2002 && |s.net[2].bytes| == 1000;
    es, s := Take(es, Deliver(2));
    assert s.rcv.sizep == 3002 && 2000 !in s.filled;
  }
}
