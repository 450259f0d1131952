/**
 Fourth hypothesis: writes longer than a segment over a network that makes no copies.  The protocol is then
 stop-and-wait: at most one message is in flight, so no acknowledgement can fall between append and send, and
 a write uses as few segments as its length allows.
 */
module StreamStopAndWait {
  import opened Bytes
  import opened Endpoints
  import opened Stream
  import opened StreamSafety
  import Long = StreamLongWrites

  predicate LongWritesNoCopies(s: State, e: Event) {
    match e
    case Append(data) => |data| > SEGMENT_SIZE
    case Duplicate(_) => false
    case _ => true
  }

  ghost predicate Inv(s: State) {
    && Safe(s) && |s.net| <= 1
    && (match s.writer
        case Idle => s.net == [] && s.snd.writep == s.snd.sizep
        case Appended(base) => s.net == [] && s.snd.writep == base && s.snd.sizep - base > SEGMENT_SIZE
        case Spinning(base) => s.net == [] || s.snd.writep < s.snd.sizep)
  }

  lemma StepKeepsInv(s: State, e: Event)
    requires Inv(s) && Enabled(s, e) && LongWritesNoCopies(s, e)
    ensures Inv(Apply(s, e))
  {
    StepIsSafe(s, e);
    if e.Deliver? {
      assert Truthful(s.snd, s.net[e.i]);
    }
  }

  lemma {:induction false} RunsKeepInv(s: State, es: seq<Event>)
    requires Inv(s) && Runs(LongWritesNoCopies, s, es)
    ensures Inv(After(LongWritesNoCopies, s, es))
    ensures Runs(Long.LongUndisturbedWrites, s, es)
    ensures After(Long.LongUndisturbedWrites, s, es) == After(LongWritesNoCopies, s, es)
    decreases |es|
  {
    if es != [] {
      StepKeepsInv(s, es[0]);
      RunsKeepInv(Apply(s, es[0]), es[1..]);
    }
  }

  /** At most one message in flight, none once `write` has returned; and the stream is gap-free. */
  lemma AtMostOneInFlight(es: seq<Event>)
    requires Runs(LongWritesNoCopies, INIT, es)
    ensures
      var s := After(LongWritesNoCopies, INIT, es);
      && |s.net| <= 1
      && (s.writer.Idle? ==> s.net == [])
      && s.rcv.sizep <= |AllWrites(es)|
      && Safe(s) && s.rcv.buf[..s.rcv.sizep] == AllWrites(es)[..s.rcv.sizep]
      && ReadTotal(es) <= |AllWrites(es)| && s.output == AllWrites(es)[..ReadTotal(es)]
  {
    RunsKeepInv(INIT, es);
    Long.LongWritesAreGapFree(es);
  }

  // ---- how many segments a write takes ----

  /** ceil(n / 1000) */
  function SegmentsFor(n: nat): nat {
    (n + SEGMENT_SIZE - 1) / SEGMENT_SIZE
  }

  /** One write in progress, from the state `s0` in which it was called: no loss, no copies, no other write. */
  predicate OneWrite(s: State, e: Event) {
    e.Send? || e.Return? || e.Deliver? || e.Read?
  }

  /** After `k` acknowledgements of the write that began at `base`, everything up to segment `k` is across. */
  ghost predicate Progress(s: State, s0: State) {
    var base := s0.snd.sizep;
    var k := s.acksSent - s0.acksSent;
    && Inv(s) && 0 <= base <= s.snd.sizep
    && (match s.writer
        case Appended(b) => b == base && s.dataSent == s0.dataSent && k == 0
        case Spinning(_) => (
          if s.net == [] then
            s.snd.writep == s.snd.sizep && s.dataSent == s0.dataSent + k && k == SegmentsFor(s.snd.sizep - base)
          else match s.net[0]
            case Data(seqno, bytes) =>
              && k >= 0 && seqno == base + SEGMENT_SIZE * k
              && s.dataSent == s0.dataSent + k + 1
              && |bytes| == Min(SEGMENT_SIZE, s.snd.sizep - seqno) && 0 < |bytes|
            case Ack(next) =>
              && k >= 1 && base + SEGMENT_SIZE * (k - 1) < s.snd.sizep
              && next == Min(base + SEGMENT_SIZE * k, s.snd.sizep)
              && s.dataSent == s0.dataSent + k)
        case Idle => s.dataSent == s0.dataSent + k && k == SegmentsFor(s.snd.sizep - base))
  }

  lemma StepKeepsProgress(s: State, s0: State, e: Event)
    requires Progress(s, s0) && Enabled(s, e) && OneWrite(s, e)
    ensures Progress(Apply(s, e), s0) && Apply(s, e).snd.sizep == s.snd.sizep
  {
    StepKeepsInv(s, e);
    if e.Deliver? {
      assert Truthful(s.snd, s.net[e.i]);
    }
  }

  lemma {:induction false} RunsKeepProgress(s: State, s0: State, es: seq<Event>)
    requires Progress(s, s0) && Runs(OneWrite, s, es)
    ensures Progress(After(OneWrite, s, es), s0) && After(OneWrite, s, es).snd.sizep == s.snd.sizep
    decreases |es|
  {
    if es != [] {
      StepKeepsProgress(s, s0, es[0]);
      RunsKeepProgress(Apply(s, es[0]), s0, es[1..]);
    }
  }

  /** A write of n bytes that has returned used exactly ceil(n / 1000) segments and as many acknowledgements. */
  lemma WriteUsesFewestSegments(s: State, data: seq<uint8>, es: seq<Event>)
    requires Inv(s) && Enabled(s, Append(data)) && |data| > SEGMENT_SIZE
    requires Runs(OneWrite, Apply(s, Append(data)), es)
    requires After(OneWrite, Apply(s, Append(data)), es).writer.Idle?
    ensures
      var s' := After(OneWrite, Apply(s, Append(data)), es);
      s'.dataSent - s.dataSent == SegmentsFor(|data|) == s'.acksSent - s.acksSent
  {
    StepKeepsInv(s, Append(data));
    RunsKeepProgress(Apply(s, Append(data)), s, es);
  }

  /** A write of at most 1000 bytes that finds nothing unsent goes out as one segment and returns without waiting. */
  lemma ShortWriteReturnsAtOnce(s: State, data: seq<uint8>)
    requires Safe(s) && Enabled(s, Append(data)) && s.snd.writep == s.snd.sizep && |data| <= SEGMENT_SIZE
    ensures Enabled(Apply(s, Append(data)), Send)
    ensures
      var s' := Apply(Apply(s, Append(data)), Send);
      s'.net == s.net + [Data(s.snd.sizep, data)] && Enabled(s', Return)
  {
  }
}
