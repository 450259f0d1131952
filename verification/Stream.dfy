/**
 The byte-stream protocol as two endpoints and a network.  The client writes, the server reads;
 each step is one critical section of the source, so that `write` is three steps (append, send,
 return) between which packets may be processed.
 */
module Stream {
  import opened Bytes
  import opened Channels
  import opened Endpoints

  /** Where the writing thread is: between `mywrite` and the lock, or spinning on the marks. */
  datatype Writer = Idle | Appended(base: nat) | Spinning(base: nat)

  /**
   `filled`, `output`, `dataSent` and `acksSent` record history: the receiver cells ever stored to,
   the concatenation of all `read` results, and how many segments and acknowledgements were sent.
   */
  datatype State = State(
    snd: Endpoint,
    rcv: Endpoint,
    writer: Writer,
    net: seq<Message>,
    filled: set<nat>,
    output: seq<uint8>,
    dataSent: nat,
    acksSent: nat)

  datatype Event =
    | Append(data: seq<uint8>)
    | Send
    | Return
    | Deliver(i: nat)
    | Drop(i: nat)
    | Duplicate(i: nat)
    | Read(len: nat)

  const INIT := State(FRESH_ENDPOINT, FRESH_ENDPOINT, Idle, [], {}, [], 0, 0)

  /** The bytes written so far. */
  function Written(s: State): seq<uint8>
    requires Fits(s.snd)
  {
    s.snd.buf[..s.snd.sizep]
  }

  function Range(lo: nat, hi: nat): (r: set<nat>)
    ensures forall j :: j in r <==> lo <= j < hi
    decreases hi - lo
  {
    if lo >= hi then {} else {lo} + Range(lo + 1, hi)
  }

  /** When a step can be taken.  The buffer bounds are the ones the source relies on without testing. */
  predicate Enabled(s: State, e: Event) {
    match e
    case Append(data) => s.writer.Idle? && Fits(s.snd) && s.snd.sizep + |data| <= CAPACITY
    case Send => s.writer.Appended? && Fits(s.snd) && 0 <= s.snd.writep <= s.snd.sizep
    case Return => s.writer.Spinning? && s.snd.writep == s.snd.sizep
    case Deliver(i) => i < |s.net| && CopyInBounds(s, s.net[i])
    case Drop(i) => i < |s.net|
    case Duplicate(i) => i < |s.net|
    case Read(len) => Fits(s.rcv) && 0 <= s.rcv.readp && s.rcv.readp + len <= s.rcv.sizep
  }

  predicate CopyInBounds(s: State, m: Message) {
    match m
    case Data(seqno, bytes) => Fits(s.rcv) && seqno + |bytes| <= CAPACITY
    case Ack(_) => Fits(s.snd)
  }

  function Apply(s: State, e: Event): State
    requires Enabled(s, e)
  {
    match e
    case Append(data) => s.(snd := MyWrite(s.snd, data), writer := Appended(s.snd.sizep))
    case Send =>
      var (snd', m) := FirstSegment(s.snd);
      s.(snd := snd', writer := Spinning(s.writer.base), net := s.net + [m], dataSent := s.dataSent + 1)
    case Return => s.(writer := Idle)
    case Deliver(i) => (
      match s.net[i]
      case Data(seqno, bytes) =>
        var (rcv', m) := RecvData(s.rcv, seqno, bytes);
        s.(rcv := rcv', net := Without(s.net, i) + [m],
           filled := s.filled + Range(seqno, seqno + |bytes|), acksSent := s.acksSent + 1)
      case Ack(next) =>
        var (snd', out) := RecvAck(s.snd, next);
        s.(snd := snd', net := Without(s.net, i) + out, dataSent := s.dataSent + |out|))
    case Drop(i) => s.(net := Without(s.net, i))
    case Duplicate(i) => s.(net := s.net + [s.net[i]])
    case Read(len) =>
      var (rcv', bytes) := MyRead(s.rcv, len);
      s.(rcv := rcv', output := s.output + bytes)
  }

  /** A run from `s` all of whose steps the network and writer hypothesis `ok` allows. */
  predicate Runs(ok: (State, Event) -> bool, s: State, es: seq<Event>)
    decreases |es|
  {
    es == [] || (Enabled(s, es[0]) && ok(s, es[0]) && Runs(ok, Apply(s, es[0]), es[1..]))
  }

  function After(ok: (State, Event) -> bool, s: State, es: seq<Event>): State
    requires Runs(ok, s, es)
    decreases |es|
  {
    if es == [] then s else After(ok, Apply(s, es[0]), es[1..])
  }

  lemma {:induction false} RunsExtend(ok: (State, Event) -> bool, s: State, es: seq<Event>, e: Event)
    requires Runs(ok, s, es) && Enabled(After(ok, s, es), e) && ok(After(ok, s, es), e)
    ensures Runs(ok, s, es + [e]) && After(ok, s, es + [e]) == Apply(After(ok, s, es), e)
    decreases |es|
  {
    if es == [] {
      assert es + [e] == [e];
    } else {
      assert (es + [e])[1..] == es[1..] + [e];
      RunsExtend(ok, Apply(s, es[0]), es[1..], e);
    }
  }

  /** Any loss, duplication and reordering. */
  predicate AnyNetwork(s: State, e: Event) {
    true
  }
}

/** What holds under any loss, duplication and reordering, and any write sizes. */
module StreamSafety {
  import opened Bytes
  import opened Endpoints
  import opened Stream

  /** A message in flight says nothing but the truth about the written stream. */
  predicate Truthful(snd: Endpoint, m: Message)
    requires Fits(snd)
  {
    match m
    case Data(seqno, bytes) =>
      && |bytes| <= SEGMENT_SIZE
      && seqno + |bytes| <= snd.sizep
      && bytes == snd.buf[seqno..seqno + |bytes|]
    case Ack(next) => next <= snd.sizep
  }

  predicate WriterInBounds(s: State) {
    match s.writer
    case Idle => true
    case Appended(base) => base <= s.snd.sizep
    case Spinning(base) => base <= s.snd.sizep
  }

  ghost predicate Safe(s: State) {
    && Fits(s.snd) && Fits(s.rcv)
    && 0 <= s.snd.writep <= s.snd.sizep
    && 0 <= s.rcv.readp <= s.rcv.sizep <= s.snd.sizep
    && WriterInBounds(s)
    && (forall m :: m in s.net ==> Truthful(s.snd, m))
    && (forall j :: j in s.filled ==> j < s.rcv.sizep && s.rcv.buf[j] == s.snd.buf[j])
  }

  lemma AppendIsSafe(s: State, data: seq<uint8>)
    requires Safe(s) && Enabled(s, Append(data))
    ensures Safe(Apply(s, Append(data)))
    ensures Written(Apply(s, Append(data))) == Written(s) + data
  {
    var s' := Apply(s, Append(data));
    forall m | m in s'.net
      ensures Truthful(s'.snd, m)
    {
      assert Truthful(s.snd, m);
      if m.Data? {
        CopyKeepsBelow(s.snd.buf, s.snd.sizep, data, m.seqno, m.seqno + |m.bytes|);
      }
    }
  }

  lemma DeliverIsSafe(s: State, i: nat)
    requires Safe(s) && Enabled(s, Deliver(i))
    ensures Safe(Apply(s, Deliver(i)))
  {
    var s' := Apply(s, Deliver(i));
    var m := s.net[i];
    assert Truthful(s.snd, m);
    if m.Data? {
      forall j | j in s'.filled
        ensures j < s'.rcv.sizep && s'.rcv.buf[j] == s'.snd.buf[j]
      {
        if m.seqno <= j < m.seqno + |m.bytes| {
          assert m.bytes[j - m.seqno] == s.snd.buf[j];
        } else {
          assert j in s.filled;
        }
      }
    }
  }

  lemma StepIsSafe(s: State, e: Event)
    requires Safe(s) && Enabled(s, e)
    ensures Safe(Apply(s, e))
  {
    match e
    case Append(data) => AppendIsSafe(s, data);
    case Deliver(i) => DeliverIsSafe(s, i);
    case _ =>
  }

  lemma {:induction false} RunsAreSafe(ok: (State, Event) -> bool, s: State, es: seq<Event>)
    requires Safe(s) && Runs(ok, s, es)
    ensures Safe(After(ok, s, es))
    decreases |es|
  {
    if es != [] {
      StepIsSafe(s, es[0]);
      RunsAreSafe(ok, Apply(s, es[0]), es[1..]);
    }
  }

  /** The arguments of every `write` in a run, one after the other. */
  function AllWrites(es: seq<Event>): seq<uint8> {
    if es == [] then [] else (if es[0].Append? then es[0].data else []) + AllWrites(es[1..])
  }

  /** The sender's buffer is exactly the stream it was given: no step loses or alters written bytes. */
  lemma {:induction false} WrittenIsAllWrites(ok: (State, Event) -> bool, s: State, es: seq<Event>)
    requires Safe(s) && Runs(ok, s, es)
    ensures Safe(After(ok, s, es))
    ensures Written(After(ok, s, es)) == Written(s) + AllWrites(es)
    decreases |es|
  {
    if es != [] {
      StepIsSafe(s, es[0]);
      StepExtendsWritten(s, es[0]);
      WrittenIsAllWrites(ok, Apply(s, es[0]), es[1..]);
    }
  }

  lemma StepExtendsWritten(s: State, e: Event)
    requires Safe(s) && Enabled(s, e)
    ensures Safe(Apply(s, e)) && Written(Apply(s, e)) == Written(s) + if e.Append? then e.data else []
  {
    StepIsSafe(s, e);
    if e.Append? {
      AppendIsSafe(s, e.data);
    }
  }

  /** How many bytes the `read` calls of a run asked for, and got. */
  function ReadTotal(es: seq<Event>): nat {
    if es == [] then 0 else (if es[0].Read? then es[0].len else 0) + ReadTotal(es[1..])
  }

  /** Every `read` returns as many bytes as it asked for and moves the read mark on by as much. */
  lemma {:induction false} ReadsReturnWhatTheyAsk(ok: (State, Event) -> bool, s: State, es: seq<Event>)
    requires Runs(ok, s, es)
    ensures |After(ok, s, es).output| == |s.output| + ReadTotal(es)
    ensures After(ok, s, es).rcv.readp == s.rcv.readp + ReadTotal(es)
    decreases |es|
  {
    if es != [] {
      ReadsReturnWhatTheyAsk(ok, Apply(s, es[0]), es[1..]);
    }
  }

  lemma DeliveryIsEnabled(s: State, i: nat)
    requires Safe(s) && i < |s.net|
    ensures Enabled(s, Deliver(i))
  {
    assert Truthful(s.snd, s.net[i]);
  }

  /** No copy ever leaves a buffer: in a reachable state the bound that guards a delivery holds. */
  lemma DeliveryStaysInBounds(es: seq<Event>, i: nat)
    requires Runs(AnyNetwork, INIT, es)
    requires i < |After(AnyNetwork, INIT, es).net|
    ensures Enabled(After(AnyNetwork, INIT, es), Deliver(i))
  {
    RunsAreSafe(AnyNetwork, INIT, es);
    DeliveryIsEnabled(After(AnyNetwork, INIT, es), i);
  }
}
