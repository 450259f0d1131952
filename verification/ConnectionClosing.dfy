/** Which of the client's closing states a run is in: it depends on nothing but what has been delivered to the client. */
module ConnectionClosing {
  import opened Segments
  import opened Connection

  /** Some step of the run delivers a FIN to the client. */
  predicate FinDelivered(ok: (State, Event) -> bool, s: State, es: seq<Event>)
    requires Runs(ok, s, es)
    decreases |es|
  {
    es != [] &&
    ((es[0].ToClient? && IsFinSegment(s.toCli[es[0].i])) || FinDelivered(ok, Apply(s, es[0]), es[1..]))
  }

  /** Some step of the run delivers an acknowledgement to the client. */
  predicate AckDelivered(ok: (State, Event) -> bool, s: State, es: seq<Event>)
    requires Runs(ok, s, es)
    decreases |es|
  {
    es != [] &&
    ((es[0].ToClient? && IsAckSegment(s.toCli[es[0].i])) || AckDelivered(ok, Apply(s, es[0]), es[1..]))
  }

  function StateFor(fin: bool, ack: bool): Status {
    if fin && ack then TimeWait else if fin then Closing else if ack then FinWait2 else FinWait1
  }

  lemma {:induction false} ClosingTracks(ok: (State, Event) -> bool, s: State, es: seq<Event>, fin: bool, ack: bool)
    requires Runs(ok, s, es) && s.cli == StateFor(fin, ack)
    ensures After(ok, s, es).cli == StateFor(fin || FinDelivered(ok, s, es), ack || AckDelivered(ok, s, es))
    decreases |es|
  {
    if es != [] {
      var gotFin := es[0].ToClient? && IsFinSegment(s.toCli[es[0].i]);
      var gotAck := es[0].ToClient? && IsAckSegment(s.toCli[es[0].i]);
      ClosingTracks(ok, Apply(s, es[0]), es[1..], fin || gotFin, ack || gotAck);
    }
  }

  /**
   After `close`, on any network: TIMEWAIT means that a FIN and an acknowledgement have been delivered, in either
   order, CLOSING a FIN only, FINWAIT2 an acknowledgement only, and FINWAIT1 neither; and the other way round.
   */
  lemma ClientStateAfterClose(ok: (State, Event) -> bool, s: State, es: seq<Event>)
    requires Runs(ok, s, es) && s.cli == FinWait1
    ensures
      var cli := After(ok, s, es).cli;
      var fin, ack := FinDelivered(ok, s, es), AckDelivered(ok, s, es);
      && (cli == TimeWait <==> fin && ack) && (cli == Closing <==> fin && !ack)
      && (cli == FinWait2 <==> ack && !fin) && (cli == FinWait1 <==> !fin && !ack)
  {
    ClosingTracks(ok, s, es, false, false);
  }
}
