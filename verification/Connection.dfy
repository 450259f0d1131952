/**
 Opening and closing a connection as two hosts and a network.  The client has one socket; the server has the
 connection's socket, made by `accept`, and the listening socket it was copied from, which can be reached by a
 late SYN.  Segments carry only their control bits here; data segments are those without any.
 */
module Connection {
  import opened Channels
  import opened Segments

  /**
   `captured`: the listening socket took a SYN after `accept` had returned; its address then matches the
   connection, and being first in the socket map it receives everything that follows.
   */
  datatype State = State(
    cli: Status,
    conn: Status,
    lst: Status,
    accepted: bool,
    captured: bool,
    toSrv: seq<Flags>,
    toCli: seq<Flags>)

  datatype Event =
    | Connect
    | AcceptReturns
    | Write
    | Close
    | ToServer(i: nat)
    | ToClient(i: nat, more: bool)
    | DropToServer(i: nat)
    | DropToClient(i: nat)
    | CopyToServer(i: nat)
    | CopyToClient(i: nat)

  /** `accept` is waiting: its socket listens and the one it copied is closed meanwhile. */
  const INIT := State(Unset, Listen, Closed, false, false, [], [])

  datatype Target = Listener | Connected | Nobody

  /** Which of the server's sockets `recvIPPacket` picks; the listening socket has the lower descriptor. */
  function Demux(s: State, f: Flags): Target {
    if f.syn && !f.ack then
      if s.lst == Listen then Listener else if s.conn == Listen then Connected else Nobody
    else if s.captured || s.conn == Listen then Listener
    else Connected
  }

  /** What a server socket sends in answer; a bound socket ignores acknowledgements of data. */
  function ServerReplies(st: Status, f: Flags): seq<Flags> {
    var r := React(st, f);
    if r.toStream then (if f.ack then [] else [ACK]) else r.replies
  }

  /** What the client sends in answer; whether an acknowledgement draws more data is the stream's business. */
  function ClientReplies(st: Status, f: Flags, more: bool): seq<Flags> {
    var r := React(st, f);
    if r.toStream then (if !f.ack then [ACK] else if more then [NONE] else []) else r.replies
  }

  predicate AfterEstab(st: Status) {
    st in {Estab, LastAck, Closed}
  }

  predicate Enabled(s: State, e: Event) {
    match e
    case Connect => s.cli == Unset
    case AcceptReturns => !s.accepted && AfterEstab(s.conn)
    case Write => s.cli == Estab
    case Close => s.cli == Estab
    case ToServer(i) => i < |s.toSrv|
    case ToClient(i, _) => i < |s.toCli|
    case DropToServer(i) => i < |s.toSrv|
    case DropToClient(i) => i < |s.toCli|
    case CopyToServer(i) => i < |s.toSrv|
    case CopyToClient(i) => i < |s.toCli|
  }

  function Apply(s: State, e: Event): State
    requires Enabled(s, e)
  {
    match e
    case Connect => s.(cli := SynSent, toSrv := s.toSrv + [SYN])
    case AcceptReturns => s.(accepted := true, lst := Listen)
    case Write => s.(toSrv := s.toSrv + [NONE])
    case Close => s.(cli := FinWait1, toSrv := s.toSrv + [FIN])
    case ToServer(i) => (
      var f := s.toSrv[i];
      var s1 := s.(toSrv := Without(s.toSrv, i));
      match Demux(s, f)
      case Nobody => s1
      case Connected => s1.(conn := React(s.conn, f).status, toCli := s.toCli + ServerReplies(s.conn, f))
      case Listener =>
        s1.(lst := React(s.lst, f).status, toCli := s.toCli + ServerReplies(s.lst, f),
            captured := s.captured || (f.syn && !f.ack)))
    case ToClient(i, more) =>
      var f := s.toCli[i];
      s.(cli := React(s.cli, f).status, toCli := Without(s.toCli, i),
         toSrv := s.toSrv + ClientReplies(s.cli, f, more))
    case DropToServer(i) => s.(toSrv := Without(s.toSrv, i))
    case DropToClient(i) => s.(toCli := Without(s.toCli, i))
    case CopyToServer(i) => s.(toSrv := s.toSrv + [s.toSrv[i]])
    case CopyToClient(i) => s.(toCli := s.toCli + [s.toCli[i]])
  }

  predicate Runs(ok: (State, Event) -> bool, s: State, es: seq<Event>)
    decreases |es|
  {
    es == [] || (Enabled(s, es[0]) && ok(s, es[0]) && Runs(ok, Apply(s, es[0]), es[1..]))
  }

  function After(ok: (State, Event) -> bool, s: State, es: seq<Event>): State
    requires Runs(ok, s, es)
    decreases |es|
  {
    if es == [] then s else After(ok, Apply(s, es[0]), es[1..])
  }

  lemma {:induction false} RunsExtend(ok: (State, Event) -> bool, s: State, es: seq<Event>, e: Event)
    requires Runs(ok, s, es) && Enabled(After(ok, s, es), e) && ok(After(ok, s, es), e)
    ensures Runs(ok, s, es + [e]) && After(ok, s, es + [e]) == Apply(After(ok, s, es), e)
    decreases |es|
  {
    if es == [] {
      assert es + [e] == [e];
    } else {
      assert (es + [e])[1..] == es[1..] + [e];
      RunsExtend(ok, Apply(s, es[0]), es[1..], e);
    }
  }

  predicate AnyNetwork(s: State, e: Event) {
    true
  }

  /** Nothing is copied; loss and reordering are allowed. */
  predicate NoCopies(s: State, e: Event) {
    !e.CopyToServer? && !e.CopyToClient?
  }

  predicate Lossless(s: State, e: Event) {
    NoCopies(s, e) && !e.DropToServer? && !e.DropToClient?
  }
}

/** Joint invariants under any loss, duplication and reordering. */
module ConnectionSafety {
  import opened Segments
  import opened Connection

  predicate ClientPastEstab(s: State) {
    s.cli in {Estab, FinWait1, FinWait2, Closing, TimeWait}
  }

  predicate ClientHasClosed(s: State) {
    s.cli in {FinWait1, FinWait2, Closing, TimeWait}
  }

  predicate ClientGotFin(s: State) {
    s.cli in {Closing, TimeWait}
  }

  predicate ServerPastEstab(s: State) {
    AfterEstab(s.conn) || (s.captured && AfterEstab(s.lst))
  }

  /** Some server socket has seen the client's FIN and sent its own. */
  predicate ServerSentFin(s: State) {
    s.conn in {LastAck, Closed} || (s.captured && s.lst in {LastAck, Closed})
  }

  predicate ToServerIsJustified(s: State, f: Flags) {
    match f
    case Flags(true, false, false) => s.cli != Unset
    case Flags(false, true, false) => ClientHasClosed(s)
    case Flags(false, false, _) => ClientPastEstab(s)
    case _ => false
  }

  predicate ToClientIsJustified(s: State, f: Flags) {
    match f
    case Flags(true, false, true) => s.conn != Listen
    case Flags(false, true, false) => ServerSentFin(s)
    case Flags(false, false, true) => ClientPastEstab(s)
    case _ => false
  }

  predicate StatesAreKnown(s: State) {
    && (s.cli in {Unset, SynSent} || ClientPastEstab(s))
    && (s.conn in {Listen, SynRcvd} || AfterEstab(s.conn))
    && (if s.captured then s.accepted && (s.lst == SynRcvd || AfterEstab(s.lst))
        else s.lst == if s.accepted then Listen else Closed)
    && (s.accepted ==> AfterEstab(s.conn))
  }

  ghost predicate Inv(s: State) {
    && StatesAreKnown(s)
    && (forall f :: f in s.toSrv ==> ToServerIsJustified(s, f))
    && (forall f :: f in s.toCli ==> ToClientIsJustified(s, f))
    && (ClientPastEstab(s) ==> s.conn != Listen)
    && (ServerPastEstab(s) ==> ClientPastEstab(s))
    && (ServerSentFin(s) ==> ClientHasClosed(s))
    && (ClientGotFin(s) ==> ServerSentFin(s))
  }

  lemma ToServerKeepsInv(s: State, i: nat)
    requires Inv(s) && Enabled(s, ToServer(i))
    ensures Inv(Apply(s, ToServer(i)))
  {
    assert ToServerIsJustified(s, s.toSrv[i]);
    var s' := Apply(s, ToServer(i));
    forall f | f in s'.toSrv
      ensures ToServerIsJustified(s', f)
    {
      assert ToServerIsJustified(s, f);
    }
    forall f | f in s'.toCli
      ensures ToClientIsJustified(s', f)
    {
      assert f in s.toCli ==> ToClientIsJustified(s, f);
    }
  }

  lemma ToClientKeepsInv(s: State, i: nat, more: bool)
    requires Inv(s) && Enabled(s, ToClient(i, more))
    ensures Inv(Apply(s, ToClient(i, more)))
  {
    assert ToClientIsJustified(s, s.toCli[i]);
    var s' := Apply(s, ToClient(i, more));
    forall f | f in s'.toSrv
      ensures ToServerIsJustified(s', f)
    {
      assert f in s.toSrv ==> ToServerIsJustified(s, f);
    }
    forall f | f in s'.toCli
      ensures ToClientIsJustified(s', f)
    {
      assert ToClientIsJustified(s, f);
    }
  }

  lemma StepKeepsInv(s: State, e: Event)
    requires Inv(s) && Enabled(s, e)
    ensures Inv(Apply(s, e))
  {
    match e
    case ToServer(i) => ToServerKeepsInv(s, i);
    case ToClient(i, more) => ToClientKeepsInv(s, i, more);
    case _ =>
      var s' := Apply(s, e);
      forall f | f in s'.toSrv
        ensures ToServerIsJustified(s', f)
      {
        assert f in s.toSrv ==> ToServerIsJustified(s, f);
      }
      forall f | f in s'.toCli
        ensures ToClientIsJustified(s', f)
      {
        assert ToClientIsJustified(s, f);
      }
  }

  lemma {:induction false} RunsKeepInv(ok: (State, Event) -> bool, s: State, es: seq<Event>)
    requires Inv(s) && Runs(ok, s, es)
    ensures Inv(After(ok, s, es))
    decreases |es|
  {
    if es != [] {
      StepKeepsInv(s, es[0]);
      RunsKeepInv(ok, Apply(s, es[0]), es[1..]);
    }
  }

  // ---- late SYNs ----

  /** The listening socket takes a SYN of a connection whose own socket has not seen the FIN yet. */
  predicate Diverts(s: State, e: Event) {
    e.ToServer? && e.i < |s.toSrv| && s.toSrv[e.i] == SYN && s.lst == Listen && s.conn == Estab
  }

  predicate Diverted(s: State, es: seq<Event>)
    requires Runs(AnyNetwork, s, es)
    decreases |es|
  {
    es != [] && (Diverts(s, es[0]) || Diverted(Apply(s, es[0]), es[1..]))
  }

  /** Once the listening socket has taken over, nothing reaches the connection's own socket any more. */
  lemma CapturedStepKeepsConn(s: State, e: Event)
    requires Inv(s) && s.captured && Enabled(s, e)
    ensures Apply(s, e).captured && Apply(s, e).conn == s.conn && !Diverts(s, e)
  {
  }

  lemma {:induction false} CapturedKeepsConn(s: State, es: seq<Event>)
    requires Inv(s) && s.captured && Runs(AnyNetwork, s, es)
    ensures After(AnyNetwork, s, es).captured && After(AnyNetwork, s, es).conn == s.conn
    decreases |es|
  {
    if es != [] {
      StepKeepsInv(s, es[0]);
      CapturedStepKeepsConn(s, es[0]);
      CapturedKeepsConn(Apply(s, es[0]), es[1..]);
    }
  }

  /** It takes over with a SYN and leaves the other socket as it is. */
  lemma StepCaptures(s: State, e: Event)
    requires Inv(s) && Enabled(s, e) && !s.captured
    ensures Apply(s, e).captured ==> Apply(s, e).conn == s.conn && (Diverts(s, e) <==> s.conn == Estab)
    ensures Diverts(s, e) ==> Apply(s, e).captured
  {
    if e.ToServer? {
      assert ToServerIsJustified(s, s.toSrv[e.i]);
    }
  }

  /** A run diverts the close exactly when it ends with the connection's own socket cut off in ESTAB. */
  lemma {:induction false} DivertedLeavesEstab(s: State, es: seq<Event>)
    requires Inv(s) && Runs(AnyNetwork, s, es) && (s.captured ==> s.conn != Estab)
    ensures
      var s' := After(AnyNetwork, s, es);
      Diverted(s, es) <==> s'.captured && s'.conn == Estab
    decreases |es|
  {
    if es != [] {
      var s1 := Apply(s, es[0]);
      StepKeepsInv(s, es[0]);
      if s.captured {
        CapturedStepKeepsConn(s, es[0]);
      } else {
        StepCaptures(s, es[0]);
      }
      if Diverts(s, es[0]) {
        CapturedKeepsConn(s1, es[1..]);
      } else {
        DivertedLeavesEstab(s1, es[1..]);
      }
    }
  }

  /**
   In every reachable state, whatever the network did, the two ends have progressed in step.  A client in TIMEWAIT
   has closed with the connection's own socket if and only if no SYN has been diverted from it.
   */
  lemma EndsProgressInStep(es: seq<Event>)
    requires Runs(AnyNetwork, INIT, es)
    ensures
      var s := After(AnyNetwork, INIT, es);
      && (ServerPastEstab(s) ==> ClientPastEstab(s))
      && (s.conn == LastAck || s.lst == LastAck ==> ClientHasClosed(s))
      && (s.cli == TimeWait ==> ServerSentFin(s))
      && (s.cli == TimeWait ==> (s.conn in {LastAck, Closed} <==> !Diverted(INIT, es)))
      && (s.cli == TimeWait && !s.captured ==> s.conn in {LastAck, Closed})
  {
    RunsKeepInv(AnyNetwork, INIT, es);
    DivertedLeavesEstab(INIT, es);
  }
}
