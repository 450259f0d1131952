/** What a copied segment can do to the close: runs that show it, and exactly from which states it can happen. */
module ConnectionCopies {
  import opened Segments
  import opened Connection
  import opened ConnectionSafety

  ghost predicate Reachable(s: State) {
    exists es :: Runs(AnyNetwork, INIT, es) && After(AnyNetwork, INIT, es) == s
  }

  lemma Step(s: State, e: Event, s': State)
    requires Reachable(s) && Enabled(s, e) && Apply(s, e) == s'
    ensures Reachable(s')
  {
    var es :| Runs(AnyNetwork, INIT, es) && After(AnyNetwork, INIT, es) == s;
    RunsExtend(AnyNetwork, INIT, es, e);
  }

  lemma Start()
    ensures Reachable(State(SynSent, Listen, Closed, false, false, [SYN], []))
  {
    assert Runs(AnyNetwork, INIT, []) && After(AnyNetwork, INIT, []) == INIT;
    Step(INIT, Connect, State(SynSent, Listen, Closed, false, false, [SYN], []));
  }

  lemma Handshake()
    ensures Reachable(State(Estab, SynRcvd, Closed, false, false, [ACK], []))
  {
    var s1 := State(SynSent, Listen, Closed, false, false, [SYN], []);
    var s2 := State(SynSent, SynRcvd, Closed, false, false, [], [SYN_ACK]);
    Start();
    Step(s1, ToServer(0), s2);
    Step(s2, ToClient(0, false), State(Estab, SynRcvd, Closed, false, false, [ACK], []));
  }

  lemma HandshakeAckIsCopied()
    ensures Reachable(State(Estab, Estab, Closed, false, false, [ACK], []))
  {
    var s1 := State(Estab, SynRcvd, Closed, false, false, [ACK], []);
    var s2 := State(Estab, SynRcvd, Closed, false, false, [ACK, ACK], []);
    Handshake();
    Step(s1, CopyToServer(0), s2);
    Step(s2, ToServer(0), State(Estab, Estab, Closed, false, false, [ACK], []));
  }

  lemma AckOutlivesClose()
    ensures Reachable(State(FinWait1, LastAck, Closed, false, false, [ACK], [ACK, FIN]))
  {
    var s1 := State(Estab, Estab, Closed, false, false, [ACK], []);
    var s2 := State(FinWait1, Estab, Closed, false, false, [ACK, FIN], []);
    HandshakeAckIsCopied();
    Step(s1, Close, s2);
    Step(s2, ToServer(1), State(FinWait1, LastAck, Closed, false, false, [ACK], [ACK, FIN]));
  }

  /** A copy of the handshake acknowledgement completes LASTACK before the client has the server's FIN. */
  lemma CopiedHandshakeAckClosesEarly()
    ensures exists es ::
      Runs(AnyNetwork, INIT, es) &&
      var s := After(AnyNetwork, INIT, es); s.conn == Closed && s.cli == FinWait1
  {
    AckOutlivesClose();
    Step(State(FinWait1, LastAck, Closed, false, false, [ACK], [ACK, FIN]), ToServer(0),
         State(FinWait1, Closed, Closed, false, false, [], [ACK, FIN]));
  }

  lemma HandshakeWithLateSyn()
    ensures Reachable(State(SynSent, SynRcvd, Closed, false, false, [SYN], [SYN_ACK]))
  {
    var s1 := State(SynSent, Listen, Closed, false, false, [SYN], []);
    var s2 := State(SynSent, Listen, Closed, false, false, [SYN, SYN], []);
    Start();
    Step(s1, CopyToServer(0), s2);
    Step(s2, ToServer(0), State(SynSent, SynRcvd, Closed, false, false, [SYN], [SYN_ACK]));
  }

  lemma LateSynWithCopiedAck()
    ensures Reachable(State(Estab, SynRcvd, Closed, false, false, [SYN, ACK, ACK], []))
  {
    var s1 := State(SynSent, SynRcvd, Closed, false, false, [SYN], [SYN_ACK]);
    var s2 := State(Estab, SynRcvd, Closed, false, false, [SYN, ACK], []);
    HandshakeWithLateSyn();
    Step(s1, ToClient(0, false), s2);
    Step(s2, CopyToServer(1), State(Estab, SynRcvd, Closed, false, false, [SYN, ACK, ACK], []));
  }

  /** A copied SYN is still in flight, with a copy of the handshake acknowledgement, when `accept` returns. */
  lemma AcceptReturnsBeforeLateSyn()
    ensures Reachable(State(Estab, Estab, Listen, true, false, [SYN, ACK], []))
  {
    var s1 := State(Estab, SynRcvd, Closed, false, false, [SYN, ACK, ACK], []);
    var s2 := State(Estab, Estab, Closed, false, false, [SYN, ACK], []);
    LateSynWithCopiedAck();
    Step(s1, ToServer(1), s2);
    Step(s2, AcceptReturns, State(Estab, Estab, Listen, true, false, [SYN, ACK], []));
  }

  /** Both copies go to the listening socket and bring it to ESTAB. */
  lemma ListenerTakesOver()
    ensures Reachable(State(Estab, Estab, Estab, true, true, [], [SYN_ACK]))
  {
    var s1 := State(Estab, Estab, Listen, true, false, [SYN, ACK], []);
    var s2 := State(Estab, Estab, SynRcvd, true, true, [ACK], [SYN_ACK]);
    AcceptReturnsBeforeLateSyn();
    Step(s1, ToServer(0), s2);
    Step(s2, ToServer(0), State(Estab, Estab, Estab, true, true, [], [SYN_ACK]));
  }

  lemma ListenerGetsFin()
    ensures Reachable(State(FinWait1, Estab, LastAck, true, true, [], [SYN_ACK, ACK, FIN]))
  {
    var s1 := State(Estab, Estab, Estab, true, true, [], [SYN_ACK]);
    var s2 := State(FinWait1, Estab, Estab, true, true, [FIN], [SYN_ACK]);
    ListenerTakesOver();
    Step(s1, Close, s2);
    Step(s2, ToServer(0), State(FinWait1, Estab, LastAck, true, true, [], [SYN_ACK, ACK, FIN]));
  }

  /**
   A copied SYN that arrives after `accept` has returned: the listening socket takes over, the client finishes
   closing with it, and the connection's own socket stays in ESTAB.
   */
  lemma CopiedSynDivertsClose()
    ensures exists es ::
      Runs(AnyNetwork, INIT, es) &&
      var s := After(AnyNetwork, INIT, es); s.cli == TimeWait && s.conn == Estab && s.captured
  {
    var s1 := State(FinWait1, Estab, LastAck, true, true, [], [SYN_ACK, ACK, FIN]);
    var s2 := State(FinWait2, Estab, LastAck, true, true, [], [SYN_ACK, FIN]);
    ListenerGetsFin();
    Step(s1, ToClient(1, false), s2);
    Step(s2, ToClient(1, false), State(TimeWait, Estab, LastAck, true, true, [ACK], [SYN_ACK]));
  }

  // ---- exactly when ----

  /** The run closes the connection's socket before the client has the server's FIN. */
  predicate ClosesEarly(s: State, es: seq<Event>) {
    && Runs(AnyNetwork, s, es)
    && After(AnyNetwork, s, es).conn == Closed && !ClientGotFin(After(AnyNetwork, s, es))
  }

  /** An acknowledgement that would close the connection's socket exists only once the client has the FIN. */
  ghost predicate NoEarlyAck(s: State) {
    && Inv(s) && s.conn in {LastAck, Closed}
    && (ACK in s.toSrv && !s.captured ==> ClientGotFin(s))
    && (s.conn == Closed ==> ClientGotFin(s))
  }

  lemma StepKeepsNoEarlyAck(s: State, e: Event)
    requires NoEarlyAck(s) && Enabled(s, e)
    ensures NoEarlyAck(Apply(s, e))
  {
    StepKeepsInv(s, e);
    if s.captured {
      CapturedStepKeepsConn(s, e);
    }
    if e.ToClient? {
      assert ToClientIsJustified(s, s.toCli[e.i]);
    }
  }

  lemma {:induction false} RunsKeepNoEarlyAck(s: State, es: seq<Event>)
    requires NoEarlyAck(s) && Runs(AnyNetwork, s, es)
    ensures NoEarlyAck(After(AnyNetwork, s, es))
    decreases |es|
  {
    if es != [] {
      StepKeepsNoEarlyAck(s, es[0]);
      RunsKeepNoEarlyAck(Apply(s, es[0]), es[1..]);
    }
  }

  lemma AckInFlightClosesEarly(s: State) returns (es: seq<Event>)
    requires Inv(s) && s.conn == LastAck && !s.captured && !ClientGotFin(s) && ACK in s.toSrv
    ensures ClosesEarly(s, es)
  {
    var i: nat :| i < |s.toSrv| && s.toSrv[i] == ACK;
    es := [] + [ToServer(i)];
    RunsExtend(AnyNetwork, s, [], ToServer(i));
  }

  /**
   A socket in LASTACK whose FIN the client has not got can close too early if and only if an acknowledgement is
   already on its way to it: after the client has closed, no network makes one out of anything else.
   */
  lemma EarlyCloseIff(s: State)
    requires Inv(s) && s.conn == LastAck && !ClientGotFin(s)
    ensures ACK in s.toSrv && !s.captured <==> exists es :: ClosesEarly(s, es)
  {
    if ACK in s.toSrv && !s.captured {
      var es := AckInFlightClosesEarly(s);
    } else {
      forall es | Runs(AnyNetwork, s, es)
        ensures !ClosesEarly(s, es)
      {
        RunsKeepNoEarlyAck(s, es);
      }
    }
  }

  /**
   A SYN that the listening socket takes settles what becomes of the connection's own socket: it stays in the state
   it is in, so a client that has reached TIMEWAIT has closed with it if and only if it was past ESTAB by then.
   */
  lemma LateSynDivertsIff(s: State, i: nat, es: seq<Event>)
    requires Inv(s) && i < |s.toSrv| && s.toSrv[i] == SYN && s.lst == Listen
    requires Runs(AnyNetwork, Apply(s, ToServer(i)), es)
    ensures
      var s' := After(AnyNetwork, Apply(s, ToServer(i)), es);
      s'.conn == s.conn && (s'.conn in {LastAck, Closed} <==> s.conn != Estab)
  {
    StepKeepsInv(s, ToServer(i));
    CapturedKeepsConn(Apply(s, ToServer(i)), es);
  }
}
