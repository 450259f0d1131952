/** What loss and reordering without duplication leave certain about closing. */
module ConnectionNoCopies {
  import opened Channels
  import opened Segments
  import opened Connection
  import opened ConnectionSafety

  /**
   The client acknowledges twice in its life: when it enters ESTAB and when it gets the FIN.  The server uses
   up one acknowledgement to enter ESTAB and one to leave LASTACK.  There is one SYN.
   */
  predicate Budget(cli: Status, conn: Status, ack: int, syn: int) {
    && ack + One(AfterEstab(conn)) + One(conn == Closed)
       <= One(cli in {Estab, FinWait1, FinWait2, Closing, TimeWait}) + One(cli in {Closing, TimeWait})
    && syn + One(conn != Listen) <= One(cli != Unset)
  }

  ghost predicate Inv(s: State) {
    && ConnectionSafety.Inv(s) && !s.captured
    && Budget(s.cli, s.conn, multiset(s.toSrv)[ACK], multiset(s.toSrv)[SYN])
  }

  lemma ToServerKeepsInv(s: State, i: nat)
    requires Inv(s) && Enabled(s, ToServer(i))
    ensures Inv(Apply(s, ToServer(i)))
  {
    var f := s.toSrv[i];
    assert ToServerIsJustified(s, f) && multiset(s.toSrv)[f] >= 1;
    CountsAfter(s.toSrv, i, s.toSrv, [], ACK);
    CountsAfter(s.toSrv, i, s.toSrv, [], SYN);
    ServerKeepsBudget(s, f);
    ConnectionSafety.ToServerKeepsInv(s, i);
  }

  /** A SYN or an acknowledgement that moves the server's socket on is used up. */
  lemma ServerKeepsBudget(s: State, f: Flags)
    requires ConnectionSafety.StatesAreKnown(s) && !s.captured && multiset(s.toSrv)[f] >= 1
    requires Budget(s.cli, s.conn, multiset(s.toSrv)[ACK], multiset(s.toSrv)[SYN])
    requires f in {SYN, ACK, FIN, NONE} && (AfterEstab(s.conn) ==> s.cli != Unset)
    ensures f == SYN ==> Demux(s, f) == Connected
    ensures
      var conn := if Demux(s, f) == Connected then React(s.conn, f).status else s.conn;
      Budget(s.cli, conn, multiset(s.toSrv)[ACK] - One(f == ACK), multiset(s.toSrv)[SYN] - One(f == SYN))
  {
  }

  /** The client acknowledges the handshake and the FIN, and nothing else. */
  lemma CountAnswers(cli: Status, f: Flags, more: bool)
    requires f in {SYN_ACK, ACK, FIN} && (f == FIN ==> cli != Estab)
    ensures
      var replies := multiset(ClientReplies(cli, f, more));
      && replies[ACK] == One((f == FIN && cli in {FinWait1, FinWait2}) || (f == SYN_ACK && cli == SynSent))
      && replies[SYN] == 0
  {
    var replies := ClientReplies(cli, f, more);
    assert replies in {[], [ACK], [NONE]};
    assert [ACK] != [] && [NONE] != [] && [ACK][0] != [NONE][0];
  }

  /** Whatever the client answers with an acknowledgement, it also moves on to a state that allows for it. */
  lemma ClientKeepsBudget(cli: Status, conn: Status, f: Flags, more: bool, ack: nat, syn: nat)
    requires Budget(cli, conn, ack, syn) && f in {SYN_ACK, ACK, FIN}
    requires cli in {Unset, SynSent, Estab, FinWait1, FinWait2, Closing, TimeWait}
    requires f == FIN ==> cli != Estab
    ensures
      var replies := multiset(ClientReplies(cli, f, more));
      Budget(React(cli, f).status, conn, ack + replies[ACK], syn + replies[SYN])
  {
    CountAnswers(cli, f, more);
  }

  lemma ToClientKeepsInv(s: State, i: nat, more: bool)
    requires Inv(s) && Enabled(s, ToClient(i, more))
    ensures Inv(Apply(s, ToClient(i, more)))
  {
    var f := s.toCli[i];
    assert ToClientIsJustified(s, f);
    ClientKeepsBudget(s.cli, s.conn, f, more, multiset(s.toSrv)[ACK], multiset(s.toSrv)[SYN]);
    CountsAfter(s.toCli, i, s.toSrv, ClientReplies(s.cli, f, more), ACK);
    CountsAfter(s.toCli, i, s.toSrv, ClientReplies(s.cli, f, more), SYN);
    ConnectionSafety.ToClientKeepsInv(s, i, more);
  }

  lemma StepKeepsInv(s: State, e: Event)
    requires Inv(s) && Enabled(s, e) && NoCopies(s, e)
    ensures Inv(Apply(s, e))
  {
    match e
    case ToServer(i) => ToServerKeepsInv(s, i);
    case ToClient(i, more) => ToClientKeepsInv(s, i, more);
    case DropToServer(i) =>
      ConnectionSafety.StepKeepsInv(s, e);
      CountsAfter(s.toSrv, i, s.toSrv, [], ACK);
      CountsAfter(s.toSrv, i, s.toSrv, [], SYN);
    case _ => ConnectionSafety.StepKeepsInv(s, e);
  }

  lemma {:induction false} RunsKeepInv(s: State, es: seq<Event>)
    requires Inv(s) && Runs(NoCopies, s, es)
    ensures Inv(After(NoCopies, s, es))
    decreases |es|
  {
    if es != [] {
      StepKeepsInv(s, es[0]);
      RunsKeepInv(Apply(s, es[0]), es[1..]);
    }
  }

  /** Without duplication, the server's socket closes only after the client has the server's FIN. */
  lemma ServerClosesAfterClientGotFin(es: seq<Event>)
    requires Runs(NoCopies, INIT, es)
    ensures
      var s := After(NoCopies, INIT, es);
      && (s.conn == Closed ==> s.cli in {Closing, TimeWait})
      && !s.captured
  {
    RunsKeepInv(INIT, es);
  }
}
