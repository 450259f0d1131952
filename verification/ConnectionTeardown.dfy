/**
 Closing completes: from both ends in ESTAB, once the client has closed, every lossless run without copies,
 in any order and with data and data acknowledgements still in flight, ends with both sides closed.
 */
module ConnectionTeardown {
  import opened Channels
  import opened Segments
  import opened Connection
  import opened ConnectionSafety
  import NoDup = ConnectionNoCopies

  /** How many of each segment are in flight in each joint state; only acknowledgements of data are uncounted. */
  predicate Balanced(conn: Status, cli: Status, fin: int, ack: int, finBack: int, ackBack: int) {
    match conn
    case Estab => fin == 1 && ack == 0 && finBack == 0 && cli in {FinWait1, FinWait2}
    case LastAck =>
      && fin == 0 && finBack + ack == 1
      && (cli == FinWait1 ==> finBack == 1 && ackBack >= 1)
      && (cli == FinWait2 ==> finBack == 1)
      && (cli == Closing ==> ack == 1 && ackBack >= 1)
      && (cli == TimeWait ==> ack == 1)
    case Closed =>
      && fin == 0 && finBack == 0 && ack == 0
      && (cli == TimeWait || (cli == Closing && ackBack >= 1))
    case _ => false
  }

  predicate InBalance(s: State) {
    Balanced(s.conn, s.cli, multiset(s.toSrv)[FIN], multiset(s.toSrv)[ACK], multiset(s.toCli)[FIN], multiset(s.toCli)[ACK])
  }

  ghost predicate Inv(s: State) {
    ConnectionSafety.Inv(s) && !s.captured && SYN !in s.toSrv && InBalance(s)
  }

  /** The server's side of the balance: a FIN is answered by an acknowledgement and a FIN, data by an acknowledgement. */
  lemma ServerKeepsBalance(conn: Status, cli: Status, f: Flags, fin: nat, ack: nat, finBack: nat, ackBack: nat)
    requires Balanced(conn, cli, fin, ack, finBack, ackBack)
    requires f in {FIN, ACK, NONE} && (f == FIN ==> fin >= 1) && (f == ACK ==> ack >= 1)
    requires cli in {FinWait1, FinWait2, Closing, TimeWait}
    ensures ServerReplies(conn, f) == if f == FIN then [ACK, FIN] else if f == NONE then [ACK] else []
    ensures Balanced(React(conn, f).status, cli, fin - One(f == FIN), ack - One(f == ACK),
                     finBack + One(f == FIN), ackBack + One(f != ACK))
  {
  }

  lemma ServerIsReached(s: State, i: nat)
    requires Inv(s) && Enabled(s, ToServer(i))
    ensures s.toSrv[i] in {FIN, ACK, NONE} && ClientHasClosed(s)
    ensures
      var f := s.toSrv[i];
      Apply(s, ToServer(i)) == s.(toSrv := Without(s.toSrv, i), conn := React(s.conn, f).status,
                                  toCli := s.toCli + ServerReplies(s.conn, f))
  {
    assert ToServerIsJustified(s, s.toSrv[i]);
  }

  lemma ToServerKeepsBalance(s: State, i: nat)
    requires Inv(s) && Enabled(s, ToServer(i))
    ensures InBalance(Apply(s, ToServer(i)))
  {
    var f, replies := s.toSrv[i], ServerReplies(s.conn, s.toSrv[i]);
    ServerIsReached(s, i);
    assert multiset(s.toSrv)[f] >= 1;
    ServerKeepsBalance(s.conn, s.cli, f, multiset(s.toSrv)[FIN], multiset(s.toSrv)[ACK],
                       multiset(s.toCli)[FIN], multiset(s.toCli)[ACK]);
    assert multiset(replies)[FIN] == One(f == FIN) && multiset(replies)[ACK] == One(f != ACK);
    CountsAfter(s.toSrv, i, s.toCli, replies, FIN);
    CountsAfter(s.toSrv, i, s.toCli, replies, ACK);
  }

  lemma ToServerKeepsInv(s: State, i: nat)
    requires Inv(s) && Enabled(s, ToServer(i))
    ensures Inv(Apply(s, ToServer(i)))
  {
    ServerIsReached(s, i);
    ToServerKeepsBalance(s, i);
    ConnectionSafety.ToServerKeepsInv(s, i);
  }

  /** The client's side of the balance: a FIN is answered by the last acknowledgement, nothing else is answered. */
  lemma ClientKeepsBalance(conn: Status, cli: Status, f: Flags, more: bool, fin: nat, ack: nat, finBack: nat, ackBack: nat)
    requires Balanced(conn, cli, fin, ack, finBack, ackBack)
    requires f in {FIN, ACK, SYN_ACK} && (f == FIN ==> finBack >= 1) && (f == ACK ==> ackBack >= 1)
    requires cli in {FinWait1, FinWait2, Closing, TimeWait}
    ensures ClientReplies(cli, f, more) == if f == FIN then [ACK] else []
    ensures Balanced(conn, React(cli, f).status, fin, ack + One(f == FIN), finBack - One(f == FIN), ackBack - One(f == ACK))
  {
  }

  lemma ClientIsReached(s: State, i: nat, more: bool)
    requires Inv(s) && Enabled(s, ToClient(i, more))
    ensures s.toCli[i] in {FIN, ACK, SYN_ACK} && ClientHasClosed(s)
    ensures ClientReplies(s.cli, s.toCli[i], more) == if s.toCli[i] == FIN then [ACK] else []
  {
    assert ToClientIsJustified(s, s.toCli[i]);
  }

  lemma ToClientKeepsBalance(s: State, i: nat, more: bool)
    requires InBalance(s) && Enabled(s, ToClient(i, more))
    requires s.toCli[i] in {FIN, ACK, SYN_ACK} && ClientHasClosed(s)
    ensures InBalance(Apply(s, ToClient(i, more)))
  {
    var f, replies := s.toCli[i], ClientReplies(s.cli, s.toCli[i], more);
    assert multiset(s.toCli)[f] >= 1;
    ClientKeepsBalance(s.conn, s.cli, f, more, multiset(s.toSrv)[FIN], multiset(s.toSrv)[ACK],
                       multiset(s.toCli)[FIN], multiset(s.toCli)[ACK]);
    assert multiset(replies)[FIN] == 0 && multiset(replies)[ACK] == One(f == FIN);
    CountsAfter(s.toCli, i, s.toSrv, replies, FIN);
    CountsAfter(s.toCli, i, s.toSrv, replies, ACK);
  }

  lemma ToClientKeepsInv(s: State, i: nat, more: bool)
    requires Inv(s) && Enabled(s, ToClient(i, more))
    ensures Inv(Apply(s, ToClient(i, more)))
  {
    ClientIsReached(s, i, more);
    ToClientKeepsBalance(s, i, more);
    ConnectionSafety.ToClientKeepsInv(s, i, more);
  }

  lemma StepKeepsInv(s: State, e: Event)
    requires Inv(s) && Enabled(s, e) && Lossless(s, e)
    ensures Inv(Apply(s, e))
  {
    match e
    case ToServer(i) => ToServerKeepsInv(s, i);
    case ToClient(i, more) => ToClientKeepsInv(s, i, more);
    case _ => ConnectionSafety.StepKeepsInv(s, e);
  }

  /** The most deliveries one segment can still lead to. */
  function ToServerWeight(f: Flags): nat {
    if f == FIN then 4 else if f == NONE then 2 else 1
  }

  function ToClientWeight(f: Flags): nat {
    if f == FIN then 2 else 1
  }

  function Measure(s: State): nat {
    Sum(ToServerWeight, s.toSrv) + Sum(ToClientWeight, s.toCli) + if s.accepted then 0 else 1
  }

  /** A segment weighs more than all it can draw in answer. */
  lemma AnswersWeighLess(st: Status, f: Flags, more: bool)
    ensures f in {FIN, ACK, NONE} ==> Sum(ToClientWeight, ServerReplies(st, f)) < ToServerWeight(f)
    ensures f in {FIN, ACK, SYN_ACK} && st !in {Estab, SynSent} ==>
              Sum(ToServerWeight, ClientReplies(st, f, more)) < ToClientWeight(f)
  {
    assert [ACK, FIN][1..] == [FIN];
    assert Sum(ToClientWeight, [FIN]) == 2;
  }

  lemma ToServerLowersMeasure(s: State, i: nat)
    requires Inv(s) && Enabled(s, ToServer(i))
    ensures Measure(Apply(s, ToServer(i))) < Measure(s)
  {
    ServerIsReached(s, i);
    SumAfter(ToServerWeight, s.toSrv, i, []);
    SumSplits(ToClientWeight, s.toCli, ServerReplies(s.conn, s.toSrv[i]));
    AnswersWeighLess(s.conn, s.toSrv[i], false);
  }

  lemma ToClientLowersMeasure(s: State, i: nat, more: bool)
    requires Inv(s) && Enabled(s, ToClient(i, more))
    ensures Measure(Apply(s, ToClient(i, more))) < Measure(s)
  {
    ClientIsReached(s, i, more);
    SumAfter(ToClientWeight, s.toCli, i, []);
    SumSplits(ToServerWeight, s.toSrv, ClientReplies(s.cli, s.toCli[i], more));
    AnswersWeighLess(s.cli, s.toCli[i], more);
  }

  lemma StepLowersMeasure(s: State, e: Event)
    requires Inv(s) && Enabled(s, e) && Lossless(s, e)
    ensures Measure(Apply(s, e)) < Measure(s)
  {
    match e
    case ToServer(i) => ToServerLowersMeasure(s, i);
    case ToClient(i, more) => ToClientLowersMeasure(s, i, more);
    case _ =>
  }

  lemma {:induction false} RunsTearDown(s: State, es: seq<Event>)
    requires Inv(s) && Runs(Lossless, s, es)
    ensures Inv(After(Lossless, s, es))
    ensures |es| + Measure(After(Lossless, s, es)) <= Measure(s)
    decreases |es|
  {
    if es != [] {
      StepKeepsInv(s, es[0]);
      StepLowersMeasure(s, es[0]);
      RunsTearDown(Apply(s, es[0]), es[1..]);
    }
  }

  /** However the run so far lost and reordered segments, it leaves nothing that can spoil the close. */
  lemma CloseStartsTeardown(es: seq<Event>)
    requires Runs(NoCopies, INIT, es)
    requires var s := After(NoCopies, INIT, es); s.cli == Estab && s.conn == Estab
    ensures Inv(Apply(After(NoCopies, INIT, es), Close))
  {
    NoDup.RunsKeepInv(INIT, es);
    var s := After(NoCopies, INIT, es);
    NoDup.StepKeepsInv(s, Close);
    assert FIN in s.toSrv ==> ToServerIsJustified(s, FIN);
    assert FIN in s.toCli ==> ToClientIsJustified(s, FIN);
    assert SYN in s.toSrv ==> multiset(s.toSrv)[SYN] >= 1;
  }

  /**
   From both ends in ESTAB, the client closing and the network losing nothing from then on: the run takes at
   most `Measure` steps, and when no segment is left the client is in TIMEWAIT and the server is CLOSED.
   */
  lemma CloseCompletes(before: seq<Event>, after: seq<Event>)
    requires Runs(NoCopies, INIT, before)
    requires var s := After(NoCopies, INIT, before); s.cli == Estab && s.conn == Estab
    requires Runs(Lossless, Apply(After(NoCopies, INIT, before), Close), after)
    ensures
      var s := Apply(After(NoCopies, INIT, before), Close);
      var s' := After(Lossless, s, after);
      && |after| <= Measure(s)
      && (s'.toSrv == [] && s'.toCli == [] ==> s'.cli == TimeWait && s'.conn == Closed)
  {
    CloseStartsTeardown(before);
    RunsTearDown(Apply(After(NoCopies, INIT, before), Close), after);
  }
}
