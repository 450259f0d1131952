/**
 The two-level packet queue.  The receiving thread pushes a packet on its socket's queue and then the socket's
 id on a global queue; the processing thread pops an id and then a packet from that socket's queue.  Every push
 and pop is one critical section; the threads interleave between them, and block while a queue is full or empty.
 */
module Pipeline {

  /** The capacity of each socket's queue and of the queue of ids. */
  datatype Config = Config(caps: map<int, nat>, idCap: nat)

  datatype Producer = Ready | Pushed(fd: int)

  datatype Consumer = Waiting | Holding(fd: int)

  /** `enqueued` and `processed` record the order in which packets entered and left. */
  datatype State<P> = State(
    input: seq<(int, P)>,
    queues: map<int, seq<P>>,
    ids: seq<int>,
    producer: Producer,
    consumer: Consumer,
    enqueued: seq<(int, P)>,
    processed: seq<(int, P)>)

  datatype Event = PushPacket | PushId | PopId | PopPacket

  function Start<P>(c: Config, input: seq<(int, P)>): State<P> {
    State(input, map fd | fd in c.caps :: [], [], Ready, Waiting, [], [])
  }

  /** Every packet is for a socket that exists. */
  predicate Routed<P>(c: Config, packets: seq<(int, P)>) {
    forall k :: 0 <= k < |packets| ==> packets[k].0 in c.caps
  }

  predicate Enabled<P>(c: Config, s: State<P>, e: Event) {
    match e
    case PushPacket =>
      && s.producer.Ready? && s.input != []
      && s.input[0].0 in s.queues && s.input[0].0 in c.caps
      && |s.queues[s.input[0].0]| < c.caps[s.input[0].0]
    case PushId => s.producer.Pushed? && |s.ids| < c.idCap
    case PopId => s.consumer.Waiting? && s.ids != []
    case PopPacket => s.consumer.Holding? && s.consumer.fd in s.queues && s.queues[s.consumer.fd] != []
  }

  function Apply<P>(c: Config, s: State<P>, e: Event): State<P>
    requires Enabled(c, s, e)
  {
    match e
    case PushPacket =>
      var (fd, p) := s.input[0];
      s.(input := s.input[1..], queues := s.queues[fd := s.queues[fd] + [p]],
         producer := Pushed(fd), enqueued := s.enqueued + [(fd, p)])
    case PushId => s.(ids := s.ids + [s.producer.fd], producer := Ready)
    case PopId => s.(ids := s.ids[1..], consumer := Holding(s.ids[0]))
    case PopPacket =>
      var fd := s.consumer.fd;
      s.(queues := s.queues[fd := s.queues[fd][1..]], consumer := Waiting,
         processed := s.processed + [(fd, s.queues[fd][0])])
  }

  predicate Runs<P>(c: Config, s: State<P>, es: seq<Event>)
    decreases |es|
  {
    es == [] || (Enabled(c, s, es[0]) && Runs(c, Apply(c, s, es[0]), es[1..]))
  }

  function After<P>(c: Config, s: State<P>, es: seq<Event>): State<P>
    requires Runs(c, s, es)
    decreases |es|
  {
    if es == [] then s else After(c, Apply(c, s, es[0]), es[1..])
  }

  // ---- refinement of one queue ----

  /** Packets that have entered and not left: the contents of the single queue that the two levels implement. */
  function Pending<P>(s: State<P>): seq<(int, P)>
    requires |s.processed| <= |s.enqueued|
  {
    s.enqueued[|s.processed|..]
  }

  function IfFor<P>(fd: int, packet: (int, P)): seq<P> {
    if packet.0 == fd then [packet.1] else []
  }

  function PacketsFor<P>(fd: int, packets: seq<(int, P)>): seq<P> {
    if packets == [] then [] else IfFor(fd, packets[0]) + PacketsFor(fd, packets[1..])
  }

  function Fds<P>(packets: seq<(int, P)>): (r: seq<int>)
    ensures |r| == |packets|
  {
    seq(|packets|, k requires 0 <= k < |packets| => packets[k].0)
  }

  /** The id the processing thread has taken, the queued ids, and the id the receiving thread is about to push. */
  function IdsInOrder<P>(s: State<P>): seq<int> {
    (if s.consumer.Holding? then [s.consumer.fd] else []) + s.ids +
    (if s.producer.Pushed? then [s.producer.fd] else [])
  }

  ghost predicate Inv<P>(c: Config, all: seq<(int, P)>, s: State<P>) {
    && s.queues.Keys == c.caps.Keys && Routed(c, all)
    && s.enqueued + s.input == all
    && s.processed <= s.enqueued
    && Fds(Pending(s)) == IdsInOrder(s)
    && (forall fd :: fd in s.queues ==> s.queues[fd] == PacketsFor(fd, Pending(s)))
  }

  lemma {:induction false} PacketsForSplits<P>(fd: int, a: seq<(int, P)>, b: seq<(int, P)>)
    ensures PacketsFor(fd, a + b) == PacketsFor(fd, a) + PacketsFor(fd, b)
  {
    if a == [] {
      assert a + b == b;
    } else {
      assert (a + b)[0] == a[0] && (a + b)[1..] == a[1..] + b;
      PacketsForSplits(fd, a[1..], b);
      assert PacketsFor(fd, a + b) == IfFor(fd, a[0]) + (PacketsFor(fd, a[1..]) + PacketsFor(fd, b));
    }
  }

  lemma PushPacketKeepsInv<P>(c: Config, all: seq<(int, P)>, s: State<P>)
    requires Inv(c, all, s) && Enabled(c, s, PushPacket)
    ensures Inv(c, all, Apply(c, s, PushPacket))
  {
    var s' := Apply(c, s, PushPacket);
    var x := s.input[0];
    assert s'.enqueued + s'.input == s.enqueued + s.input;
    assert Pending(s') == Pending(s) + [x];
    forall fd | fd in s'.queues
      ensures s'.queues[fd] == PacketsFor(fd, Pending(s'))
    {
      PacketsForSplits(fd, Pending(s), [x]);
    }
    assert IdsInOrder(s') == IdsInOrder(s) + [x.0];
  }

  /** The packet that is popped is the oldest one pending: the inner pop finds it and takes no other. */
  lemma HeldPacketIsOldest<P>(c: Config, all: seq<(int, P)>, s: State<P>)
    requires Inv(c, all, s) && s.consumer.Holding?
    ensures Pending(s) != [] && Enabled(c, s, PopPacket)
    ensures Pending(s)[0] == (s.consumer.fd, s.queues[s.consumer.fd][0])
  {
    assert IdsInOrder(s)[0] == s.consumer.fd;
    var p := Pending(s);
    assert Fds(p)[0] == p[0].0;
    assert p[0] == s.enqueued[|s.processed|] == all[|s.processed|];
    assert PacketsFor(s.consumer.fd, p) == [p[0].1] + PacketsFor(s.consumer.fd, p[1..]);
  }

  lemma PopPacketKeepsInv<P>(c: Config, all: seq<(int, P)>, s: State<P>)
    requires Inv(c, all, s) && Enabled(c, s, PopPacket)
    ensures Inv(c, all, Apply(c, s, PopPacket))
  {
    HeldPacketIsOldest(c, all, s);
    var s' := Apply(c, s, PopPacket);
    var p := Pending(s);
    assert Pending(s') == p[1..];
    assert IdsInOrder(s') == IdsInOrder(s)[1..];
    assert Fds(p[1..]) == Fds(p)[1..];
    forall fd | fd in s'.queues
      ensures s'.queues[fd] == PacketsFor(fd, p[1..])
    {
      assert s.queues[fd] == PacketsFor(fd, p);
    }
  }

  lemma StepKeepsInv<P>(c: Config, all: seq<(int, P)>, s: State<P>, e: Event)
    requires Inv(c, all, s) && Enabled(c, s, e)
    ensures Inv(c, all, Apply(c, s, e))
  {
    match e
    case PushPacket => PushPacketKeepsInv(c, all, s);
    case PopPacket => PopPacketKeepsInv(c, all, s);
    case _ => assert IdsInOrder(Apply(c, s, e)) == IdsInOrder(s);
  }

  lemma {:induction false} RunsKeepInv<P>(c: Config, all: seq<(int, P)>, s: State<P>, es: seq<Event>)
    requires Inv(c, all, s) && Runs(c, s, es)
    ensures Inv(c, all, After(c, s, es))
    decreases |es|
  {
    if es != [] {
      StepKeepsInv(c, all, s, es[0]);
      RunsKeepInv(c, all, Apply(c, s, es[0]), es[1..]);
    }
  }

  lemma StartHasInv<P>(c: Config, input: seq<(int, P)>)
    requires Routed(c, input)
    ensures Inv(c, input, Start(c, input))
  {
  }

  /**
   However the two threads interleave, the k-th packet processed is the k-th enqueued, which is the k-th that
   arrived; and once an id has been popped, the pop of its packet does not block.
   */
  lemma ProcessedInOrder<P>(c: Config, input: seq<(int, P)>, es: seq<Event>)
    requires Routed(c, input) && Runs(c, Start(c, input), es)
    ensures
      var s := After(c, Start(c, input), es);
      && s.processed <= s.enqueued <= input
      && (s.consumer.Holding? ==> Enabled(c, s, PopPacket))
  {
    StartHasInv(c, input);
    RunsKeepInv(c, input, Start(c, input), es);
    var s := After(c, Start(c, input), es);
    if s.consumer.Holding? {
      HeldPacketIsOldest(c, input, s);
    }
  }

  lemma {:induction false} PacketsForCount<P>(fd: int, packets: seq<(int, P)>)
    ensures |PacketsFor(fd, packets)| == multiset(Fds(packets))[fd]
  {
    if packets != [] {
      PacketsForCount(fd, packets[1..]);
      assert Fds(packets) == [packets[0].0] + Fds(packets[1..]);
    }
  }

  /** A socket's queue is exactly as long as the number of its ids queued or being moved. */
  lemma QueueLengthCountsIds<P>(c: Config, input: seq<(int, P)>, es: seq<Event>, fd: int)
    requires Routed(c, input) && Runs(c, Start(c, input), es) && fd in c.caps
    ensures
      var s := After(c, Start(c, input), es);
      fd in s.queues && |s.queues[fd]| == multiset(IdsInOrder(s))[fd]
  {
    StartHasInv(c, input);
    RunsKeepInv(c, input, Start(c, input), es);
    PacketsForCount(fd, Pending(After(c, Start(c, input), es)));
  }

  // ---- no deadlock ----

  predicate Stuck<P>(c: Config, s: State<P>) {
    !Enabled(c, s, PushPacket) && !Enabled(c, s, PushId) && !Enabled(c, s, PopId) && !Enabled(c, s, PopPacket)
  }

  predicate PositiveCapacities(c: Config) {
    c.idCap > 0 && forall fd :: fd in c.caps ==> c.caps[fd] > 0
  }

  /** With every queue empty, the packet that arrived next finds room. */
  lemma NextPacketIsAdmitted<P>(c: Config, all: seq<(int, P)>, s: State<P>)
    requires Inv(c, all, s) && PositiveCapacities(c)
    requires s.input != [] && Pending(s) == [] && s.producer.Ready?
    ensures Enabled(c, s, PushPacket)
  {
    var fd := s.input[0].0;
    assert s.input[0] == all[|s.enqueued|];
    assert fd in s.queues && s.queues[fd] == PacketsFor(fd, Pending(s));
  }

  /** With any positive capacities the threads can block each other only when there is nothing left to do. */
  lemma OnlyStuckWhenDone<P>(c: Config, input: seq<(int, P)>, es: seq<Event>)
    requires Routed(c, input) && PositiveCapacities(c) && Runs(c, Start(c, input), es)
    requires Stuck(c, After(c, Start(c, input), es))
    ensures After(c, Start(c, input), es).processed == input
  {
    StartHasInv(c, input);
    RunsKeepInv(c, input, Start(c, input), es);
    var s := After(c, Start(c, input), es);
    if s.consumer.Holding? {
      HeldPacketIsOldest(c, input, s);
    }
    assert s.consumer.Waiting? && s.ids == [] && s.producer.Ready?;
    assert |Pending(s)| == |IdsInOrder(s)| == 0;
    if s.input != [] {
      NextPacketIsAdmitted(c, input, s);
      assert false;
    }
  }

  /** Every packet takes four steps, so every run is finite. */
  function Measure<P>(s: State<P>): nat {
    4 * |s.input| + (if s.producer.Pushed? then 3 else 0) + 2 * |s.ids| + if s.consumer.Holding? then 1 else 0
  }

  lemma {:induction false} RunsAreBounded<P>(c: Config, s: State<P>, es: seq<Event>)
    requires Runs(c, s, es)
    ensures |es| + Measure(After(c, s, es)) == Measure(s)
    decreases |es|
  {
    if es != [] {
      RunsAreBounded(c, Apply(c, s, es[0]), es[1..]);
    }
  }

  /** A run of exactly four steps a packet has processed everything, and no run is longer. */
  lemma EveryPacketIsProcessed<P>(c: Config, input: seq<(int, P)>, es: seq<Event>)
    requires Routed(c, input) && PositiveCapacities(c) && Runs(c, Start(c, input), es)
    ensures |es| <= 4 * |input|
    ensures After(c, Start(c, input), es).processed == input
            <==> |es| == 4 * |input|
    ensures Stuck(c, After(c, Start(c, input), es)) <==> |es| == 4 * |input|
  {
    RunsAreBounded(c, Start(c, input), es);
    StartHasInv(c, input);
    RunsKeepInv(c, input, Start(c, input), es);
    var s := After(c, Start(c, input), es);
    assert |Pending(s)| == |IdsInOrder(s)|;
    assert |input| == |s.enqueued| + |s.input|;
    if Stuck(c, s) {
      OnlyStuckWhenDone(c, input, es);
    }
  }
}
