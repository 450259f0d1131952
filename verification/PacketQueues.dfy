/** The two-level queue on ring buffers: its four critical sections are the steps of `Pipeline`. */
module PacketQueues {
  import opened Queues
  import opened Pipeline

  class PacketQueues<P(0)> {
    const sockets: map<int, BlockingQueue<P>>
    const unsolved: BlockingQueue<int>

    /** Every queue is valid, and no two of them share storage. */
    ghost predicate Valid()
      reads this, unsolved, sockets.Values
    {
      && unsolved.Valid()
      && (forall fd :: fd in sockets ==> sockets[fd].Valid())
      && (forall fd :: fd in sockets ==>
            sockets[fd] as object != unsolved as object && sockets[fd].vt as object != unsolved.vt as object)
      && (forall fd, fd' :: fd in sockets && fd' in sockets && fd != fd' ==>
            sockets[fd] != sockets[fd'] && sockets[fd].vt != sockets[fd'].vt)
    }

    ghost function Capacities(): Config
      reads this
    {
      Config(map fd | fd in sockets :: sockets[fd].capacity, unsolved.capacity)
    }

    ghost function Arrays(): set<object>
      reads this
    {
      set fd | fd in sockets :: sockets[fd].vt
    }

    /** The queues hold what the two levels of `s` hold. */
    ghost predicate Represents(s: State<P>)
      requires Valid()
      reads this, unsolved, unsolved.vt, sockets.Values, Arrays()
    {
      && s.queues.Keys == sockets.Keys
      && (forall fd :: fd in sockets ==> s.queues[fd] == sockets[fd].Contents())
      && s.ids == unsolved.Contents()
    }

    /** From empty queues, each with its own storage. */
    constructor (sockets: map<int, BlockingQueue<P>>, unsolved: BlockingQueue<int>, ghost input: seq<(int, P)>)
      requires unsolved.Valid() && unsolved.Contents() == []
      requires forall fd :: fd in sockets ==> sockets[fd].Valid() && sockets[fd].Contents() == []
      requires forall fd :: fd in sockets ==>
                 sockets[fd] as object != unsolved as object && sockets[fd].vt as object != unsolved.vt as object
      requires forall fd, fd' :: fd in sockets && fd' in sockets && fd != fd' ==>
                 sockets[fd] != sockets[fd'] && sockets[fd].vt != sockets[fd'].vt
      ensures this.sockets == sockets && this.unsolved == unsolved
      ensures Valid() && Represents(Start(Capacities(), input))
    {
      this.sockets := sockets;
      this.unsolved := unsolved;
    }

    /** Working on one socket's queue leaves all others as they were. */
    twostate lemma OnlyOneChanged(fd: int)
      requires old(Valid()) && fd in sockets
      requires forall g :: g in sockets && g != fd ==> unchanged(sockets[g], sockets[g].vt)
      requires unchanged(unsolved, unsolved.vt)
      ensures forall g :: g in sockets && g != fd ==>
                sockets[g].Valid() && sockets[g].Contents() == old(sockets[g].Contents())
      ensures unsolved.Valid() && unsolved.Contents() == old(unsolved.Contents())
    {
    }

    /** `recvIPPacket` stores the packet for its socket, waiting while there is no room. */
    method PushPacket(fd: int, p: P, ghost s: State<P>) returns (done: bool)
      requires Valid() && Represents(s) && fd in sockets
      requires s.producer.Ready? && s.input != [] && s.input[0] == (fd, p)
      modifies sockets[fd], sockets[fd].vt
      ensures Valid() && done == Enabled(Capacities(), s, Event.PushPacket)
      ensures Represents(if done then Apply(Capacities(), s, Event.PushPacket) else s)
    {
      assert s.queues[fd] == sockets[fd].Contents();
      done := sockets[fd].Push(p);
      OnlyOneChanged(fd);
    }

    /** Then it queues the socket's id. */
    method PushId(fd: int, ghost s: State<P>) returns (done: bool)
      requires Valid() && Represents(s) && s.producer == Pushed(fd)
      modifies unsolved, unsolved.vt
      ensures Valid() && done == Enabled(Capacities(), s, Event.PushId)
      ensures Represents(if done then Apply(Capacities(), s, Event.PushId) else s)
    {
      done := unsolved.Push(fd);
      assert forall g :: g in sockets ==> sockets[g].Contents() == old(sockets[g].Contents());
    }

    /** `processIPPacket` takes an id, waiting while there is none. */
    method PopId(ghost s: State<P>) returns (fd: Option<int>)
      requires Valid() && Represents(s) && s.consumer.Waiting?
      modifies unsolved
      ensures Valid() && fd.Some? == Enabled(Capacities(), s, Event.PopId)
      ensures fd.None? ==> Represents(s)
      ensures fd.Some? ==>
                && Represents(Apply(Capacities(), s, Event.PopId))
                && Apply(Capacities(), s, Event.PopId).consumer == Holding(fd.value)
    {
      fd := unsolved.Pop();
      assert forall g :: g in sockets ==> sockets[g].Contents() == old(sockets[g].Contents());
    }

    /** Then `readIPPacket` takes that socket's oldest packet. */
    method PopPacket(fd: int, ghost s: State<P>) returns (p: Option<P>)
      requires Valid() && Represents(s) && s.consumer == Holding(fd) && fd in sockets
      modifies sockets[fd]
      ensures Valid() && p.Some? == Enabled(Capacities(), s, Event.PopPacket)
      ensures p.None? ==> Represents(s)
      ensures p.Some? ==>
                && Represents(Apply(Capacities(), s, Event.PopPacket))
                && Apply(Capacities(), s, Event.PopPacket).processed == s.processed + [(fd, p.value)]
    {
      assert s.queues[fd] == sockets[fd].Contents();
      p := sockets[fd].Pop();
      OnlyOneChanged(fd);
    }
  }
}
