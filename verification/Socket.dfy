/** A socket (`mysocket_t` with its `TCB`) updated in place, proved against `Endpoints` and `React`. */
module SocketObject {
  import opened Bytes
  import opened Endpoints
  import opened Segments

  const TCP_SERVER: int := 0
  const TCP_CLIENT: int := 1

  /** How the stream protocol reads a segment that reaches `recvTCPPacket`. */
  function AsMessage(s: Segment): Message {
    if IsAck(s.flag) then Ack(s.ackno) else Data(s.seqno, s.payload)
  }

  function AsMessages(out: seq<Segment>): (r: seq<Message>)
    ensures |r| == |out|
    ensures forall k :: 0 <= k < |out| ==> r[k] == AsMessage(out[k])
  {
    seq(|out|, k requires 0 <= k < |out| => AsMessage(out[k]))
  }

  function AllFlags(out: seq<Segment>): (r: seq<Flags>)
    ensures |r| == |out|
    ensures forall k :: 0 <= k < |out| ==> r[k] == FlagsOf(out[k].flag)
  {
    seq(|out|, k requires 0 <= k < |out| => FlagsOf(out[k].flag))
  }

  /** The copy that a data segment asks for stays inside the buffer. */
  predicate InBounds(p: Segment) {
    !IsAck(p.flag) ==> p.seqno + |p.payload| <= CAPACITY
  }

  /** What `recvTCPPacket` does to the buffer and sends, for a socket bound as a server or not. */
  ghost predicate StreamStep(server: bool, e: Endpoint, p: Segment, e': Endpoint, out: seq<Segment>)
    requires Fits(e) && InBounds(p)
  {
    && (forall k :: 0 <= k < |out| ==>
          && out[k].info == p.info.Reversed() && out[k].ackno == Add32(p.seqno, |p.payload|)
          && FlagsOf(out[k].flag) == if IsAck(p.flag) then NONE else ACK)
    && (if !IsAck(p.flag) then
          var (want, m) := RecvData(e, p.seqno, p.payload);
          e' == want && AsMessages(out) == [m] && out[0].seqno == p.ackno
        else if server then
          e' == e && out == []
        else
          var (want, ms) := RecvAck(e, p.ackno);
          e' == want && AsMessages(out) == ms)
  }

  /** A server socket's buffer after the segments `ps` have arrived. */
  function ServerAfter(e: Endpoint, ps: seq<Segment>): (r: Endpoint)
    requires Fits(e) && forall k :: 0 <= k < |ps| ==> InBounds(ps[k])
    ensures Fits(r) && r.writep == e.writep && r.sizep >= e.sizep
    decreases |ps|
  {
    if ps == [] then e
    else
      assert InBounds(ps[0]);
      ServerAfter(if IsAck(ps[0].flag) then e else RecvData(e, ps[0].seqno, ps[0].payload).0, ps[1..])
  }

  /** The segments `ps` arrive at a server socket one after the other and take it through the endpoints `es`. */
  ghost predicate ServerHistory(es: seq<Endpoint>, ps: seq<Segment>, outs: seq<seq<Segment>>) {
    && |es| == |ps| + 1 && |outs| == |ps|
    && forall k: nat :: k < |ps| ==> ServerTakes(es, ps, outs, k)
  }

  ghost predicate ServerTakes(es: seq<Endpoint>, ps: seq<Segment>, outs: seq<seq<Segment>>, k: nat)
    requires k < |ps| == |outs| && |es| == |ps| + 1
  {
    Fits(es[k]) && InBounds(ps[k]) && StreamStep(true, es[k], ps[k], es[k + 1], outs[k])
  }

  lemma {:induction false} ServerAfterIsStreamStep(es: seq<Endpoint>, ps: seq<Segment>, outs: seq<seq<Segment>>)
    requires ServerHistory(es, ps, outs) && Fits(es[0])
    ensures forall k :: 0 <= k < |ps| ==> InBounds(ps[k])
    ensures ServerAfter(es[0], ps) == es[|ps|]
    decreases |ps|
  {
    if ps != [] {
      assert ServerTakes(es, ps, outs, 0);
      forall k: nat | k < |ps| - 1
        ensures ServerTakes(es[1..], ps[1..], outs[1..], k)
      {
        assert ServerTakes(es, ps, outs, k + 1);
      }
      ServerAfterIsStreamStep(es[1..], ps[1..], outs[1..]);
      forall k | 0 <= k < |ps|
        ensures InBounds(ps[k])
      {
        assert k > 0 ==> ps[k] == ps[1..][k - 1];
      }
    }
  }

  /**
   A bound socket ignores acknowledgements, so `write` on it can return only if its own segment carries all that
   is unsent: otherwise the write mark stays below the size mark whatever arrives.
   */
  lemma ServerWriteReturnsIff(e: Endpoint)
    requires Fits(e) && 0 <= e.writep <= e.sizep
    ensures
      e.sizep - e.writep <= SEGMENT_SIZE <==>
      exists ps :: (forall k :: 0 <= k < |ps| ==> InBounds(ps[k])) &&
                   ServerAfter(FirstSegment(e).0, ps).writep == ServerAfter(FirstSegment(e).0, ps).sizep
  {
    var e' := FirstSegment(e).0;
    if e.sizep - e.writep <= SEGMENT_SIZE {
      assert ServerAfter(e', []) == e';
    }
  }

  /** A `write` of 1001 bytes on a fresh server socket never returns. */
  lemma LongServerWriteHangs(data: seq<uint8>, ps: seq<Segment>)
    requires |data| == SEGMENT_SIZE + 1 && forall k :: 0 <= k < |ps| ==> InBounds(ps[k])
    ensures
      var e := FirstSegment(Endpoints.MyWrite(FRESH_ENDPOINT, data)).0;
      ServerAfter(e, ps).writep != ServerAfter(e, ps).sizep
  {
    ServerWriteReturnsIff(Endpoints.MyWrite(FRESH_ENDPOINT, data));
  }

  class Socket {
    const databuf: array<uint8>
    var readp: int
    var writep: int
    var sizep: int
    var address: Tuple4
    var role: int
    var tcbRole: int
    var status: Status
    var connReady: bool
    var accSynReady: bool
    var accAckReady: bool

    ghost function View(): Endpoint
      reads this, databuf
    {
      Endpoint(databuf[..], readp, writep, sizep)
    }

    constructor ()
      ensures fresh(databuf)
      ensures databuf.Length == 0x10_0000 && View() == FRESH_ENDPOINT && role == -1 && tcbRole == -1 && status == Unset
      ensures !connReady && !accSynReady
    {
      databuf := new uint8[CAPACITY](_ => 0);
      readp, writep, sizep := 0, 0, 0;
      address := *;
      role, tcbRole, status := -1, -1, Unset;
      connReady, accSynReady, accAckReady := false, false, false;
    }

    /** `memcpy` into the data buffer. */
    method CopyIn(off: nat, data: seq<uint8>)
      requires off + |data| <= databuf.Length
      modifies databuf
      ensures databuf[..] == Copy(old(databuf[..]), off, data)
    {
      forall k | 0 <= k < |data| {
        databuf[off + k] := data[k];
      }
    }

    method MyWrite(data: seq<uint8>) returns (n: nat)
      requires Fits(View()) && sizep + |data| <= CAPACITY
      modifies this`sizep, databuf
      ensures View() == Endpoints.MyWrite(old(View()), data) && n == |data|
    {
      CopyIn(sizep, data);
      sizep := sizep + |data|;
      n := |data|;
    }

    /** One turn of `myread`: it keeps waiting while the bytes asked for have not arrived. */
    method MyRead(len: nat) returns (done: bool, out: seq<uint8>)
      requires Fits(View()) && 0 <= readp
      modifies this`readp
      ensures done == (old(readp) + len <= sizep)
      ensures done ==> (View(), out) == Endpoints.MyRead(old(View()), len)
      ensures !done ==> View() == old(View())
      ensures done ==> |out| == len && readp == old(readp) + len && out == databuf[old(readp)..readp]
    {
      if readp + len > sizep {
        return false, [];
      }
      out := databuf[readp..readp + len];
      readp := readp + len;
      done := true;
    }

    /** The part of `write` that holds the lock: one segment from the write mark. */
    method WriteSegment() returns (p: Segment)
      requires Fits(View()) && 0 <= writep <= sizep
      modifies this`writep
      ensures View() == FirstSegment(old(View())).0
      ensures AsMessage(p) == FirstSegment(old(View())).1 && p.info == address && FlagsOf(p.flag) == NONE
      ensures p.ackno == 0 && p.payload == databuf[old(writep)..writep] && |p.payload| <= 1000
    {
      var len := SEGMENT_SIZE;
      if writep + len > sizep {
        len := sizep - writep;
      }
      p := Segment(address, writep, 0, FlagWord(NONE), databuf[writep..writep + len]);
      writep := writep + len;
    }

    method RecvTCPPacket(p: Segment) returns (out: seq<Segment>)
      requires Fits(View()) && InBounds(p)
      modifies this`writep, this`sizep, databuf
      ensures StreamStep(role == TCP_SERVER, old(View()), p, View(), out)
    {
      if IsAck(p.flag) {
        if role == TCP_SERVER {
          return [];
        }
        var leng := SEGMENT_SIZE;
        if p.ackno >= sizep {
          writep := ToInt32(p.ackno);
          return [];
        }
        if sizep - p.ackno < leng {
          leng := sizep - p.ackno;
        }
        writep := p.ackno;
        out := [Segment(p.info.Reversed(), p.ackno, Add32(p.seqno, |p.payload|), FlagWord(NONE),
                        databuf[p.ackno..p.ackno + leng])];
      } else {
        CopyIn(p.seqno, p.payload);
        if p.seqno + |p.payload| > sizep {
          sizep := p.seqno + |p.payload|;
        }
        var junk: uint8 := *;
        out := [Segment(p.info.Reversed(), p.ackno, Add32(p.seqno, |p.payload|), FlagWord(ACK), [junk])];
      }
    }

    /** A one-byte control segment in answer to `p`. */
    method Answer(p: Segment, f: Flags) returns (r: Segment)
      ensures IsAnswer(p, f, r)
    {
      var junk: uint8 := *;
      r := Segment(p.info.Reversed(), p.ackno, Add32(p.seqno, 1), FlagWord(f), [junk]);
    }

    static predicate IsAnswer(p: Segment, f: Flags, r: Segment) {
      && r.info == p.info.Reversed() && r.seqno == p.ackno && r.ackno == Add32(p.seqno, 1)
      && FlagsOf(r.flag) == f && |r.payload| == 1
    }

    /** A server in SYNSENT takes the address of whoever answers. */
    method AdoptAddress(p: Segment)
      modifies this`address
      ensures address == if status == SynSent && tcbRole == TCP_SERVER then p.info.Reversed() else old(address)
    {
      if status == SynSent && tcbRole == TCP_SERVER {
        address := p.info.Reversed();
      }
    }

    /** The branch for a FIN. */
    method RecvFin(p: Segment) returns (out: seq<Segment>)
      modifies this`status
      ensures var r := React(old(status), FIN);
              && status == r.status && |out| == |r.replies|
              && forall k :: 0 <= k < |out| ==> IsAnswer(p, r.replies[k], out[k])
    {
      out := [];
      if status == Estab {
        var a := Answer(p, ACK);
        var f := Answer(p, FIN);
        out, status := [a, f], LastAck;
      } else if status == FinWait1 {
        var a := Answer(p, ACK);
        out, status := [a], Closing;
      } else if status == FinWait2 {
        var a := Answer(p, ACK);
        out, status := [a], TimeWait;
      }
    }

    /** `readIPPacket`: the state machine, with data and data acknowledgements handed to the stream. */
    method ReadIPPacket(p: Segment) returns (out: seq<Segment>)
      requires Fits(View()) && (ReachesStream(status, FlagsOf(p.flag)) ==> InBounds(p))
      modifies this`writep, this`sizep, this`address, this`status, databuf
      modifies this`connReady, this`accSynReady, this`accAckReady
      ensures address == if old(status) == SynSent && tcbRole == TCP_SERVER then p.info.Reversed() else old(address)
      ensures var r := React(old(status), FlagsOf(p.flag));
              && status == r.status
              && (r.toStream ==> StreamStep(role == TCP_SERVER, old(View()), p, View(), out))
              && (!r.toStream ==>
                    && View() == old(View()) && |out| == |r.replies|
                    && forall k :: 0 <= k < |out| ==> IsAnswer(p, r.replies[k], out[k]))
      ensures ReachesStream(old(status), FlagsOf(p.flag)) ==>
                status == old(status) && StreamStep(role == TCP_SERVER, old(View()), p, View(), out)
      ensures !ReachesStream(old(status), FlagsOf(p.flag)) ==>
                && View() == old(View()) && (forall k :: 0 <= k < |out| ==> IsAnswer(p, FlagsOf(out[k].flag), out[k]))
                && FollowsDiagram(old(status), FlagsOf(p.flag), status, AllFlags(out))
      ensures connReady == (old(connReady) || (old(status) == SynSent && status == Estab))
      ensures accSynReady == (old(accSynReady) || (old(status) == Listen && status == SynRcvd))
      ensures accAckReady == (old(accAckReady) || (old(status) == SynRcvd && status == Estab))
    {
      ReactFollowsDiagram(status, FlagsOf(p.flag));
      out := [];
      AdoptAddress(p);
      if IsSyn(p.flag) && IsAck(p.flag) {
        if status == SynSent {
          var a := Answer(p, ACK);
          out, status, connReady := [a], Estab, true;
        }
      } else if IsSyn(p.flag) {
        if status == Listen {
          var a := Answer(p, SYN_ACK);
          out, status, accSynReady := [a], SynRcvd, true;
        } else if status == SynSent {
          var a := Answer(p, ACK);
          out, status := [a], SynRcvd;
        }
      } else if IsFin(p.flag) {
        out := RecvFin(p);
      } else if IsAck(p.flag) {
        if status == SynRcvd {
          status, accAckReady := Estab, true;
        } else if status == FinWait1 {
          status := FinWait2;
        } else if status == Closing {
          status := TimeWait;
        } else if status == LastAck {
          status := Closed;
        } else if status == Estab {
          out := RecvTCPPacket(p);
        }
      } else {
        out := RecvTCPPacket(p);
      }
    }

    /** The first half of `accept` on a listening socket: the new socket listens in its place. */
    method BeginAccept(conn: Socket)
      requires conn != this
      modifies this`status, conn`status, conn`address
      ensures status == Closed && conn.status == Listen && conn.address == address
    {
      conn.address := address;
      status := Closed;
      conn.status := Listen;
    }

    /** One turn of its wait: once the handshake of the new socket is complete, this one listens again. */
    method EndAccept(conn: Socket) returns (done: bool)
      requires conn != this
      modifies this`status
      ensures done == (conn.accSynReady && conn.accAckReady)
      ensures status == if done then Listen else old(status)
    {
      done := conn.accSynReady && conn.accAckReady;
      if done {
        status := Listen;
      }
    }

    /** The first half of `connect`, up to its wait. */
    method Connect(peer: Tuple4) returns (p: Segment)
      modifies this`tcbRole, this`status, this`address
      ensures tcbRole == TCP_CLIENT && status == SynSent && address == peer
      ensures FlagsOf(p.flag) == SYN && p.info == peer && p.seqno == p.ackno == 0 && |p.payload| == 1
    {
      tcbRole, status, address := TCP_CLIENT, SynSent, peer;
      var junk: uint8 := *;
      p := Segment(peer, 0, 0, FlagWord(SYN), [junk]);
    }

    /** `close`, up to its wait: a server waits to be closed, anyone else sends its FIN. */
    method Close() returns (out: seq<Segment>)
      modifies this`status
      ensures tcbRole == TCP_SERVER ==> out == [] && status == old(status)
      ensures tcbRole != TCP_SERVER ==>
                && |out| == 1 && FlagsOf(out[0].flag) == FIN && out[0].info == address && status == FinWait1
                && out[0].seqno == out[0].ackno == 0 && |out[0].payload| == 1
    {
      if tcbRole == TCP_SERVER {
        return [];
      }
      var junk: uint8 := *;
      out := [Segment(address, 0, 0, FlagWord(FIN), [junk])];
      status := FinWait1;
    }
  }
}
