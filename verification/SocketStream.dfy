/**
 The stream protocol is what two established sockets do: each step of module `Stream` is a call on the client's or the
 server's socket, segments coming in through `ReadIPPacket`.
 */
module SocketStream {
  import opened Bytes
  import opened Channels
  import opened Endpoints
  import opened Segments
  import opened Stream
  import opened SocketObject

  /** The two sockets are those of an open connection, and hold the buffers and marks of `s`. */
  ghost predicate Represents(client: Socket, server: Socket, s: State)
    reads client, client.databuf, server, server.databuf
  {
    && client.databuf != server.databuf
    && client.status == Estab && client.role != TCP_SERVER && client.View() == s.snd
    && server.status == Estab && server.role == TCP_SERVER && server.View() == s.rcv
  }

  /** What a segment is in the stream model. */
  predicate Carries(p: Segment, m: Message) {
    !IsSyn(p.flag) && !IsFin(p.flag) && AsMessage(p) == m
  }

  predicate CarryAll(out: seq<Segment>, ms: seq<Message>) {
    |out| == |ms| && forall k :: 0 <= k < |out| ==> Carries(out[k], ms[k])
  }

  method Write(client: Socket, server: Socket, data: seq<uint8>, ghost s: State)
    requires client != server && Represents(client, server, s) && Enabled(s, Append(data))
    modifies client`sizep, client.databuf
    ensures Represents(client, server, Apply(s, Append(data)))
  {
    var n := client.MyWrite(data);
  }

  method SendFirst(client: Socket, server: Socket, ghost s: State) returns (p: Segment)
    requires client != server && Represents(client, server, s) && Enabled(s, Send)
    modifies client`writep
    ensures Represents(client, server, Apply(s, Send))
    ensures exists m :: Carries(p, m) && Apply(s, Send).net == s.net + [m]
  {
    p := client.WriteSegment();
    assert Carries(p, FirstSegment(s.snd).1);
  }

  /** A data segment reaches the server: it is stored, and the answer is the acknowledgement that the model sends. */
  method ServerReceives(client: Socket, server: Socket, p: Segment, ghost s: State, ghost i: nat)
    returns (out: seq<Segment>)
    requires client != server && Represents(client, server, s)
    requires Enabled(s, Deliver(i)) && s.net[i].Data? && Carries(p, s.net[i])
    modifies server`writep, server`sizep, server`address, server`status, server.databuf
    modifies server`connReady, server`accSynReady, server`accAckReady
    ensures Represents(client, server, Apply(s, Deliver(i)))
    ensures exists ms :: CarryAll(out, ms) && Apply(s, Deliver(i)).net == Without(s.net, i) + ms
  {
    out := server.ReadIPPacket(p);
    ghost var m := RecvData(s.rcv, s.net[i].seqno, s.net[i].bytes).1;
    assert CarryAll(out, [m]);
  }

  /** An acknowledgement reaches the client: it moves the write mark and draws the next chunk, if there is one. */
  method ClientReceives(client: Socket, server: Socket, p: Segment, ghost s: State, ghost i: nat)
    returns (out: seq<Segment>)
    requires client != server && Represents(client, server, s)
    requires Enabled(s, Deliver(i)) && s.net[i].Ack? && Carries(p, s.net[i])
    modifies client`writep, client`sizep, client`address, client`status, client.databuf
    modifies client`connReady, client`accSynReady, client`accAckReady
    ensures Represents(client, server, Apply(s, Deliver(i)))
    ensures exists ms :: CarryAll(out, ms) && Apply(s, Deliver(i)).net == Without(s.net, i) + ms
  {
    out := client.ReadIPPacket(p);
    ghost var ms := RecvAck(s.snd, s.net[i].next).1;
    assert AsMessages(out) == ms;
    assert CarryAll(out, ms);
  }

  /** A `read` that need not wait is the step `Read`, and returns what the model records. */
  method Read(client: Socket, server: Socket, len: nat, ghost s: State) returns (done: bool, out: seq<uint8>)
    requires client != server && Represents(client, server, s) && Fits(s.rcv) && 0 <= s.rcv.readp
    modifies server`readp
    ensures done == Enabled(s, Event.Read(len))
    ensures done ==>
              Represents(client, server, Apply(s, Event.Read(len))) && Apply(s, Event.Read(len)).output == s.output + out
    ensures !done ==> Represents(client, server, s)
  {
    done, out := server.MyRead(len);
  }
}
