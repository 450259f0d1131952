/**
 Module `Connection` is what three sockets do: each of its steps is a call on the client's socket, the server's
 listening socket or the one that `accept` makes, and the segments they send are those the steps put on the network.
 */
module SocketConnection {
  import opened Channels
  import opened Endpoints
  import opened Segments
  import opened SocketObject
  import opened Connection
  import ConnectionSafety

  ghost predicate Distinct(client: Socket, conn: Socket, lst: Socket) {
    && client != conn && conn != lst && lst != client
    && client.databuf != conn.databuf && conn.databuf != lst.databuf && lst.databuf != client.databuf
  }

  /** The sockets are in the states that `s` says, and `accept` waits for the right thing. */
  ghost predicate Represents(client: Socket, conn: Socket, lst: Socket, s: State)
    reads client, client.databuf, conn, conn.databuf, lst, lst.databuf
  {
    && Distinct(client, conn, lst)
    && Fits(client.View()) && Fits(conn.View()) && Fits(lst.View())
    && client.status == s.cli && conn.status == s.conn && lst.status == s.lst
    && client.role != TCP_SERVER && (s.cli != Unset ==> client.tcbRole == TCP_CLIENT)
    && conn.role == TCP_SERVER && lst.role == TCP_SERVER
    && conn.accSynReady == (s.conn != Listen) && conn.accAckReady == AfterEstab(s.conn)
  }

  method ClientConnects(client: Socket, conn: Socket, lst: Socket, peer: Tuple4, ghost s: State) returns (p: Segment)
    requires Represents(client, conn, lst, s) && Enabled(s, Event.Connect)
    modifies client
    ensures Represents(client, conn, lst, Apply(s, Event.Connect))
    ensures Apply(s, Event.Connect).toSrv == s.toSrv + [FlagsOf(p.flag)]
  {
    p := client.Connect(peer);
  }

  method ClientCloses(client: Socket, conn: Socket, lst: Socket, ghost s: State) returns (out: seq<Segment>)
    requires Represents(client, conn, lst, s) && Enabled(s, Event.Close)
    modifies client
    ensures Represents(client, conn, lst, Apply(s, Event.Close))
    ensures Apply(s, Event.Close).toSrv == s.toSrv + AllFlags(out)
  {
    out := client.Close();
  }

  method AcceptEnds(client: Socket, conn: Socket, lst: Socket, ghost s: State) returns (done: bool)
    requires Represents(client, conn, lst, s) && !s.accepted
    modifies lst
    ensures done == Enabled(s, AcceptReturns)
    ensures Represents(client, conn, lst, if done then Apply(s, AcceptReturns) else s)
  {
    done := lst.EndAccept(conn);
  }

  method ClientReceives(client: Socket, conn: Socket, lst: Socket, p: Segment, ghost s: State, ghost i: nat)
    returns (out: seq<Segment>)
    requires Represents(client, conn, lst, s) && ConnectionSafety.StatesAreKnown(s)
    requires i < |s.toCli| && s.toCli[i] == FlagsOf(p.flag)
    requires ReachesStream(client.status, FlagsOf(p.flag)) ==> InBounds(p)
    modifies client, client.databuf
    ensures Represents(client, conn, lst, Apply(s, ToClient(i, out != [])))
    ensures Apply(s, ToClient(i, out != [])).toSrv == s.toSrv + AllFlags(out)
  {
    out := client.ReadIPPacket(p);
    assert |AllFlags(out)| == |out|;
  }

  /** `target` is the socket that the search finds. */
  method ServerReceives(client: Socket, conn: Socket, lst: Socket, target: Socket, p: Segment, ghost s: State,
                        ghost i: nat)
    returns (out: seq<Segment>)
    requires Represents(client, conn, lst, s) && ConnectionSafety.StatesAreKnown(s)
    requires i < |s.toSrv| && s.toSrv[i] == FlagsOf(p.flag)
    requires match Demux(s, s.toSrv[i])
             case Connected => target == conn
             case Listener => target == lst
             case Nobody => false
    requires ReachesStream(target.status, FlagsOf(p.flag)) ==> InBounds(p)
    modifies target, target.databuf
    ensures Represents(client, conn, lst, Apply(s, ToServer(i)))
    ensures Apply(s, ToServer(i)).toCli == s.toCli + AllFlags(out)
  {
    out := target.ReadIPPacket(p);
  }
}
