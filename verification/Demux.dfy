/** How `recvIPPacket` finds the socket a segment is for, and why `Connection.Demux` says the same of two sockets. */
module Demultiplexing {
  import opened Bytes
  import opened Segments
  import Connection

  /** A socket as the search sees it; the table is in the order of descriptors. */
  datatype Entry = Entry(fd: int, status: Status, address: Tuple4)

  /** The descriptor used when nothing matches. */
  const FIRST_FD: int := 100

  predicate IsOpening(flag: uint16) {
    IsSyn(flag) && !IsAck(flag)
  }

  /** A SYN is for a listening socket bound to its destination, anything else for the socket of its connection. */
  predicate Matches(e: Entry, info: Tuple4, flag: uint16) {
    if IsOpening(flag) then
      e.status == Listen && e.address.srcIP == info.dstIP && e.address.srcPort == info.dstPort
    else e.address == info.Reversed()
  }

  predicate HasMatch(table: seq<Entry>, info: Tuple4, flag: uint16) {
    exists i :: 0 <= i < |table| && Matches(table[i], info, flag)
  }

  /** The first match, as a function. */
  function Find(table: seq<Entry>, info: Tuple4, flag: uint16): (r: int)
    ensures 0 <= r <= |table|
    ensures r < |table| <==> HasMatch(table, info, flag)
    ensures r < |table| ==> Matches(table[r], info, flag) && forall j :: 0 <= j < r ==> !Matches(table[j], info, flag)
  {
    if table == [] then 0
    else if Matches(table[0], info, flag) then 0
    else
      var r := Find(table[1..], info, flag);
      assert forall j :: 0 < j < |table| ==> table[j] == table[1..][j - 1];
      r + 1
  }

  /** For tables of any length: a SYN goes to the first socket that listens on its destination address and port. */
  lemma SynFindsListener(table: seq<Entry>, info: Tuple4, flag: uint16)
    requires IsSyn(flag) && !IsAck(flag)
    ensures
      var i := Find(table, info, flag);
      && (i < |table| ==>
            table[i].status == Listen && table[i].address.srcIP == info.dstIP && table[i].address.srcPort == info.dstPort)
      && forall j :: 0 <= j < i ==>
           table[j].status != Listen || table[j].address.srcIP != info.dstIP || table[j].address.srcPort != info.dstPort
  {
    assert forall j :: 0 <= j < Find(table, info, flag) ==> !Matches(table[j], info, flag);
  }

  /** Anything else goes to the first socket of its connection, seen from the other end. */
  lemma SegmentFindsConnection(table: seq<Entry>, info: Tuple4, flag: uint16)
    requires !IsSyn(flag) || IsAck(flag)
    ensures
      var i, peer := Find(table, info, flag), Tuple4(info.dstIP, info.srcIP, info.dstPort, info.srcPort);
      && (i < |table| ==> table[i].address == peer)
      && forall j :: 0 <= j < i ==> table[j].address != peer
  {
    assert forall j :: 0 <= j < Find(table, info, flag) ==> !Matches(table[j], info, flag);
  }

  class SocketTable {
    var entries: seq<Entry>

    constructor (entries: seq<Entry>)
      ensures this.entries == entries
    {
      this.entries := entries;
    }

    /**
     The first socket that matches takes the segment, and a SYN's tuple becomes that socket's address; without a
     match the first descriptor is used.  A SYN that no socket listens for is outside what the source defines.
     */
    method RecvIPPacket(info: Tuple4, flag: uint16) returns (connfd: int)
      requires IsOpening(flag) ==> HasMatch(entries, info, flag)
      modifies this
      ensures
        var i := Find(old(entries), info, flag);
        && connfd == (if i < |old(entries)| then old(entries)[i].fd else 100)
        && entries == if IsOpening(flag) then old(entries)[i := old(entries)[i].(address := info.Reversed())]
                      else old(entries)
    {
      connfd := FIRST_FD;
      var i := 0;
      ghost var first := Find(entries, info, flag);
      if IsSyn(flag) && !IsAck(flag) {
        while i < |entries|
          invariant 0 <= i <= first
        {
          if entries[i].status == Listen && entries[i].address.srcIP == info.dstIP &&
             entries[i].address.srcPort == info.dstPort {
            break;
          }
          i := i + 1;
        }
        connfd := entries[i].fd;
        entries := entries[i := entries[i].(address := info.Reversed())];
      } else {
        while i < |entries|
          invariant 0 <= i <= first && connfd == FIRST_FD
        {
          if entries[i].address == info.Reversed() {
            connfd := entries[i].fd;
            break;
          }
          i := i + 1;
        }
      }
    }
  }

  // ---- the server of module `Connection` ----

  /**
   The server's two sockets: the listening one, first, and the connection's.  Each has the bare bound address until
   a SYN has given it the address of the connection.
   */
  function ServerTable(s: Connection.State, bound: Tuple4, peer: Tuple4): seq<Entry> {
    [Entry(FIRST_FD, s.lst, if s.captured then peer else bound),
     Entry(FIRST_FD + 1, s.conn, if s.conn == Listen then bound else peer)]
  }

  /** The search over those two sockets, with its default, picks what `Connection.Demux` picks. */
  lemma DemuxFindsTheSocket(s: Connection.State, bound: Tuple4, peer: Tuple4, flag: uint16)
    requires bound != peer && bound.srcIP == peer.srcIP && bound.srcPort == peer.srcPort
    requires s.captured ==> s.lst != Listen
    ensures
      var i := Find(ServerTable(s, bound, peer), peer.Reversed(), flag);
      match Connection.Demux(s, FlagsOf(flag))
      case Listener => i == 0 || (i == 2 && !IsOpening(flag))
      case Connected => i == 1
      case Nobody => i == 2 && IsOpening(flag)
  {
    var table := ServerTable(s, bound, peer);
    assert peer.Reversed().Reversed() == peer;
    var i := Find(table, peer.Reversed(), flag);
    assert Matches(table[0], peer.Reversed(), flag) ==> i == 0;
    assert Matches(table[1], peer.Reversed(), flag) ==> i <= 1;
  }
}
