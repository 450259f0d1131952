# iTCP in Dafny

A model of iTCP, a user-space TCP/IP stack, with proofs of what its protocols guarantee. The four parts are the byte
stream between two sockets, the opening and closing of a connection, the myArp flooding route protocol with the
forwarding that follows it, and the two-level queue between the receiving and the processing thread. The byte layout
of a packet connects the parts.

Each protocol is a step relation: a state of endpoints and network, an event for each critical section of the source,
and runs as sequences of events. A hypothesis on the network or the caller is a predicate on the events of a run, so
that every theorem names exactly the runs it is about. The steps are built from functions on values (`Endpoints`,
`Segments.React`, `Routes`), and the classes (`Socket`, `Kernel`, `BlockingQueue`, `PacketQueues`, `SocketTable`) update
their fields in place and are proved to do what those functions say.

| files | part |
|---|---|
| Bytes, Channels | integers, `memcpy`, a network as messages in flight |
| Endpoints, Segments, Socket, SocketStream, SocketConnection | the socket object: buffer, marks, state machine; the two protocols as calls on it |
| Stream, StreamFifo, StreamDrain, StreamLongWrites, StreamStopAndWait | the byte stream under four network hypotheses |
| Connection, ConnectionNoCopies, ConnectionCopies, ConnectionClosing, ConnectionTeardown, Demux | opening and closing, as two communicating hosts |
| Routes, RouteTable, Flood, FloodFrames, FloodShortest, FloodTermination, FloodSettles, FloodWalks, FloodWrap | routes |
| Forwarding, Delivery, ForwardingTermination | packets that follow them |
| BlockingQueue, Pipeline, PacketQueues | queues |
| Wire | bytes |

## What the proofs found

* Writes longer than a segment (1000 bytes) are what makes the stream gap-free over a network that loses, copies and
  reorders. They are not enough by themselves: `write` releases the lock between `mywrite` and its own send, and if a
  copied acknowledgement is processed there, `write` can return before its last bytes are acknowledged and a later write
  leaves a hole (`StreamLongWrites.LongWritesMayOpenHole`). `StreamLongWrites.SendKeepsItIff` gives the exact condition:
  more than 1000 bytes are unsent when the lock is taken, or the receiver is complete. (The guard of src/socket.cc:141
  is close to it but not the same: it tests for fewer than 1000 bytes, and with exactly 1000 `write` does not wait
  either.) Without copies the window is harmless (`StreamStopAndWait.AtMostOneInFlight`).
* A bound socket ignores acknowledgements (src/tcp.cc:317), so a `write` on the server side returns only if its first
  segment carries all that is unsent (`SocketObject.ServerWriteReturnsIff`); one of 1001 bytes already hangs
  (`SocketObject.LongServerWriteHangs`).
* A copy of the handshake acknowledgement can complete LASTACK, so the server may be CLOSED while the client is still in
  FINWAIT1 (`ConnectionCopies.CopiedHandshakeAckClosesEarly`). From a state in which the server is in LASTACK and the
  client has not got the FIN, this can happen if and only if an acknowledgement is already on its way to the server's
  socket (`ConnectionCopies.EarlyCloseIff`).
* A copied SYN that arrives after `accept` has returned is taken by the listening socket, which comes first in the socket
  map; the client then closes with that socket and the connection's own socket stays in ESTAB
  (`ConnectionCopies.CopiedSynDivertsClose`). A client in TIMEWAIT has closed with the connection's own socket if and
  only if no SYN was delivered to the listening socket while that socket was in ESTAB
  (`ConnectionSafety.EndsProgressInStep`, and from the state before such a SYN `ConnectionCopies.LateSynDivertsIff`).
* Routes are loop-free as long as no announcement is delivered whose 8-bit ttl has wrapped below 0. Without that
  hypothesis, but without manual routes, they are loop-free on every run if and only if no host next to an owner of the
  address has a link to a host that is no owner (`FloodWrap.LoopFreeIff`): on any other topology an announcement can
  bounce on such a link until it wraps, and the two ends then route to each other. Three hosts in a row are enough
  (`FloodWrap.LineCanLoop`).
* A packet that reaches the owning host on a device with another address is not handed up there but sent out again on
  every device (`Delivery.OwnerDeliversOnItsDevice`), and may come back on the right one (`Delivery.SecondArrival`, and
  `Delivery.LineDeliversOnSecondArrival` for three hosts in a row). Every packet is handed up on its first arrival at an
  owner, on every run, if and only if the owners' links to other hosts are all on devices with that very address
  (`Delivery.FirstArrivalsDeliverIff`). First or later, the devices on which some run hands it up are exactly the
  attached ones with its address (`Delivery.HandedUpIff`): for an address whose device is not attached, packets are
  routed to the owning host and handed up never (`Delivery.PairNeverDelivers`).

## Model

| member | source | states |
|---|---|---|
| SocketObject.Socket.constructor | include/core.h:149-166 | a new socket has an empty buffer of 2^20 zero bytes, marks at 0, and no role or state |
| SocketObject.Socket.MyWrite | include/core.h:94-104 | appends the caller's bytes at the size mark and changes nothing else |
| SocketObject.Socket.MyRead | include/core.h:66-92 | waits until enough has arrived, then returns exactly the `len` bytes at the read mark and advances it by as much |
| SocketObject.Socket.WriteSegment | src/socket.cc:137-154 | sends at most 1000 bytes from the write mark and advances the mark over them |
| SocketObject.Socket.RecvTCPPacket | src/tcp.cc:308-360 | stores data at its offset and acknowledges that segment; on an acknowledgement moves the write mark and sends the next chunk; a bound socket ignores acknowledgements; answers go back along the reversed tuple |
| SocketObject.Socket.ReadIPPacket | src/tcp.cc:113-277 | for every state and every combination of control bits: data, and acknowledgements in ESTAB, keep the state and go to the stream; anything else follows the state diagram and is answered as it says; ready flags and address |
| SocketObject.Socket.BeginAccept | src/socket.cc:90-102 | the new socket takes the address and listens in place of the old one |
| SocketObject.Socket.EndAccept | src/socket.cc:104-114 | the old socket listens again exactly when SYN and ACK have come in on the new one |
| SocketObject.Socket.Connect | src/socket.cc:44-71 | stores the peer's address, sends it a SYN and waits in SYNSENT |
| SocketObject.Socket.Close | src/socket.cc:166-198 | a server only waits; anyone else sends a FIN and is in FINWAIT1 |
| SocketObject.ServerAfterIsStreamStep | src/tcp.cc:316-320 | the server-side buffer after any number of segments, used below, is what `RecvTCPPacket` produces |
| SocketObject.ServerWriteReturnsIff | src/tcp.cc:316-320 | a write on a bound socket can ever return if and only if at most one segment is unsent once its bytes are appended |
| SocketObject.LongServerWriteHangs | src/tcp.cc:316-320 | a write of 1001 bytes on a fresh bound socket never returns, whatever arrives |
| Endpoints.AckMovesMark | src/tcp.cc:322-336 | the write mark becomes the acknowledgement as a signed 32-bit number, whatever it says, and a segment follows exactly if it is below the size mark |
| SocketStream.Write | include/core.h:94-104 | a write on an established client socket is the stream's append |
| SocketStream.SendFirst | src/socket.cc:137-154 | its own segment is the stream's send |
| SocketStream.ServerReceives | src/tcp.cc:274-276 | data that an established server socket gets through `ReadIPPacket` is the stream's delivery, with the same answer |
| SocketStream.ClientReceives | src/tcp.cc:270-272 | so is an acknowledgement that an established client socket gets |
| SocketStream.Read | include/core.h:66-92 | a read that need not wait is the stream's read |
| StreamSafety.ReadsReturnWhatTheyAsk | include/core.h:83-91 | over every run, `read` calls return as many bytes as they ask for, and the read mark is their sum |
| StreamSafety.AppendIsSafe | include/core.h:94-104 | a write extends the stream by exactly its bytes and falsifies nothing in flight |
| StreamSafety.StepIsSafe | src/tcp.cc:322-353 | under any network: every data segment in flight is the matching slice of the stream, every acknowledgement is at most its length, every cell the receiver ever stored agrees with it, `writep <= sizep` |
| StreamSafety.RunsAreSafe | src/tcp.cc:308-360 | the same in every state of every run |
| StreamSafety.WrittenIsAllWrites | src/socket.cc:133-160 | the sender's buffer is the concatenation of all writes, whatever else happens |
| StreamSafety.DeliveryStaysInBounds | src/tcp.cc:339 | no reachable delivery copies outside the 2^20-byte buffer |
| StreamContiguity.ContiguousIsPrefix | src/tcp.cc:339-344 | a receiver without holes holds a prefix of the stream |
| StreamContiguity.StepKeepsReads | include/core.h:83-91 | while the receiver has no hole, all bytes returned by `read` are a prefix of all bytes written |
| StreamFifo.ChainShrinks | src/tcp.cc:339-344 | taking the earliest segment keeps every later one starting at or below the size mark it will meet |
| StreamFifo.StepKeepsInv | src/tcp.cc:322-353 | over a FIFO lossless data channel every step keeps the receiver without holes |
| StreamFifo.FifoStreamIsPrefix | src/tcp.cc:308-360 | over a FIFO lossless data channel, with acknowledgements lost, copied or reordered at will and writes and reads of any size: the receiver's bytes are a prefix of all bytes written, and the bytes returned by `read` are exactly the first of them, as many as were asked for |
| StreamDrain.DeliverKeepsCover | src/tcp.cc:322-353 | a delivered message hands every byte it was responsible for to the message it causes |
| StreamDrain.StepKeepsInv | src/tcp.cc:316-355 | without loss, every unarrived byte stays covered by a chain in flight or by the writer, even while the writer waits for the lock |
| StreamDrain.AtRestEverythingArrived | src/tcp.cc:316-355 | whenever a lossless run comes to rest, the marks of both ends agree and the receiver's buffer is the whole stream |
| StreamDrain.CausesLess | src/tcp.cc:322-353 | a message weighs more than what its delivery sends |
| StreamDrain.StepLowersMeasure | src/tcp.cc:322-353 | every send, return or delivery lowers a measure of the traffic still possible |
| StreamDrain.RunsDrain | src/socket.cc:136-157 | once writes stop, the number of remaining protocol steps is bounded |
| StreamDrain.StreamDrains | src/socket.cc:136-157 | the two together: after the last write every lossless run with any reordering is bounded, and where it can go no further everything written has arrived |
| StreamLongWrites.StepKeepsInv | src/socket.cc:140-157 | if `write`'s own segment leaves more than a segment unsent, `write` returns only when the receiver has everything |
| StreamLongWrites.LongWritesAreGapFree | src/socket.cc:140-157 | with writes longer than 1000 bytes and no acknowledgement processed between append and send: under any loss, duplication and reordering the receiver holds a gap-free prefix, the reads are exactly the first bytes written, as many as were asked for, and a returned write has been received in full |
| StreamLongWrites.EarlyReturnOpensHole | src/socket.cc:141-157 | otherwise a run in which a later segment overtakes leaves a hole |
| StreamLongWrites.SendKeepsItIff | src/socket.cc:141 | the send of `write` is harmless if and only if more than 1000 bytes are unsent or the receiver is complete |
| StreamLongWrites.LongWritesMayOpenHole | src/socket.cc:136-157 | a run with only long writes reaches a hole through a copied acknowledgement |
| StreamStopAndWait.AtMostOneInFlight | src/socket.cc:140-157 | long writes over a network without copies: at most one message in flight, none once `write` has returned, and the stream is gap-free |
| StreamStopAndWait.WriteUsesFewestSegments | src/tcp.cc:322-353 | a completed write of n bytes used exactly ceil(n/1000) data segments and as many acknowledgements |
| StreamStopAndWait.ShortWriteReturnsAtOnce | src/socket.cc:140-157 | a write of at most 1000 bytes that finds nothing unsent is one segment and need not wait |
| Segments.BitsOfHighByte | src/tcp.cc:18-26 | FIN, SYN and ACK are bits 0, 1 and 4 of the byte at offset 13 |
| Segments.SynSetterIsIndependent | src/tcp.cc:27-29 | setting SYN sets it and leaves FIN and ACK |
| Segments.FinSetterIsIndependent | src/tcp.cc:30-32 | setting FIN sets it and leaves SYN and ACK |
| Segments.AckSetterIsIndependent | src/tcp.cc:33-35 | setting ACK sets it and leaves SYN and FIN |
| Segments.FlagWord | src/tcp.cc:173-195 | the flag words the source builds carry exactly the intended bits |
| Segments.ReactFollowsDiagram | src/tcp.cc:164-275 | the branches are the arcs of the state diagram, with its answers, and hand exactly data and established acknowledgements to the stream |
| Demultiplexing.Find | src/tcp.cc:78-104 | the first socket that matches, if there is one |
| Demultiplexing.SocketTable.RecvIPPacket | src/tcp.cc:67-104 | the search takes the first match, gives a SYN's tuple to the listening socket, and falls back on descriptor 100 |
| Demultiplexing.SynFindsListener | src/tcp.cc:78-90 | in tables of any length a SYN goes to the first socket that listens on its destination address and port |
| Demultiplexing.SegmentFindsConnection | src/tcp.cc:91-104 | anything else goes to the first socket of its connection |
| Demultiplexing.DemuxFindsTheSocket | src/tcp.cc:78-104 | over the server's two sockets the search picks what the joint model says |
| SocketConnection.ClientConnects | src/socket.cc:44-64 | `connect` on the client's socket is the step of the joint model |
| SocketConnection.ClientCloses | src/socket.cc:178-188 | so is `close` |
| SocketConnection.AcceptEnds | src/socket.cc:104-114 | so is the return of `accept`, which waits exactly while the step is not enabled |
| SocketConnection.ClientReceives | src/tcp.cc:164-275 | a segment that the client's socket reads is the step, with the same answers |
| SocketConnection.ServerReceives | src/tcp.cc:164-275 | so is one that the server's socket found by the search reads |
| ConnectionSafety.StepKeepsInv | src/tcp.cc:164-273 | every segment in flight is justified by the states of the ends, under any network |
| ConnectionSafety.EndsProgressInStep | src/tcp.cc:164-273 | in every reachable state: a server past ESTAB implies a client past ESTAB, LASTACK implies the client has closed, client TIMEWAIT implies a server socket has sent its FIN; it is the connection's own, in LASTACK or CLOSED, if and only if no SYN was diverted to the listening socket |
| ConnectionSafety.CapturedKeepsConn | src/tcp.cc:78-103 | once the listening socket has taken a late SYN, the connection's own socket keeps its state for good |
| ConnectionSafety.DivertedLeavesEstab | src/tcp.cc:78-103 | a run diverts a SYN exactly when it ends with the connection's own socket cut off in ESTAB |
| ConnectionNoCopies.StepKeepsInv | src/tcp.cc:173-177 | without copies, acknowledgements to the server are budgeted: one to enter ESTAB, one to leave LASTACK |
| ConnectionNoCopies.ServerClosesAfterClientGotFin | src/tcp.cc:230-269 | without copies the server's socket is CLOSED only if the client is in CLOSING or TIMEWAIT |
| ConnectionCopies.CopiedHandshakeAckClosesEarly | src/tcp.cc:256-269 | with a copy of the handshake acknowledgement it may be CLOSED while the client is in FINWAIT1 |
| ConnectionCopies.CopiedSynDivertsClose | src/tcp.cc:78-103 | with a copied SYN after `accept` the listening socket takes over and the connection's socket stays in ESTAB |
| ConnectionCopies.EarlyCloseIff | src/tcp.cc:256-269 | a socket in LASTACK whose FIN the client has not got can close too early if and only if an acknowledgement is in flight to it |
| ConnectionCopies.LateSynDivertsIff | src/tcp.cc:79-89 | after a SYN that the listening socket takes, the connection's own socket ends in LASTACK or CLOSED if and only if it was past ESTAB before |
| ConnectionClosing.ClientStateAfterClose | src/tcp.cc:230-266 | after `close`, on any network: TIMEWAIT if and only if both a FIN and an acknowledgement have been delivered, CLOSING a FIN only, FINWAIT2 an acknowledgement only, FINWAIT1 neither |
| ConnectionTeardown.ServerKeepsBalance | src/tcp.cc:214-269 | the server's answers keep the count of FINs and acknowledgements in flight balanced in every joint state |
| ConnectionTeardown.ClientKeepsBalance | src/tcp.cc:230-266 | the client's answers do too |
| ConnectionTeardown.StepLowersMeasure | src/tcp.cc:214-275 | after close, every delivery lowers a measure, also with data still in flight |
| ConnectionTeardown.CloseStartsTeardown | src/socket.cc:178-188 | whatever was lost or reordered before, the close starts from a balanced state |
| ConnectionTeardown.CloseCompletes | src/socket.cc:178-195 | from both ends in ESTAB, after the client closes, every lossless run in any order is bounded and ends with the client in TIMEWAIT and the server CLOSED |
| RouteTableObject.Kernel.GetDeviceID | include/core.h:319-326 | the last device with the name, or -1 |
| RouteTableObject.Kernel.SetRoutingTable | include/ip.h:131-158 | sets exactly the entry of this key, or fails and changes nothing for an unknown device |
| RouteTableObject.Kernel.MyArpLookForRoute | include/ip.h:239-259 | returns the entry of exactly this destination and mask, if there is one |
| RouteTableObject.Kernel.LookForRoute | include/ip.h:188-237 | the broadcast address on all devices for a broadcast or an unknown destination, else the recorded hardware address and device |
| RouteTableObject.Kernel.SendIPPacket | src/ip.cc:24-48 | one frame for each next hop |
| RouteTableObject.Kernel.SendArp | src/myArp.cc:12-29 | announces every own address with ttl 8 on every device |
| RouteTableObject.Kernel.SendArpBroadCast | src/myArp.cc:30-42 | relays an announcement on every device with its ttl cut to 8 bits |
| RouteTableObject.Kernel.RecvArp | src/myArp.cc:44-76 | drops own addresses, records a first or larger ttl, and relays either way with ttl less one |
| RouteTableObject.Kernel.Forward | src/forward.cc:13-19 | drops a packet that arrives with ttl 0, else sends it on with ttl less one |
| RouteTableObject.Kernel.RecvFrame | src/ip.cc:101-149 | ignores own frames, delivers to the receiving device's address, handles announcements, forwards the rest |
| Flood.AnnouncementsAreRecognised | src/ip.cc:110-142 | on a valid topology every announcement that arrives over a link reaches `recvArp` |
| Flood.OverhearingChangesNothing | src/ip.cc:110-112 | a host that captures an announcement it has just sent does nothing |
| FloodSafety.RoutesChangeOnlyForLarger | src/myArp.cc:64-71 | over any run without manual routes an entry changes only to one with a larger ttl |
| FloodSafety.RelayIsBacked | src/myArp.cc:53-73 | what is relayed is one less than an entry the relaying host now has, unless it has wrapped |
| FloodSafety.StepKeepsInv | src/myArp.cc:44-75 | every entry points to an owner with ttl 8 or to a host with a larger entry, and every announcement comes from such a host |
| FloodSafety.NextHopIsCloser | include/ip.h:206-222 | the next hop of an entry is an owner or has a larger ttl |
| FloodSafety.RoutesAreLoopFree | src/myArp.cc:44-75 | in every reachable state, under any loss, copies and reordering, following next hops from a host with ttl t reaches an owner within 9 - t hops and visits no host twice, and no sequence of next hops is a circle |
| FloodShortest.EntryIsWithin | src/myArp.cc:56-71 | an entry with ttl t belongs to a host at most 9 - t links from an owner |
| FloodShortest.StepKeepsSpread | src/myArp.cc:60-73 | without loss, what a host knows each neighbour knows one less of, or is about to be told |
| FloodShortest.WithinHasEntry | src/myArp.cc:60-73 | once drained, a host within d links has an entry with ttl at least 9 - d |
| FloodShortest.FloodFindsShortestPaths | src/myArp.cc:12-75 | when a lossless flood has drained, the hosts with an entry are exactly those within nine links, at distance d the ttl is 9 - d, and the next hop is at distance d - 1 |
| FloodTermination.RelaysWeighLess | src/myArp.cc:30-42 | the relays of an announcement together weigh less than it |
| FloodTermination.FloodDiesOut | src/myArp.cc:60-73 | on any topology with at most D devices per host, at most the sum of (D + 1)^ttl announcements are still processed |
| FloodSettles.FloodSettles | src/myArp.cc:12-75 | after every owner has announced itself, a lossless flood processes a bounded number of announcements, and where it can process no more the tables are shortest paths |
| FloodFrames.AnnouncementFrames | src/myArp.cc:30-42 | the frames that `SendArpBroadCast` returns are the announcements that the flood puts on the links |
| FloodFrames.FramesReachNeighbour | include/ip.h:206-222 | in every state of the flood, a host with an entry sends one frame, on a linked device, to the hardware address at the other end |
| FloodFrames.FramesReachAll | include/ip.h:223-233 | without one it sends a frame to all on every device |
| FloodFrames.SendArpFrames | src/myArp.cc:12-29 | those of `SendArp` are the step that starts a flood |
| FloodFrames.RecvArpFrames | src/myArp.cc:44-76 | the table and the frames of `RecvArp` are the step that delivers an announcement |
| FloodWalks.RelayIsExplained | src/myArp.cc:60-73 | relaying extends the walk an announcement has taken, modulo 256 |
| FloodWalks.EntriesComeFromWalks | src/myArp.cc:44-76 | for the code as written: an entry is manual or comes from a walk of some length d from an owner that ends on the recorded device, with ttl = 9 - d modulo 256 |
| FloodWalks.ManualRoutesStay | src/sender.cc:99 | no announcement ever displaces a manual route with ttl 1024 |
| FloodWrap.Bounce | src/myArp.cc:60-73 | a delivered announcement crosses the same link back with one less |
| FloodWrap.WrappingMakesLoop | src/myArp.cc:60-73 | letting an announcement bounce until it wraps makes the two ends of the link point at each other |
| FloodWrap.LoopFreedomNeedsNoWrap | src/myArp.cc:60-73 | from every reachable state with such an announcement in flight, the unrestricted code has a run to a routing loop |
| FloodWrap.RunsKeepDirect | src/myArp.cc:44-76 | where hosts next to an owner have links to owners only, every entry leads straight to an owner, wrapped or not |
| FloodWrap.LoopFreeIff | src/myArp.cc:44-76 | without manual routes the code as written is loop-free for an address on every run if and only if no host next to an owner has a link to a host that is no owner |
| FloodWrap.LineCanLoop | src/myArp.cc:60-73 | on three hosts in a row, whose devices have unique names, it can loop |
| Forwarding.CapturingChangesNothing | src/ip.cc:110-112 | a host that captures a packet it has just sent does nothing |
| Forwarding.NextHopIsOnCourse | include/ip.h:206-222 | a packet on course is on course at the next hop |
| Forwarding.RelayKeepsGoing | src/forward.cc:13-18 | in every reachable state a packet that has not strayed and is not at an owner is not dropped by the ttl test and goes to exactly one next host with ttl less one |
| Forwarding.StepKeepsInv | src/myArp.cc:68-70 | route updates that interleave with forwarding keep every packet on course that has not strayed |
| Forwarding.PacketsReachOwners | src/tcp.cc:304 | a packet sent with ttl 10 from a host whose entry has ttl t is, with ttl left, at an owner within 9 - t hops, or goes on to exactly one neighbour with ttl less one; what is handed up has come in on the device with its address |
| Delivery.OwnerDeliversOnItsDevice | src/ip.cc:126-147 | at an owner a packet is handed up exactly on the device with its address, and otherwise sent out again over all links and nowhere else |
| Delivery.FirstArrivalIff | src/ip.cc:126-147 | a packet can first meet an owner on a link exactly when the host at the other end is no owner |
| Delivery.FirstArrivalsDeliverIff | src/ip.cc:126-130 | every packet that meets an owner is handed up on its first arrival, on every run, if and only if the owners' links to other hosts are on devices with that address |
| Delivery.HandedUpIff | src/ip.cc:126-147 | whatever the tables and the network do, some run hands up a packet for an address on a port if and only if that is an attached device with that address |
| Delivery.HandedUpStraightIff | src/ip.cc:126-147 | for packets that have not strayed, if and only if moreover the host at the other end of the link is no owner |
| Delivery.SecondArrival | src/ip.cc:144-147 | a packet that an owner sends out again is handed up on the right device if the host behind that device has no entry or one that points back |
| Delivery.LineDeliversOnSecondArrival | src/ip.cc:144-147 | on three hosts in a row it always can be |
| Delivery.PairNeverDelivers | src/ip.cc:126-130 | on two hosts, packets for a device that is not attached reach the owning host and are handed up on no run |
| ForwardingTermination.ForwardedWeighsLess | src/forward.cc:13-18 | what a host forwards, on all devices or one, weighs less than what it received |
| ForwardingTermination.PacketsDieOut | src/forward.cc:13-18 | with at most D devices per host, at most the sum of (D + 1)^(ttl + 1) packets are still received once nobody sends, whatever the tables are |
| Queues.TestsAreExact | include/utils.h:128-134 | `isfull` holds exactly at `capacity` elements and `isempty` exactly at none |
| Queues.PushAppends | include/utils.h:142-143 | storing at the end mark appends, across the wraparound too, and stays in the array |
| Queues.PopTakesOldest | include/utils.h:153-154 | moving the start mark takes the oldest element, across the wraparound too |
| Queues.BlockingQueue.constructor | include/utils.h:125-126 | a new queue is empty and has the given capacity |
| Queues.BlockingQueue.IsEmpty | include/utils.h:128-130 | whether there are no elements |
| Queues.BlockingQueue.IsFull | include/utils.h:132-134 | whether there are `capacity` elements |
| Queues.BlockingQueue.Push | include/utils.h:136-145 | appends unless full, in which case nothing changes |
| Queues.BlockingQueue.Pop | include/utils.h:147-157 | removes and returns the oldest element unless empty |
| Pipeline.HeldPacketIsOldest | src/tcp.cc:117 | once an id has been popped, its packet is there and is the oldest pending one |
| Pipeline.StepKeepsInv | src/tcp.cc:105-117 | the two levels together hold one queue of pending packets |
| Pipeline.ProcessedInOrder | src/recver.cc:52-58 | the k-th packet processed is the k-th that was enqueued, which is the k-th that arrived, and the inner pop never blocks |
| Pipeline.QueueLengthCountsIds | src/tcp.cc:105-110 | a socket's queue is as long as its ids queued or being moved |
| Pipeline.OnlyStuckWhenDone | include/utils.h:136-157 | with any positive capacities neither thread can block the other for good |
| Pipeline.EveryPacketIsProcessed | src/recver.cc:52-58 | every packet takes four steps; a run is stuck exactly when all packets have been processed |
| PacketQueues.PacketQueues.PushPacket | src/tcp.cc:105-108 | on ring buffers, the packet push is the step of `Pipeline` and waits exactly when that is not enabled |
| PacketQueues.PacketQueues.PushId | src/tcp.cc:109 | likewise the id push |
| PacketQueues.PacketQueues.PopId | src/recver.cc:54 | likewise the id pop |
| PacketQueues.PacketQueues.PopPacket | src/tcp.cc:117-119 | likewise the packet pop, with the packet it returns |
| Wire.TcpRoundTrip | src/tcp.cc:279-292 | every TCP field and the payload can be read back, whatever the unset header bytes hold |
| Wire.IpRoundTrip | src/ip.cc:63-92 | every IP field can be read back, and the total length is right exactly below 2^16 |
| Wire.FrameRoundTrip | src/packetio.cc:15-36 | the frame returns both addresses and the payload, with the type most significant byte first and check bytes of 0 |
| Wire.SegmentRoundTrip | src/tcp.cc:121-138 | reading a sent segment returns it whole, for every payload that fits the receive buffers |
| Wire.HeaderLayoutIsStandard | src/tcp.cc:18-35 | control bits, sequence and acknowledgement number stand where section 3.1 of RFC 793 puts them, the ports as they are in memory |
| Wire.IpLayoutIsStandard | src/ip.cc:63-92 | the IP header is laid out as in section 3.1 of RFC 791, the addresses as they are in memory |
| Wire.SegmentIsTaggedTcp | src/packetio.cc:15-36 | a segment travels as protocol 6 in a frame of type 0x0800 |
| WireBuffers.ConstructTCPPacket | src/tcp.cc:279-292 | the header and payload are the encoding, for some content of the unset header fields |
| WireBuffers.ConstructIPPacket | src/ip.cc:63-92 | fills the caller's buffer with the encoding |
| WireBuffers.ConstructFrame | src/packetio.cc:15-36 | the frame buffer holds the encoding |
| WireBuffers.SendSegment | src/tcp.cc:279-306 | the bytes sent are the encoding of the segment, for some content of the unset header fields |

## Left out

- StreamSafety.DeliveryStaysInBounds: a write is enabled only while the whole stream fits the 2^20-byte buffer, which the
  source relies on without testing; what happens beyond is undefined there.
- StreamFifo.FifoStreamIsPrefix: one direction only, client to server, because a socket has one buffer for both; one
  writing and one reading thread, and no close while the stream is live.
- StreamDrain.StreamDrains: the sequence field of an acknowledgement and the acknowledgement field of data are carried
  by `Socket.RecvTCPPacket` but dropped from the stream model, as nothing reads them.
- ConnectionSafety.EndsProgressInStep: one client and one `accept`; finding a segment's socket and processing it is one
  step, which the order result of `Pipeline` justifies except for a SYN found before an earlier one is processed; the
  FIN and the change to FINWAIT1 are one step; a SYN that no socket listens for is undefined in the source and lost here.
- SocketObject.Socket.constructor: `acc_ack_ready` and the address are uninitialised in the source, so nothing is promised
  about them.
- SocketObject.Socket.BeginAccept: the copy of the listening socket's other fields and the insertion into the socket map.
- FloodSafety.RoutesAreLoopFree: for runs without manual routes in which no wrapped announcement is delivered; the
  unrestricted code is covered by `FloodWalks` and, with its exact condition, `FloodWrap`.
- Forwarding.PacketsReachOwners: the bound of 9 - t hops is for packets that have followed entries all the way; those
  that a host without an entry has sent out on all devices are followed too, but only `Delivery` and
  `ForwardingTermination` speak of them. Packets are lost and reordered, not copied.
- RouteTableObject.Kernel.LookForRoute: uses the search loop of `myArpLookForRoute`, which the source repeats.
- Wake-ups of waiting threads: a wait loop is a guard on the step that follows it.
- Socket creation, `bind`, `listen` and `getaddrinfo`, descriptor limits and device enumeration.
- Packet capture and sending, thread start-up, logging, memory management, the IP checksum (always 0), fragmentation, TCP
  windows, options and timers, none of which carry logic in the source.
