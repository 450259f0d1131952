/** The frames that the methods of `Kernel` return are the announcements that module `Flood` puts on the links. */
module FloodFrames {
  import opened Bytes
  import opened Routes
  import opened Flood
  import opened RouteTableObject
  import FloodSafety

  /** The announcements that frames sent by host `h` become at the other ends of its links. */
  function OnLinks(t: Topology, h: nat, frames: seq<Frame>): seq<Ann> {
    if frames == [] then []
    else
      var last := frames[|frames| - 1];
      var port := Port(h, last.hop.dev);
      OnLinks(t, h, frames[..|frames| - 1]) +
      if port in t.link then [Ann(last.packet.src, last.packet.ttl, t.link[port])] else []
  }

  /** `SendArpBroadCast` sends what `Broadcast` says. */
  lemma {:induction false} AnnouncementFrames(t: Topology, h: nat, frames: seq<Frame>, src: uint32, ttl: int)
    requires IsAnnouncementOnAll(frames, |frames|, src, ttl)
    ensures OnLinks(t, h, frames) == OnDevices(t, h, src, WireTtl(ttl), |frames|)
    decreases |frames|
  {
    if frames != [] {
      AnnouncementFrames(t, h, frames[..|frames| - 1], src, ttl);
    }
  }

  function AllOnLinks(t: Topology, h: nat, frames: seq<seq<Frame>>): seq<Ann> {
    if frames == [] then []
    else AllOnLinks(t, h, frames[..|frames| - 1]) + OnLinks(t, h, frames[|frames| - 1])
  }

  /**
   In every state of the flood, what a host sends towards an address it has an entry for is one frame, on a device with
   a link and to the hardware address of the device at the other end.
   */
  lemma FramesReachNeighbour(t: Topology, s: State, h: nat, p: Packet)
    requires FloodSafety.Inv(t, s) && h < |t.hosts| && p.dst != BROADCAST && Key(p.dst) in s.tables[h]
    ensures
      var frames := FramesOn(NextHops(t.hosts[h], s.tables[h], p.dst, FULL_MASK), p);
      && |frames| == 1 && frames[0].packet == p
      && Port(h, frames[0].hop.dev) in t.link
      && ValidPort(t, t.link[Port(h, frames[0].hop.dev)])
      && frames[0].hop.mac == DeviceAt(t, t.link[Port(h, frames[0].hop.dev)]).mac
  {
    assert FloodSafety.EntryInv(t, s, h, Key(p.dst));
  }

  /** Towards any other address it is one frame on every device, to all. */
  lemma FramesReachAll(t: Topology, s: State, h: nat, p: Packet)
    requires h < |t.hosts| && h < |s.tables| && (p.dst == BROADCAST || Key(p.dst) !in s.tables[h])
    ensures
      var frames := FramesOn(NextHops(t.hosts[h], s.tables[h], p.dst, FULL_MASK), p);
      |frames| == |t.hosts[h]| && forall i :: 0 <= i < |frames| ==> frames[i] == Frame(Hop(BROADCAST_MAC, i), p)
  {
  }

  /** `SendArp` sends what the step `Announce` adds. */
  lemma {:induction false} SendArpFrames(t: Topology, h: nat, frames: seq<seq<Frame>>)
    requires h < |t.hosts| && |frames| <= |t.hosts[h]|
    requires forall i :: 0 <= i < |frames| ==>
               IsAnnouncementOnAll(frames[i], |t.hosts[h]|, t.hosts[h][i].ip, FLOOD_TTL)
    ensures AllOnLinks(t, h, frames) == AnnounceUpTo(t, h, |frames|)
    decreases |frames|
  {
    if frames != [] {
      var k := |frames| - 1;
      SendArpFrames(t, h, frames[..k]);
      AnnouncementFrames(t, h, frames[k], t.hosts[h][k].ip, FLOOD_TTL);
      assert WireTtl(FLOOD_TTL) == FLOOD_TTL;
    }
  }

  /** What `RecvArp` does with the announcement `a`, its new table and its frames, is the step `Deliver`. */
  lemma RecvArpFrames(t: Topology, s: State, a: Ann, table: Table, relay: bool, frames: seq<Frame>)
    requires a.at in t.link && ValidPort(t, a.at) && ValidPort(t, t.link[a.at]) && a.at.host < |s.tables|
    requires RecvAnnouncement(t.hosts[a.at.host], s.tables[a.at.host], a.addr, FULL_MASK, a.at.dev,
                              DeviceAt(t, t.link[a.at]).mac, a.ttl) == (table, relay)
    requires relay ==> IsAnnouncementOnAll(frames, |t.hosts[a.at.host]|, a.addr, a.ttl - 1)
    requires !relay ==> frames == []
    ensures Receive(t, s, a) == (table, OnLinks(t, a.at.host, frames))
  {
    if relay {
      AnnouncementFrames(t, a.at.host, frames, a.addr, a.ttl - 1);
    }
  }
}
