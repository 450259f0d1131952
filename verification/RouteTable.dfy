/** `opRoutingTable` and the kernel's devices, with the announcement handlers that update them in place. */
module RouteTableObject {
  import opened Bytes
  import opened Routes

  datatype Packet = Packet(src: uint32, dst: uint32, proto: uint8, ttl: uint8, payload: seq<uint8>)

  datatype Frame = Frame(hop: Hop, packet: Packet)

  /** The announcement of `src` with this ttl, on every device; its payload is one arbitrary byte. */
  predicate IsAnnouncementOnAll(frames: seq<Frame>, n: nat, src: uint32, ttl: int) {
    && |frames| == n
    && forall i :: 0 <= i < n ==>
         && frames[i].hop == Hop(BROADCAST_MAC, i)
         && frames[i].packet.src == src && frames[i].packet.dst == 0xffff_ffff
         && frames[i].packet.proto == 0x8f && frames[i].packet.ttl == WireTtl(ttl)
  }

  function FramesOn(hops: seq<Hop>, p: Packet): (r: seq<Frame>)
    ensures |r| == |hops| && forall i :: 0 <= i < |r| ==> r[i] == Frame(hops[i], p)
  {
    seq(|hops|, i requires 0 <= i < |hops| => Frame(hops[i], p))
  }

  /** Device `j` has the name and none after it does. */
  predicate IsLastNamed(devices: seq<Device>, name: string, j: nat) {
    && j < |devices| && devices[j].name == name
    && forall k :: j < k < |devices| ==> devices[k].name != name
  }

  class Kernel {
    const devices: seq<Device>
    var routeTable: Table

    constructor (devices: seq<Device>)
      ensures this.devices == devices && routeTable == map[]
    {
      this.devices := devices;
      routeTable := map[];
    }

    /** The last device with this name, or -1. */
    method GetDeviceID(name: string) returns (ret: int)
      ensures -1 <= ret < |devices|
      ensures ret >= 0 ==> IsLastNamed(devices, name, ret)
      ensures ret < 0 ==> forall j :: 0 <= j < |devices| ==> devices[j].name != name
    {
      ret := -1;
      for i := 0 to |devices|
        invariant -1 <= ret < i
        invariant ret >= 0 ==> devices[ret].name == name && forall j :: ret < j < i ==> devices[j].name != name
        invariant ret < 0 ==> forall j :: 0 <= j < i ==> devices[j].name != name
      {
        if devices[i].name == name {
          ret := i;
        }
      }
    }

    method SetRoutingTable(dest: uint32, mask: uint32, nextHopMAC: Mac, device: string, ttl: int) returns (ok: bool)
      modifies this`routeTable
      ensures ok <==> exists j :: 0 <= j < |devices| && devices[j].name == device
      ensures !ok ==> routeTable == old(routeTable)
      ensures ok ==> exists j: nat :: IsLastNamed(devices, device, j) &&
                       routeTable == old(routeTable)[RtKey(dest, mask) := RtValue(j, nextHopMAC, ttl)]
    {
      var id := GetDeviceID(device);
      if id < 0 {
        return false;
      }
      var key := RtKey(dest, mask);
      if key in routeTable {
        routeTable := routeTable[key := routeTable[key].(dev := id, ttl := ttl)];
        routeTable := routeTable[key := routeTable[key].(mac := nextHopMAC)];
      } else {
        routeTable := routeTable[key := RtValue(id, nextHopMAC, ttl)];
      }
      assert routeTable == old(routeTable)[RtKey(dest, mask) := RtValue(id, nextHopMAC, ttl)];
      ok := true;
    }

    /** One hop for each device, all to the broadcast address. */
    method BroadcastHops() returns (ret: seq<Hop>)
      ensures ret == AllDevices(|devices|)
    {
      ret := [];
      for i := 0 to |devices|
        invariant ret == AllDevices(i)
      {
        ret := ret + [Hop(BROADCAST_MAC, i)];
      }
    }

    /** The entries of the table for exactly this destination and mask, found by going through all of them. */
    method MyArpLookForRoute(dest: uint32, mask: uint32) returns (ret: seq<Hop>, ttl: seq<int>)
      ensures
        var key := RtKey(dest, mask);
        if key in routeTable then ret == [Hop(routeTable[key].mac, routeTable[key].dev)] && ttl == [routeTable[key].ttl]
        else ret == [] && ttl == []
    {
      ret, ttl := [], [];
      var wanted := RtKey(dest, mask);
      var rest := routeTable.Keys;
      while rest != {}
        invariant rest <= routeTable.Keys
        invariant if wanted in routeTable && wanted !in rest
                  then ret == [Hop(routeTable[wanted].mac, routeTable[wanted].dev)] && ttl == [routeTable[wanted].ttl]
                  else ret == [] && ttl == []
        decreases |rest|
      {
        var key :| key in rest;
        rest := rest - {key};
        if dest == key.dest && mask == key.mask {
          ret := ret + [Hop(routeTable[key].mac, routeTable[key].dev)];
          ttl := ttl + [routeTable[key].ttl];
        }
      }
    }

    method LookForRoute(dest: uint32, mask: uint32) returns (ret: seq<Hop>)
      ensures ret == NextHops(devices, routeTable, dest, mask)
      ensures
        var key := RtKey(dest, mask);
        if dest != BROADCAST && key in routeTable then ret == [Hop(routeTable[key].mac, routeTable[key].dev)]
        else |ret| == |devices| && forall i :: 0 <= i < |ret| ==> ret[i] == Hop(BROADCAST_MAC, i)
    {
      if dest == BROADCAST {
        ret := BroadcastHops();
        return;
      }
      var found, _ := MyArpLookForRoute(dest, mask);
      if |found| != 0 {
        return found;
      }
      ret := BroadcastHops();
    }

    /** One frame for each next hop. */
    method SendIPPacket(p: Packet) returns (frames: seq<Frame>)
      ensures frames == FramesOn(NextHops(devices, routeTable, p.dst, FULL_MASK), p)
      ensures
        var key := RtKey(p.dst, FULL_MASK);
        if p.dst != BROADCAST && key in routeTable then
          frames == [Frame(Hop(routeTable[key].mac, routeTable[key].dev), p)]
        else |frames| == |devices| && forall i :: 0 <= i < |frames| ==> frames[i] == Frame(Hop(BROADCAST_MAC, i), p)
    {
      var nHop := LookForRoute(p.dst, FULL_MASK);
      frames := [];
      for i := 0 to |nHop|
        invariant frames == FramesOn(nHop[..i], p)
      {
        frames := frames + [Frame(nHop[i], p)];
      }
    }

    method SendArpBroadCast(src: uint32, ttl: int) returns (frames: seq<Frame>)
      ensures IsAnnouncementOnAll(frames, |devices|, src, ttl)
    {
      var junk: uint8 := *;
      frames := SendIPPacket(Packet(src, BROADCAST, L3_MYARP, WireTtl(ttl), [junk]));
    }

    /** Announces the address of every device on every device. */
    method SendArp() returns (frames: seq<seq<Frame>>)
      ensures |frames| == |devices|
      ensures forall i :: 0 <= i < |devices| ==> IsAnnouncementOnAll(frames[i], |devices|, devices[i].ip, FLOOD_TTL)
    {
      frames := [];
      for i := 0 to |devices|
        invariant |frames| == i
        invariant forall j :: 0 <= j < i ==> IsAnnouncementOnAll(frames[j], |devices|, devices[j].ip, FLOOD_TTL)
      {
        var sent := SendArpBroadCast(devices[i].ip, FLOOD_TTL);
        frames := frames + [sent];
      }
    }

    method RecvArp(src: uint32, mask: uint32, id: nat, mac: Mac, ttl: uint8) returns (frames: seq<Frame>)
      requires UniqueNames(devices) && id < |devices|
      modifies this`routeTable
      ensures
        var (table, relay) := RecvAnnouncement(devices, old(routeTable), src, mask, id, mac, ttl);
        && routeTable == table
        && (relay ==> IsAnnouncementOnAll(frames, |devices|, src, ttl - 1))
        && (!relay ==> frames == [])
      ensures
        var key := RtKey(src, mask);
        if exists i :: 0 <= i < |devices| && devices[i].ip == src then routeTable == old(routeTable) && frames == []
        else
          && IsAnnouncementOnAll(frames, |devices|, src, ttl - 1)
          && routeTable == if key in old(routeTable) && old(routeTable)[key].ttl >= ttl then old(routeTable)
                           else old(routeTable)[key := RtValue(id, mac, ttl)]
    {
      for i := 0 to |devices|
        invariant forall j :: 0 <= j < i ==> devices[j].ip != src
      {
        if devices[i].ip == src {
          return [];
        }
      }
      var key := RtKey(src, mask);
      ghost var updated := routeTable[key := RtValue(id, mac, ttl)];
      var _, ttlList := MyArpLookForRoute(src, mask);
      if |ttlList| == 0 {
        var ok := SetRoutingTable(src, mask, mac, devices[id].name, ttl);
        assert ok && routeTable == updated;
      } else {
        for i := 0 to |ttlList|
          invariant routeTable == if i == 1 && old(routeTable)[key].ttl < ttl then updated else old(routeTable)
        {
          if ttlList[i] < ttl {
            var ok := SetRoutingTable(src, mask, mac, devices[id].name, ttl);
            assert ok && routeTable == updated;
          }
        }
      }
      frames := SendArpBroadCast(src, ttl - 1);
    }

    /** `forward` */
    method Forward(p: Packet) returns (frames: seq<Frame>)
      ensures p.ttl == 0 ==> frames == []
      ensures p.ttl > 0 ==>
                frames == FramesOn(NextHops(devices, routeTable, p.dst, FULL_MASK), p.(ttl := p.ttl - 1))
    {
      if p.ttl == 0 {
        return [];
      }
      frames := SendIPPacket(p.(ttl := p.ttl - 1));
    }

    /** `recvFrame`: the frame is the host's own, for it, an announcement, or to be forwarded. */
    method RecvFrame(id: nat, srcMac: Mac, p: Packet) returns (local: bool, frames: seq<Frame>)
      requires UniqueNames(devices) && id < |devices|
      modifies this`routeTable
      ensures srcMac == devices[id].mac ==> !local && frames == [] && routeTable == old(routeTable)
      ensures local <==> srcMac != devices[id].mac && p.dst == devices[id].ip
      ensures local || p.proto != L3_MYARP ==> routeTable == old(routeTable)
      ensures local <==> Classify(devices[id], srcMac, p.dst, p.proto) == Local
      ensures match Classify(devices[id], srcMac, p.dst, p.proto)
              case OwnFrame => frames == [] && routeTable == old(routeTable)
              case Local => frames == [] && routeTable == old(routeTable)
              case Announcement => (
                var (table, relay) := RecvAnnouncement(devices, old(routeTable), p.src, FULL_MASK, id, srcMac, p.ttl);
                && routeTable == table
                && (relay ==> IsAnnouncementOnAll(frames, |devices|, p.src, p.ttl - 1))
                && (!relay ==> frames == []))
              case Forward =>
                && routeTable == old(routeTable)
                && (p.ttl == 0 ==> frames == [])
                && (p.ttl > 0 ==>
                      frames == FramesOn(NextHops(devices, routeTable, p.dst, FULL_MASK), p.(ttl := p.ttl - 1)))
    {
      local, frames := false, [];
      if srcMac == devices[id].mac {
        return;
      }
      for i := 0 to |devices|
        invariant local == (i > 0 && devices[id].ip == p.dst)
      {
        var deviceIP := devices[id].ip;
        if deviceIP == p.dst {
          local := true;
        }
      }
      if local {
        return;
      } else if p.proto == L3_MYARP {
        frames := RecvArp(p.src, FULL_MASK, id, srcMac, p.ttl);
      } else {
        frames := Forward(p);
      }
    }
  }
}
