/** The route table and the announcement rule of myArp, as functions of their values. */
module Routes {
  import opened Bytes

  const BROADCAST: uint32 := 0xffff_ffff
  const FULL_MASK: uint32 := 0xffff_ffff
  const MANUAL_TTL: int := 1024
  const FLOOD_TTL: int := 8
  const TCP_TTL: int := 10

  type Mac = s: seq<uint8> | |s| == 6 witness [0, 0, 0, 0, 0, 0]

  const BROADCAST_MAC: Mac := [0xff, 0xff, 0xff, 0xff, 0xff, 0xff]

  datatype RtKey = RtKey(dest: uint32, mask: uint32)

  datatype RtValue = RtValue(dev: nat, mac: Mac, ttl: int)

  type Table = map<RtKey, RtValue>

  datatype Device = Device(ip: uint32, mac: Mac, name: string)

  /** Device names are unique: `addDeviceKernel` adds a name only once. */
  predicate UniqueNames(devices: seq<Device>) {
    forall i, j :: 0 <= i < j < |devices| ==> devices[i].name != devices[j].name
  }

  datatype Hop = Hop(mac: Mac, dev: nat)

  /** Some device of the host has this address. */
  predicate Owns(devices: seq<Device>, addr: uint32) {
    exists i :: 0 <= i < |devices| && devices[i].ip == addr
  }

  /** `int` to the header's 8-bit ttl. */
  function WireTtl(ttl: int): uint8 {
    ttl % 0x100
  }

  /**
   `recvArp`: an announcement of an own address is dropped; any other is recorded if it is the first or has a
   larger ttl than the one recorded, and in either case relayed with its ttl less one.
   */
  function RecvAnnouncement(devices: seq<Device>, table: Table, src: uint32, mask: uint32, dev: nat, mac: Mac, ttl: uint8)
    : (r: (Table, bool))
  {
    var key := RtKey(src, mask);
    if Owns(devices, src) then (table, false)
    else if key !in table || table[key].ttl < ttl then (table[key := RtValue(dev, mac, ttl)], true)
    else (table, true)
  }

  function AllDevices(n: nat): seq<Hop> {
    seq(n, i requires 0 <= i < n => Hop(BROADCAST_MAC, i))
  }

  /** `lookForRoute`: every device for a broadcast and for an unknown destination, else the recorded next hop. */
  function NextHops(devices: seq<Device>, table: Table, dest: uint32, mask: uint32): seq<Hop> {
    var key := RtKey(dest, mask);
    if dest == BROADCAST then AllDevices(|devices|)
    else if key in table then [Hop(table[key].mac, table[key].dev)]
    else AllDevices(|devices|)
  }

  const L3_MYARP: uint8 := 0x8f

  /** What `recvFrame` decides about a packet that arrived on a device. */
  datatype Dispatch = OwnFrame | Local | Announcement | Forward

  /** Local delivery looks at the address of the receiving device only. */
  function Classify(device: Device, srcMac: Mac, dst: uint32, proto: uint8): Dispatch {
    if srcMac == device.mac then OwnFrame
    else if device.ip == dst then Local
    else if proto == L3_MYARP then Announcement
    else Forward
  }

  /** `forward`: a packet that arrives with ttl 0 goes no further. */
  function ForwardTtl(ttl: uint8): (r: int)
    ensures r < 0 <==> ttl == 0
  {
    ttl - 1
  }
}
