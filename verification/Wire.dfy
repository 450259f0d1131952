/**
 Packets as bytes: a TCP header inside an IP header inside an Ethernet frame, laid out as the source's structures
 are on a little-endian host, and how the receiving side reads them back.
 */
module Wire {
  import opened Bytes
  import opened Segments

  const IP_HEADER: nat := 20
  const TCP_HEADER: nat := 20
  const ETH_HEADER: nat := 14
  const CHECKSUM: nat := 4
  const L2_IPV4: uint16 := 0x0800
  const RECEIVE_BUFFER: nat := 2000

  // ---- integers in memory ----

  function LE16(x: uint16): (r: seq<uint8>)
    ensures |r| == 2
  {
    [x % 0x100, x / 0x100]
  }

  function LE32(x: uint32): (r: seq<uint8>)
    ensures |r| == 4
  {
    [x % 0x100, x / 0x100 % 0x100, x / 0x1_0000 % 0x100, x / 0x100_0000]
  }

  function FromLE16(b: seq<uint8>): uint16
    requires |b| == 2
  {
    (b[0] as int) + (b[1] as int) * 0x100
  }

  function FromLE32(b: seq<uint8>): uint32
    requires |b| == 4
  {
    (b[0] as int) + (b[1] as int) * 0x100 + (b[2] as int) * 0x1_0000 + (b[3] as int) * 0x100_0000
  }

  /** `htonl` and `ntohl` on a little-endian host, and `change_Endian` for 16 bits. */
  function Swap32(x: uint32): uint32 {
    var b := LE32(x);
    FromLE32([b[3], b[2], b[1], b[0]])
  }

  function Swap16(x: uint16): uint16 {
    FromLE16([x / 0x100, x % 0x100])
  }

  lemma BytesOf32(b0: uint8, b1: uint8, b2: uint8, b3: uint8)
    ensures LE32(FromLE32([b0, b1, b2, b3])) == [b0, b1, b2, b3]
  {
    LowByte(b2, b3);
    LowByte(b1, b2 + b3 * 0x100);
    LowByte(b0, b1 + (b2 + b3 * 0x100) * 0x100);
  }

  lemma LowByte(b: uint8, rest: nat)
    ensures (b + rest * 0x100) % 0x100 == b && (b + rest * 0x100) / 0x100 == rest
  {
  }

  lemma RoundTrip32(x: uint32)
    ensures FromLE32(LE32(x)) == x && Swap32(Swap32(x)) == x
  {
    var b := LE32(x);
    assert x == x / 0x100 * 0x100 + x % 0x100;
    assert x / 0x100 == x / 0x1_0000 * 0x100 + x / 0x100 % 0x100;
    assert x / 0x1_0000 == x / 0x100_0000 * 0x100 + x / 0x1_0000 % 0x100;
    BytesOf32(b[3], b[2], b[1], b[0]);
  }

  lemma RoundTrip16(x: uint16)
    ensures FromLE16(LE16(x)) == x && Swap16(Swap16(x)) == x
  {
  }

  // ---- encoding ----

  /** `sendTCPPacket`: the fields the header structure does not set keep whatever `junk` memory held. */
  function TcpBytes(s: Segment, junk: seq<uint8>): (r: seq<uint8>)
    requires |junk| == 6
    ensures |r| == TCP_HEADER + |s.payload|
  {
    LE16(s.info.srcPort) + LE16(s.info.dstPort) + LE32(Swap32(s.seqno)) + LE32(Swap32(s.ackno)) + LE16(s.flag) + junk +
    s.payload
  }

  function IpHeaderBytes(src: uint32, dst: uint32, proto: int, ttl: int, total: nat): (r: seq<uint8>)
    ensures |r| == IP_HEADER
  {
    [0x45, 0, total / 0x100 % 0x100, total % 0x100] + [0, 0, 0, 0] + [ttl % 0x100, proto % 0x100, 0, 0] +
    LE32(src) + LE32(dst)
  }

  /** `constructIPPacket` */
  function IpBytes(src: uint32, dst: uint32, proto: int, ttl: int, payload: seq<uint8>): (r: seq<uint8>)
    ensures |r| == IP_HEADER + |payload|
  {
    IpHeaderBytes(src, dst, proto, ttl, IP_HEADER + |payload|) + payload
  }

  /** Bytes 2 and 3 of an IP header. */
  function TotalLengthField(ip: seq<uint8>): nat
    requires |ip| >= IP_HEADER
  {
    (ip[2] as int) * 0x100 + (ip[3] as int)
  }

  /** `constructFrame` */
  function FrameBytes(dstMac: seq<uint8>, srcMac: seq<uint8>, ethType: uint16, payload: seq<uint8>): (r: seq<uint8>)
    requires |dstMac| == 6 && |srcMac| == 6
    ensures |r| == ETH_HEADER + |payload| + CHECKSUM
  {
    dstMac + srcMac + LE16(Swap16(ethType)) + payload + [0, 0, 0, 0]
  }

  function Encode(s: Segment, ttl: int, dstMac: seq<uint8>, srcMac: seq<uint8>, junk: seq<uint8>): (r: seq<uint8>)
    requires |junk| == 6 && |dstMac| == 6 && |srcMac| == 6
    ensures |r| == ETH_HEADER + IP_HEADER + TCP_HEADER + |s.payload| + CHECKSUM
  {
    FrameBytes(dstMac, srcMac, L2_IPV4, IpBytes(s.info.srcIP, s.info.dstIP, TCP_PROTO, ttl, TcpBytes(s, junk)))
  }

  // ---- decoding ----

  /** What `recvFrame` reads from a frame. */
  datatype IpPacket = IpPacket(srcMac: seq<uint8>, src: uint32, dst: uint32, ttl: uint8, proto: uint8, bytes: seq<uint8>)

  function ReadFrame(f: seq<uint8>): (p: IpPacket)
    requires |f| >= ETH_HEADER + IP_HEADER + CHECKSUM
    ensures |p.bytes| == |f| - ETH_HEADER - CHECKSUM
  {
    var ip := f[ETH_HEADER..|f| - CHECKSUM];
    IpPacket(f[6..12], FromLE32(ip[12..16]), FromLE32(ip[16..20]), ip[8], ip[9], ip)
  }

  /** What `recvIPPacket` and `readIPPacket` read from the IP packet. */
  function ReadSegment(ip: seq<uint8>): Segment
    requires |ip| >= IP_HEADER + TCP_HEADER
  {
    var tcp := ip[IP_HEADER..];
    Segment(Tuple4(FromLE32(ip[12..16]), FromLE32(ip[16..20]), FromLE16(tcp[0..2]), FromLE16(tcp[2..4])),
            Swap32(FromLE32(tcp[4..8])), Swap32(FromLE32(tcp[8..12])), FromLE16(tcp[12..14]), tcp[TCP_HEADER..])
  }

  // ---- round trip ----

  lemma TcpRoundTrip(s: Segment, junk: seq<uint8>)
    requires |junk| == 6
    ensures
      var b := TcpBytes(s, junk);
      && FromLE16(b[0..2]) == s.info.srcPort && FromLE16(b[2..4]) == s.info.dstPort
      && Swap32(FromLE32(b[4..8])) == s.seqno && Swap32(FromLE32(b[8..12])) == s.ackno
      && FromLE16(b[12..14]) == s.flag && b[TCP_HEADER..] == s.payload
  {
    var b := TcpBytes(s, junk);
    assert b[0..2] == LE16(s.info.srcPort) && b[2..4] == LE16(s.info.dstPort);
    assert b[4..8] == LE32(Swap32(s.seqno)) && b[8..12] == LE32(Swap32(s.ackno));
    assert b[12..14] == LE16(s.flag);
    RoundTrip16(s.info.srcPort);
    RoundTrip16(s.info.dstPort);
    RoundTrip16(s.flag);
    RoundTrip32(s.seqno);
    RoundTrip32(Swap32(s.seqno));
    RoundTrip32(s.ackno);
    RoundTrip32(Swap32(s.ackno));
  }

  lemma IpRoundTrip(src: uint32, dst: uint32, proto: int, ttl: int, payload: seq<uint8>)
    ensures
      var b := IpBytes(src, dst, proto, ttl, payload);
      && FromLE32(b[12..16]) == src && FromLE32(b[16..20]) == dst
      && b[8] == ttl % 0x100 && b[9] == proto % 0x100 && b[IP_HEADER..] == payload
      && (TotalLengthField(b) == |b| <==> |b| < 0x1_0000)
  {
    var b := IpBytes(src, dst, proto, ttl, payload);
    assert b[12..16] == LE32(src) && b[16..20] == LE32(dst);
    RoundTrip32(src);
    RoundTrip32(dst);
    TotalLength(|b|);
  }

  /** The 16-bit total length is right exactly when the packet is short enough for it. */
  lemma TotalLength(n: nat)
    ensures n / 0x100 % 0x100 * 0x100 + n % 0x100 == n <==> n < 0x1_0000
  {
  }

  lemma ReadBack(s: Segment, proto: int, ttl: int, junk: seq<uint8>)
    requires |junk| == 6
    ensures ReadSegment(IpBytes(s.info.srcIP, s.info.dstIP, proto, ttl, TcpBytes(s, junk))) == s
  {
    IpRoundTrip(s.info.srcIP, s.info.dstIP, proto, ttl, TcpBytes(s, junk));
    TcpRoundTrip(s, junk);
  }

  lemma FrameRoundTrip(dstMac: seq<uint8>, srcMac: seq<uint8>, ethType: uint16, payload: seq<uint8>)
    requires |dstMac| == 6 && |srcMac| == 6
    ensures
      var f := FrameBytes(dstMac, srcMac, ethType, payload);
      && f[..6] == dstMac && f[6..12] == srcMac && f[ETH_HEADER..|f| - CHECKSUM] == payload
      && f[12] == ethType / 0x100 && f[13] == ethType % 0x100
      && f[|f| - CHECKSUM..] == [0, 0, 0, 0]
  {
    RoundTrip16(ethType);
  }

  lemma FrameIsRead(dstMac: seq<uint8>, srcMac: seq<uint8>, src: uint32, dst: uint32, proto: int, ttl: int,
                    payload: seq<uint8>)
    requires |dstMac| == 6 && |srcMac| == 6
    ensures
      var ip := IpBytes(src, dst, proto, ttl, payload);
      var f := FrameBytes(dstMac, srcMac, L2_IPV4, ip);
      && f[..6] == dstMac
      && ReadFrame(f) == IpPacket(srcMac, src, dst, ttl % 0x100, proto % 0x100, ip)
      && (TotalLengthField(ip) == |ip| <==> |ip| < 0x1_0000)
  {
    FrameRoundTrip(dstMac, srcMac, L2_IPV4, IpBytes(src, dst, proto, ttl, payload));
    IpRoundTrip(src, dst, proto, ttl, payload);
  }

  /**
   Sending a segment and reading it back at the other end returns every field and the payload, whatever was in
   the memory of the unset header fields.
   */
  lemma SegmentRoundTrip(s: Segment, ttl: uint8, dstMac: seq<uint8>, srcMac: seq<uint8>, junk: seq<uint8>)
    requires |junk| == 6 && |dstMac| == 6 && |srcMac| == 6
    requires IP_HEADER + TCP_HEADER + |s.payload| <= RECEIVE_BUFFER
    ensures
      var f := Encode(s, ttl, dstMac, srcMac, junk);
      var p := ReadFrame(f);
      && p.srcMac == srcMac && f[..6] == dstMac
      && p.src == s.info.srcIP && p.dst == s.info.dstIP && p.ttl == ttl && p.proto == TCP_PROTO
      && |p.bytes| <= RECEIVE_BUFFER
      && TotalLengthField(p.bytes) == |p.bytes|
      && ReadSegment(p.bytes) == s
  {
    FrameIsRead(dstMac, srcMac, s.info.srcIP, s.info.dstIP, TCP_PROTO, ttl, TcpBytes(s, junk));
    ReadBack(s, TCP_PROTO, ttl, junk);
    SmallByte(ttl);
    SmallByte(TCP_PROTO);
  }

  lemma SmallByte(x: uint8)
    ensures x % 0x100 == x
  {
  }

  /**
   The control bits land in byte 13 of the TCP header with the weights of section 3.1 of RFC 793 (FIN 1, SYN 2,
   ACK 16); the sequence and acknowledgement numbers stand in bytes 4 to 7 and 8 to 11, most significant first, and
   the ports in bytes 0 to 3 as the caller holds them in memory.
   */
  lemma HeaderLayoutIsStandard(s: Segment, junk: seq<uint8>)
    requires |junk| == 6
    ensures
      var b := TcpBytes(s, junk);
      && (IsFin(s.flag) <==> b[13] % 2 == 1)
      && (IsSyn(s.flag) <==> b[13] / 2 % 2 == 1)
      && (IsAck(s.flag) <==> b[13] / 16 % 2 == 1)
      && s.seqno == BigEndian32(b[4], b[5], b[6], b[7]) && s.ackno == BigEndian32(b[8], b[9], b[10], b[11])
      && b[0] == s.info.srcPort % 0x100 && b[1] == s.info.srcPort / 0x100
      && b[2] == s.info.dstPort % 0x100 && b[3] == s.info.dstPort / 0x100
      && b[14..20] == junk
  {
    var b := TcpBytes(s, junk);
    assert b[13] == s.flag / 0x100;
    BitsOfHighByte(s.flag);
    TcpRoundTrip(s, junk);
    BytesOf32(b[4], b[5], b[6], b[7]);
    assert b[4..8] == [b[4], b[5], b[6], b[7]];
    BytesOf32(b[8], b[9], b[10], b[11]);
    assert b[8..12] == [b[8], b[9], b[10], b[11]];
  }

  function BigEndian32(b0: uint8, b1: uint8, b2: uint8, b3: uint8): nat {
    (b0 as int) * 0x100_0000 + (b1 as int) * 0x1_0000 + (b2 as int) * 0x100 + (b3 as int)
  }

  /**
   The IP header is that of section 3.1 of RFC 791: version 4 and five words, the total length most significant byte
   first, no fragmentation, ttl, protocol, a checksum of 0, and the addresses as the caller holds them in memory.
   */
  lemma IpLayoutIsStandard(src: uint32, dst: uint32, proto: uint8, ttl: uint8, payload: seq<uint8>)
    requires IP_HEADER + |payload| < 0x1_0000
    ensures
      var b := IpBytes(src, dst, proto, ttl, payload);
      && b[0] == 4 * 16 + 5 && b[1] == 0 && BigEndian32(0, 0, b[2], b[3]) == |b| && b[4..8] == [0, 0, 0, 0]
      && b[8] == ttl && b[9] == proto && b[10..12] == [0, 0]
      && BigEndian32(b[15], b[14], b[13], b[12]) == src && BigEndian32(b[19], b[18], b[17], b[16]) == dst
  {
    IpRoundTrip(src, dst, proto, ttl, payload);
    SmallByte(ttl);
    SmallByte(proto);
  }

  /** A TCP packet travels as protocol 6 in frames of type 0x0800. */
  lemma SegmentIsTaggedTcp(s: Segment, ttl: uint8, dstMac: seq<uint8>, srcMac: seq<uint8>, junk: seq<uint8>)
    requires |junk| == 6 && |dstMac| == 6 && |srcMac| == 6
    ensures
      var f := Encode(s, ttl, dstMac, srcMac, junk);
      f[12] == 8 && f[13] == 0 && f[ETH_HEADER + 9] == 6
  {
    var ip := IpBytes(s.info.srcIP, s.info.dstIP, TCP_PROTO, ttl, TcpBytes(s, junk));
    FrameRoundTrip(dstMac, srcMac, L2_IPV4, ip);
    var f := Encode(s, ttl, dstMac, srcMac, junk);
    assert f[ETH_HEADER + 9] == f[ETH_HEADER..|f| - CHECKSUM][9];
  }
}

/** The same encoders as the source writes them, filling byte buffers piece by piece. */
module WireBuffers {
  import opened Bytes
  import opened Segments
  import opened Wire

  /** `memcpy(to + at, bytes, |bytes|)` */
  method CopyTo(to: array<uint8>, at: nat, bytes: seq<uint8>)
    requires at + |bytes| <= to.Length
    modifies to
    ensures to[..] == Copy(old(to[..]), at, bytes)
  {
    forall k | 0 <= k < |bytes| {
      to[at + k] := bytes[k];
    }
  }

  /** The same, for a buffer that is filled from the front. */
  method Fill(to: array<uint8>, at: nat, bytes: seq<uint8>)
    requires at + |bytes| <= to.Length
    modifies to
    ensures to[..at + |bytes|] == old(to[..at]) + bytes
  {
    CopyTo(to, at, bytes);
  }

  method ConstructIPHeader(src: uint32, dst: uint32, proto: int, totalLength: nat, ttl: int) returns (hdr: array<uint8>)
    ensures fresh(hdr) && hdr[..] == IpHeaderBytes(src, dst, proto, ttl, totalLength)
  {
    var length1: uint8, length0: uint8 := totalLength / 0x100 % 0x100, totalLength % 0x100;
    var ttl8: uint8, proto8: uint8 := ttl % 0x100, proto % 0x100;
    hdr := new uint8[IP_HEADER](_ => 0);
    Fill(hdr, 0, [0x45, 0, length1, length0]);
    assert hdr[..4] == [0x45, 0, length1, length0];
    Fill(hdr, 4, [0, 0, 0, 0]);
    Fill(hdr, 8, [ttl8, proto8, 0, 0]);
    Fill(hdr, 12, LE32(src));
    Fill(hdr, 16, LE32(dst));
    assert hdr[..] == hdr[..IP_HEADER];
  }

  method ConstructIPPacket(full: array<uint8>, src: uint32, dst: uint32, proto: int, buf: seq<uint8>, ttl: int)
    requires full.Length == IP_HEADER + |buf|
    modifies full
    ensures full[..] == IpBytes(src, dst, proto, ttl, buf)
  {
    var totalLength := IP_HEADER + |buf|;
    var hdr := ConstructIPHeader(src, dst, proto, totalLength, ttl);
    Fill(full, 0, hdr[..]);
    Fill(full, IP_HEADER, buf);
  }

  method ConstructFrame(buf: seq<uint8>, ethType: uint16, dstMac: seq<uint8>, srcMac: seq<uint8>)
    returns (frame: array<uint8>)
    requires |dstMac| == 6 && |srcMac| == 6
    ensures fresh(frame) && frame[..] == FrameBytes(dstMac, srcMac, ethType, buf)
  {
    frame := new uint8[ETH_HEADER + |buf| + CHECKSUM];
    var ethHdr := new uint8[ETH_HEADER](_ => 0);
    Fill(ethHdr, 0, dstMac);
    assert ethHdr[..6] == dstMac;
    Fill(ethHdr, 6, srcMac);
    Fill(ethHdr, 12, LE16(Swap16(ethType)));
    assert ethHdr[..] == ethHdr[..ETH_HEADER];
    Fill(frame, 0, ethHdr[..]);
    assert frame[..ETH_HEADER] == ethHdr[..];
    Fill(frame, ETH_HEADER, buf);
    Fill(frame, ETH_HEADER + |buf|, [0, 0, 0, 0]);
    assert frame[..] == frame[..ETH_HEADER + |buf| + CHECKSUM];
  }

  /** Storing the five fields in the order of the source fills the header up to its last six bytes. */
  lemma FieldsFill(h: seq<uint8>, src: seq<uint8>, dst: seq<uint8>, seqno: seq<uint8>, ackno: seq<uint8>, flag: seq<uint8>)
    requires |h| == TCP_HEADER && |src| == |dst| == |flag| == 2 && |seqno| == |ackno| == 4
    ensures Copy(Copy(Copy(Copy(Copy(h, 8, ackno), 4, seqno), 12, flag), 2, dst), 0, src) ==
            src + dst + seqno + ackno + flag + h[14..]
  {
    var h1 := Copy(Copy(h, 8, ackno), 4, seqno);
    assert h1 == h[..4] + seqno + ackno + h[12..];
    var h2 := Copy(h1, 12, flag);
    assert h2 == h[..4] + seqno + ackno + flag + h[14..];
    assert Copy(h2, 2, dst) == h[..2] + dst + seqno + ackno + flag + h[14..];
  }

  method ConstructTCPHeader(s: Segment) returns (tcpHdr: array<uint8>)
    ensures fresh(tcpHdr) && tcpHdr.Length == TCP_HEADER
    ensures tcpHdr[..] == LE16(s.info.srcPort) + LE16(s.info.dstPort) + LE32(Swap32(s.seqno)) + LE32(Swap32(s.ackno)) +
                          LE16(s.flag) + tcpHdr[14..]
  {
    tcpHdr := new uint8[TCP_HEADER];
    ghost var h := tcpHdr[..];
    CopyTo(tcpHdr, 8, LE32(Swap32(s.ackno)));
    CopyTo(tcpHdr, 4, LE32(Swap32(s.seqno)));
    CopyTo(tcpHdr, 12, LE16(s.flag));
    CopyTo(tcpHdr, 2, LE16(s.info.dstPort));
    CopyTo(tcpHdr, 0, LE16(s.info.srcPort));
    FieldsFill(h, LE16(s.info.srcPort), LE16(s.info.dstPort), LE32(Swap32(s.seqno)), LE32(Swap32(s.ackno)), LE16(s.flag));
    assert tcpHdr[14..] == tcpHdr[..][14..] == h[14..];
  }

  /** The TCP header in front of its payload; what it leaves unset keeps the content of fresh memory. */
  method ConstructTCPPacket(s: Segment) returns (payload: array<uint8>, ghost junk: seq<uint8>)
    ensures fresh(payload) && |junk| == 6 && payload[..] == TcpBytes(s, junk)
  {
    var tcpHdr := ConstructTCPHeader(s);
    junk := tcpHdr[14..];
    payload := new uint8[TCP_HEADER + |s.payload|];
    Fill(payload, 0, tcpHdr[..]);
    assert payload[..TCP_HEADER] == tcpHdr[..];
    Fill(payload, TCP_HEADER, s.payload);
    assert payload[..] == payload[..TCP_HEADER + |s.payload|];
  }

  /** `sendTCPPacket`, `sendIPPacket` and `sendFrame` for one next hop. */
  method SendSegment(s: Segment, ttl: int, dstMac: seq<uint8>, srcMac: seq<uint8>) returns (frame: array<uint8>)
    requires |dstMac| == 6 && |srcMac| == 6
    ensures exists junk: seq<uint8> :: |junk| == 6 && frame[..] == Encode(s, ttl, dstMac, srcMac, junk)
  {
    ghost var junk;
    var payload;
    payload, junk := ConstructTCPPacket(s);
    var full := new uint8[IP_HEADER + payload.Length];
    ConstructIPPacket(full, s.info.srcIP, s.info.dstIP, TCP_PROTO, payload[..], ttl);
    frame := ConstructFrame(full[..], L2_IPV4, dstMac, srcMac);
    assert frame[..] == Encode(s, ttl, dstMac, srcMac, junk);
  }
}
