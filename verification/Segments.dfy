/** TCP control bits as the source tests and sets them, connection states, and segments. */
module Segments {
  import opened Bytes

  const TCP_PROTO: uint8 := 0x6

  const FIN_BIT: uint16 := 0x100
  const SYN_BIT: uint16 := 0x200
  const ACK_BIT: uint16 := 0x1000

  predicate HasBit(flag: uint16, bit: uint16)
    requires bit > 0
  {
    flag / bit % 2 == 1
  }

  predicate IsSyn(flag: uint16) { HasBit(flag, SYN_BIT) }

  predicate IsFin(flag: uint16) { HasBit(flag, FIN_BIT) }

  predicate IsAck(flag: uint16) { HasBit(flag, ACK_BIT) }

  /** `flag | bit` for a single bit. */
  function SetSyn(flag: uint16): uint16 { if IsSyn(flag) then flag else flag + SYN_BIT }

  function SetFin(flag: uint16): uint16 { if IsFin(flag) then flag else flag + FIN_BIT }

  function SetAck(flag: uint16): uint16 { if IsAck(flag) then flag else flag + ACK_BIT }

  /** The control bits are bits 0, 1 and 4 of the high byte, the byte at offset 13 of the header. */
  lemma BitsOfHighByte(flag: uint16)
    ensures IsFin(flag) == (flag / 0x100 % 2 == 1)
    ensures IsSyn(flag) == (flag / 0x100 / 2 % 2 == 1)
    ensures IsAck(flag) == (flag / 0x100 / 16 % 2 == 1)
  {
  }

  /** A flag word put together from its low byte, FIN, SYN, the two bits above, ACK, and the top three bits. */
  function Word(lo: uint8, fin: nat, syn: nat, mid: nat, ack: nat, top: nat): nat {
    lo + 0x100 * (fin + 2 * (syn + 2 * (mid + 4 * (ack + 2 * top))))
  }

  lemma BitsOfWord(flag: uint16, lo: uint8, fin: nat, syn: nat, mid: nat, ack: nat, top: nat)
    requires fin < 2 && syn < 2 && mid < 4 && ack < 2 && flag == Word(lo, fin, syn, mid, ack, top)
    ensures IsFin(flag) == (fin == 1) && IsSyn(flag) == (syn == 1) && IsAck(flag) == (ack == 1)
  {
    assert flag / FIN_BIT == fin + 2 * (syn + 2 * (mid + 4 * (ack + 2 * top)));
    assert flag / SYN_BIT == syn + 2 * (mid + 4 * (ack + 2 * top));
    assert flag / ACK_BIT == ack + 2 * top;
  }

  lemma Parts(flag: uint16) returns (lo: uint8, fin: nat, syn: nat, mid: nat, ack: nat, top: nat)
    ensures fin < 2 && syn < 2 && mid < 4 && ack < 2 && top < 8 && flag == Word(lo, fin, syn, mid, ack, top)
  {
    var f := flag / 0x100;
    var g := f / 2 / 2 / 4;
    lo, fin, syn, mid, ack, top := flag % 0x100, f % 2, f / 2 % 2, f / 2 / 2 % 4, g % 2, g / 2;
  }

  /** Each setter sets its own bit and leaves the other two as they were. */
  lemma SynSetterIsIndependent(flag: uint16)
    ensures IsSyn(SetSyn(flag)) && IsFin(SetSyn(flag)) == IsFin(flag) && IsAck(SetSyn(flag)) == IsAck(flag)
  {
    var lo, fin, syn, mid, ack, top := Parts(flag);
    BitsOfWord(flag, lo, fin, syn, mid, ack, top);
    if syn == 0 {
      BitsOfWord(flag + SYN_BIT, lo, fin, 1, mid, ack, top);
    }
  }

  lemma FinSetterIsIndependent(flag: uint16)
    ensures IsFin(SetFin(flag)) && IsSyn(SetFin(flag)) == IsSyn(flag) && IsAck(SetFin(flag)) == IsAck(flag)
  {
    var lo, fin, syn, mid, ack, top := Parts(flag);
    BitsOfWord(flag, lo, fin, syn, mid, ack, top);
    if fin == 0 {
      BitsOfWord(flag + FIN_BIT, lo, 1, syn, mid, ack, top);
    }
  }

  lemma AckSetterIsIndependent(flag: uint16)
    ensures IsAck(SetAck(flag)) && IsSyn(SetAck(flag)) == IsSyn(flag) && IsFin(SetAck(flag)) == IsFin(flag)
  {
    var lo, fin, syn, mid, ack, top := Parts(flag);
    BitsOfWord(flag, lo, fin, syn, mid, ack, top);
    if ack == 0 {
      BitsOfWord(flag + ACK_BIT, lo, fin, syn, mid, 1, top);
    }
  }

  datatype Flags = Flags(syn: bool, fin: bool, ack: bool)

  const SYN := Flags(true, false, false)
  const SYN_ACK := Flags(true, false, true)
  const FIN := Flags(false, true, false)
  const ACK := Flags(false, false, true)
  const NONE := Flags(false, false, false)

  function FlagsOf(flag: uint16): Flags {
    Flags(IsSyn(flag), IsFin(flag), IsAck(flag))
  }

  /** The flag word the source builds for each kind of segment. */
  function FlagWord(f: Flags): (flag: uint16)
    ensures FlagsOf(flag) == f
  {
    var f0: uint16 := 0;
    var f1 := if f.syn then SetSyn(f0) else f0;
    var f2 := if f.fin then SetFin(f1) else f1;
    if f.ack then SetAck(f2) else f2
  }

  datatype Status =
    | Unset | Closed | Listen | SynSent | SynRcvd | Estab
    | FinWait1 | FinWait2 | LastAck | Closing | TimeWait

  datatype Tuple4 = Tuple4(srcIP: uint32, dstIP: uint32, srcPort: uint16, dstPort: uint16) {
    /** The same connection seen from the other end. */
    function Reversed(): Tuple4 {
      Tuple4(dstIP, srcIP, dstPort, srcPort)
    }
  }

  datatype Segment = Segment(info: Tuple4, seqno: uint32, ackno: uint32, flag: uint16, payload: seq<uint8>)

  function Add32(a: uint32, b: nat): (r: uint32)
    ensures a + b < 0x1_0000_0000 ==> r == a + b
    ensures (a + b - r) % 0x1_0000_0000 == 0
  {
    (a + b) % 0x1_0000_0000
  }

  // ---- the state diagram ----

  predicate IsSynSegment(f: Flags) { f.syn && !f.ack }

  predicate IsFinSegment(f: Flags) { !f.syn && f.fin }

  predicate IsAckSegment(f: Flags) { !f.syn && !f.fin && f.ack }

  /** Data, and the acknowledgements that an established socket gets, are the business of the stream. */
  predicate ReachesStream(status: Status, f: Flags) {
    !f.syn && !f.fin && (!f.ack || status == Estab)
  }

  /** The arcs into each state that segments cause, after the state diagram in section 3.2 of RFC 793. */
  predicate Arc(before: Status, f: Flags, after: Status) {
    match after
    case SynRcvd => before in {Listen, SynSent} && IsSynSegment(f)
    case Estab => (before == SynSent && f.syn && f.ack) || (before == SynRcvd && IsAckSegment(f))
    case LastAck => before == Estab && IsFinSegment(f)
    case Closing => before == FinWait1 && IsFinSegment(f)
    case FinWait2 => before == FinWait1 && IsAckSegment(f)
    case TimeWait => (before == FinWait2 && IsFinSegment(f)) || (before == Closing && IsAckSegment(f))
    case Closed => before == LastAck && IsAckSegment(f)
    case _ => false
  }

  /**
   A segment takes the socket along its arc, if there is one.  It is answered if there is and it was not itself an
   acknowledgement: by SYN and ACK from LISTEN, by an ACK and then a FIN from ESTAB, and by an ACK otherwise.
   */
  ghost predicate FollowsDiagram(before: Status, f: Flags, after: Status, replies: seq<Flags>) {
    && (forall to :: Arc(before, f, to) ==> after == to)
    && (after != before ==> Arc(before, f, after))
    && replies == (if after == before || IsAckSegment(f) then []
                   else if before == Listen then [SYN_ACK]
                   else if before == Estab then [ACK, FIN]
                   else [ACK])
  }

  /** What a segment does to a socket's state: the new state, the segments it answers with, or data to store. */
  datatype Reaction = Reaction(status: Status, replies: seq<Flags>, toStream: bool)

  /** The branches of `readIPPacket`. */
  function React(status: Status, f: Flags): Reaction {
    if f.syn && f.ack then (
      match status
      case SynSent => Reaction(Estab, [ACK], false)
      case _ => Reaction(status, [], false))
    else if f.syn then (
      match status
      case Listen => Reaction(SynRcvd, [SYN_ACK], false)
      case SynSent => Reaction(SynRcvd, [ACK], false)
      case _ => Reaction(status, [], false))
    else if f.fin then (
      match status
      case Estab => Reaction(LastAck, [ACK, FIN], false)
      case FinWait1 => Reaction(Closing, [ACK], false)
      case FinWait2 => Reaction(TimeWait, [ACK], false)
      case _ => Reaction(status, [], false))
    else if f.ack then (
      match status
      case SynRcvd => Reaction(Estab, [], false)
      case FinWait1 => Reaction(FinWait2, [], false)
      case Closing => Reaction(TimeWait, [], false)
      case LastAck => Reaction(Closed, [], false)
      case Estab => Reaction(status, [], true)
      case _ => Reaction(status, [], false))
    else Reaction(status, [], true)
  }

  /** The source's branches are the state diagram, and hand to the stream exactly what is the stream's. */
  lemma ReactFollowsDiagram(status: Status, f: Flags)
    ensures FollowsDiagram(status, f, React(status, f).status, React(status, f).replies)
    ensures React(status, f).toStream <==> ReachesStream(status, f)
  {
  }
}
