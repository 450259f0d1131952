/**
 The data half of a socket (`mysocket_t`): one buffer of 2^20 bytes with its read, write and size
 marks.  The functions below say what each operation does to those values; class `Socket` in
 module `SocketObject` performs them in place.
 */
module Endpoints {
  import opened Bytes

  const CAPACITY: nat := 0x10_0000
  const SEGMENT_SIZE: nat := 1000

  datatype Endpoint = Endpoint(buf: seq<uint8>, readp: int, writep: int, sizep: int)

  /** What the stream protocol puts on the wire: a chunk of the stream, or an acknowledgement. */
  datatype Message = Data(seqno: uint32, bytes: seq<uint8>) | Ack(next: uint32)

  /** A socket whose size mark lies inside its buffer. */
  predicate Fits(e: Endpoint) {
    && |e.buf| == CAPACITY
    && 0 <= e.sizep <= CAPACITY
  }

  const FRESH_ENDPOINT := Endpoint(seq(CAPACITY, _ => 0), 0, 0, 0)

  /** `mywrite`: append to the buffer and raise the size mark. */
  function MyWrite(e: Endpoint, data: seq<uint8>): Endpoint
    requires Fits(e) && e.sizep + |data| <= CAPACITY
  {
    e.(buf := Copy(e.buf, e.sizep, data), sizep := e.sizep + |data|)
  }

  /** The segment `write` sends itself, from the write mark, and the mark's advance. */
  function FirstSegment(e: Endpoint): (r: (Endpoint, Message))
    requires Fits(e) && 0 <= e.writep <= e.sizep
  {
    var len := if e.writep + SEGMENT_SIZE > e.sizep then e.sizep - e.writep else SEGMENT_SIZE;
    (e.(writep := e.writep + len), Data(e.writep, e.buf[e.writep..e.writep + len]))
  }

  /** An acknowledgement at the writing side: it moves the write mark and sends the next chunk. */
  function RecvAck(e: Endpoint, ack: uint32): (r: (Endpoint, seq<Message>))
    requires Fits(e)
  {
    if ack >= e.sizep then
      (e.(writep := ToInt32(ack)), [])
    else
      var len := if e.sizep - ack < SEGMENT_SIZE then e.sizep - ack else SEGMENT_SIZE;
      (e.(writep := ack), [Data(ack, e.buf[ack..ack + len])])
  }

  /** The write mark becomes the acknowledgement, as a signed 32-bit number, whatever it says; data follows if any is left. */
  lemma AckMovesMark(e: Endpoint, ack: uint32)
    requires Fits(e)
    ensures
      var (e', out) := RecvAck(e, ack);
      && e' == e.(writep := e'.writep)
      && -0x8000_0000 <= e'.writep < 0x8000_0000 && e'.writep % 0x1_0000_0000 == ack
      && (out == [] <==> ack >= e.sizep)
  {
  }

  /** A data segment at the reading side: stored at its own offset and acknowledged on its own. */
  function RecvData(e: Endpoint, seqno: uint32, bytes: seq<uint8>): (r: (Endpoint, Message))
    requires Fits(e) && seqno + |bytes| <= CAPACITY
  {
    (e.(buf := Copy(e.buf, seqno, bytes), sizep := Max(e.sizep, seqno + |bytes|)), Ack(seqno + |bytes|))
  }

  /** `myread` once its wait is over: the bytes it returns and the advanced read mark. */
  function MyRead(e: Endpoint, len: nat): (r: (Endpoint, seq<uint8>))
    requires Fits(e) && 0 <= e.readp && e.readp + len <= e.sizep
  {
    (e.(readp := e.readp + len), e.buf[e.readp..e.readp + len])
  }
}
