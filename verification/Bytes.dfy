/** Fixed-width unsigned integers and their byte layouts on a little-endian host. */
module Bytes {

  type uint8 = x: int | 0 <= x < 0x100
  type uint16 = x: int | 0 <= x < 0x1_0000
  type uint32 = x: int | 0 <= x < 0x1_0000_0000

  function Min(a: int, b: int): int {
    if a <= b then a else b
  }

  function Max(a: int, b: int): int {
    if a <= b then b else a
  }

  /** Conversion of a `uint32_t` to the host's 32-bit `int`. */
  function ToInt32(x: uint32): int {
    if x < 0x8000_0000 then x else x - 0x1_0000_0000
  }

  /** `memcpy(buf + off, data, |data|)` on the value of a buffer. */
  function Copy(buf: seq<uint8>, off: nat, data: seq<uint8>): (r: seq<uint8>)
    requires off + |data| <= |buf|
    ensures |r| == |buf|
    ensures forall j :: 0 <= j < |buf| ==> r[j] == if off <= j < off + |data| then data[j - off] else buf[j]
  {
    buf[..off] + data + buf[off + |data|..]
  }

  /** Where two buffers agree up to `n`, the bytes from `lo` to `hi` continue the first `lo`. */
  lemma NextSlice(a: seq<uint8>, b: seq<uint8>, n: nat, lo: nat, hi: nat)
    requires lo <= hi <= n <= |a| && n <= |b| && a[..n] == b[..n]
    ensures b[..lo] + a[lo..hi] == b[..hi]
  {
    assert a[lo..hi] == a[..n][lo..hi] && b[lo..hi] == b[..n][lo..hi];
  }

  /** A copy that starts at or after `n` leaves every slice below `n` alone. */
  lemma CopyKeepsBelow(buf: seq<uint8>, off: nat, data: seq<uint8>, lo: nat, hi: nat)
    requires off + |data| <= |buf|
    requires lo <= hi <= off
    ensures Copy(buf, off, data)[lo..hi] == buf[lo..hi]
  {
  }
}
