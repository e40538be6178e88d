/** Byte-level helpers shared by the COR hub and MPPT codecs: reading fixed offsets of a
    characteristic value, the 16-bit assembly rules of the firmware, and the truncations
    that JavaScript's typed arrays and bitwise operators apply when a payload is built. */
module ByteCodec {

  /** An unsigned octet: one element of a characteristic value or of a write payload. */
  type Byte = b: int | 0 <= b < 256

  datatype Option<T> = None | Some(value: T)

  /** What one `BleManager.read` delivered: a transport failure, or the bytes of the value. */
  datatype ReadOutcome = ReadFailed | ReadBytes(data: seq<Byte>)

  /** One `BleManager.write` the app issued: peripheral id, service and characteristic UUIDs,
      and the payload bytes. */
  datatype Write = Write(peripheral: string, service: string, characteristic: string, payload: seq<Byte>)

  /** The pair at `off` of a successful read, else `prev`: what a state variable holds after
      a read that sets it from that pair. */
  function PairOr(o: ReadOutcome, off: nat, prev: int): int
  {
    if o.ReadBytes? && Le16At(o.data, off).Some? then Le16At(o.data, off).value else prev
  }

  /** The byte at `off` of a successful read, else `prev`. */
  function ByteOr(o: ReadOutcome, off: nat, prev: int): int
  {
    if o.ReadBytes? && off < |o.data| then o.data[off] else prev
  }

  /** `Buffer.readUInt8(off)`: the byte, or None where the call throws a RangeError. */
  function ByteAt(buf: seq<Byte>, off: nat): Option<Byte>
  {
    if off < |buf| then Some(buf[off]) else None
  }

  /** The pair at `off`, reversed and combined as `(x[0] << 8) | x[1]`: the byte at `off + 1`
      is the high byte. None when either read would throw. */
  function Le16At(buf: seq<Byte>, off: nat): (r: Option<int>)
    ensures r.Some? <==> off + 1 < |buf|
    ensures r.Some? ==> 0 <= r.value < 0x1_0000
    ensures r.Some? ==> r.value % 256 == buf[off] && r.value / 256 == buf[off + 1]
  {
    if off + 1 < |buf| then Some(buf[off + 1] as int * 256 + buf[off] as int) else None
  }

  /** `x & 0xff` and `Uint8Array` element conversion on an integral number: the residue
      modulo 256 (JavaScript's ToUint8, which wraps negative numbers too). */
  function ToUint8(x: int): (r: Byte)
    ensures (x - r) % 256 == 0
    ensures 0 <= x < 256 ==> r == x
  {
    x % 256
  }

  /** `(tick >> 8) & 0xff`: the second-lowest byte of the tick, after ToInt32. */
  function HiByte(t: int): (r: Byte)
    ensures 0 <= t < 0x1_0000 ==> r == t / 256
  {
    (t / 256) % 256
  }

  /** The two-byte header every write payload starts with: the tick, most significant byte first. */
  function TickHeader(t: int): (h: seq<Byte>)
    ensures |h| == 2
    ensures h[0] as int * 256 + h[1] as int == t % 0x1_0000
  {
    [HiByte(t), ToUint8(t)]
  }

  /** `(b & (1 << k)) >> k` for a byte `b` and a small `k`. */
  function Bit(b: Byte, k: nat): (r: int)
    requires k < 8
    ensures r == 0 || r == 1
  {
    (b / Pow2(k)) % 2
  }

  /** The three low bits of a byte make up its value modulo 8. */
  lemma LowBits(b: Byte)
    ensures b % 8 == Bit(b, 0) + 2 * Bit(b, 1) + 4 * Bit(b, 2)
  {
    assert Pow2(0) == 1 && Pow2(1) == 2 && Pow2(2) == 4;
    var x := b as int;
    var r0, q1 := x % 2, x / 2;
    assert x == 2 * q1 + r0;
    var r1, q2 := q1 % 2, q1 / 2;
    assert q1 == 2 * q2 + r1;
    assert x == 4 * q2 + 2 * r1 + r0;
    assert q2 == x / 4;
    var r2, q3 := q2 % 2, q2 / 2;
    assert x == 8 * q3 + 4 * r2 + 2 * r1 + r0;
    assert x % 8 == 4 * r2 + 2 * r1 + r0;
  }

  function Pow2(k: nat): (r: nat)
    ensures r >= 1
  {
    if k == 0 then 1 else 2 * Pow2(k - 1)
  }

  /** The big-endian tick at bytes 0 and 1: `(readUInt8(0) << 8) | readUInt8(1)`. */
  function Be16At(buf: seq<Byte>, off: nat): (r: Option<int>)
    ensures r.Some? <==> off + 1 < |buf|
    ensures r.Some? ==> 0 <= r.value < 0x1_0000
    ensures r.Some? ==> r.value / 256 == buf[off] && r.value % 256 == buf[off + 1]
  {
    if off + 1 < |buf| then Some(buf[off] as int * 256 + buf[off + 1] as int) else None
  }

  /** The value laid out as the firmware sends it: low byte first. */
  function Le16Bytes(v: int): (s: seq<Byte>)
    requires 0 <= v < 0x1_0000
    ensures |s| == 2
  {
    [v % 256, v / 256]
  }

  /** Sign extension of a 16-bit pattern as the power decoder does it: subtract 2^16 when the
      top bit of the high byte (`hi & 0x80`) is set. */
  function Signed16(hi: Byte, lo: Byte): (r: int)
    ensures -0x8000 <= r < 0x8000
    ensures (r - (hi as int * 256 + lo as int)) % 0x1_0000 == 0
    ensures r < 0 <==> hi >= 128
  {
    var u := hi as int * 256 + lo as int;
    if Bit(hi, 7) == 1 then u - 0x1_0000 else u
  }

  /** A signed value in two's complement, as a 16-bit pattern. */
  function TwosComplement16(v: int): (u: int)
    requires -0x8000 <= v < 0x8000
    ensures 0 <= u < 0x1_0000
  {
    if v < 0 then v + 0x1_0000 else v
  }

  lemma {:induction false} Le16RoundTrip(prefix: seq<Byte>, v: int, suffix: seq<Byte>)
    requires 0 <= v < 0x1_0000
    ensures Le16At(prefix + Le16Bytes(v) + suffix, |prefix|) == Some(v)
  {
    var buf := prefix + Le16Bytes(v) + suffix;
    assert buf[|prefix|] == v % 256 && buf[|prefix| + 1] == v / 256;
  }

  lemma {:induction false} Signed16RoundTrip(v: int)
    requires -0x8000 <= v < 0x8000
    ensures Signed16(TwosComplement16(v) / 256, TwosComplement16(v) % 256) == v
  {
    var u := TwosComplement16(v);
    assert (u / 256) * 256 + u % 256 == u;
    assert Bit(u / 256, 7) == 1 <==> u / 256 >= 128 by { BitSevenIsTopBit(u / 256); }
  }

  /** `b & 0x80` is non-zero exactly for the bytes from 128 upwards. */
  lemma BitSevenIsTopBit(b: Byte)
    ensures Bit(b, 7) == 1 <==> b >= 128
  {
    assert Pow2(7) == 128;
  }

  lemma {:induction false} TickHeaderRoundTrip(suffix: seq<Byte>, t: int)
    ensures Be16At(TickHeader(t) + suffix, 0) == Some(t % 0x1_0000)
  {
  }
}
