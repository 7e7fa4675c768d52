/** Fixed-width little-endian integers as `Buffer` reads and writes them. */
module LittleEndian {
  import opened Common

  type int32 = v: int | -0x8000_0000 <= v < 0x8000_0000

  const MAX_INT32 := 0x7fff_ffff

  /** The bytes `v & 0xff`, `(v >> 8) & 0xff`, `(v >> 16) & 0xff`, `(v >> 24) & 0xff` of the two's complement image. */
  function Int32Bytes(v: int): (r: Bytes)
    ensures |r| == 4
  {
    var u := v % 0x1_0000_0000;
    [u % 0x100, u / 0x100 % 0x100, u / 0x1_0000 % 0x100, u / 0x100_0000]
  }

  function Uint32At(b: Bytes, at: nat): (r: nat)
    requires at + 4 <= |b|
    ensures r < 0x1_0000_0000
  {
    b[at] as int + b[at + 1] as int * 0x100 + b[at + 2] as int * 0x1_0000 + b[at + 3] as int * 0x100_0000
  }

  function Signed32(u: nat): int32
    requires u < 0x1_0000_0000
  {
    if u < 0x8000_0000 then u else u - 0x1_0000_0000
  }

  function Int32At(b: Bytes, at: nat): int32
    requires at + 4 <= |b|
  {
    Signed32(Uint32At(b, at))
  }

  /** Bit `k` of a 32-bit integer in two's complement, with `weight` = 2^k. */
  predicate BitSet(v: int, weight: nat)
    requires weight > 0
  {
    (v / weight) % 2 == 1
  }

  /** Every 32-bit integer, negative ones included, survives the four bytes, the least significant of which is first. */
  lemma Int32RoundTrip(v: int32)
    ensures Int32At(Int32Bytes(v), 0) == v
    ensures var b := Int32Bytes(v);
            v == b[0] as int + b[1] as int * 0x100 + b[2] as int * 0x1_0000 + b[3] as int * 0x100_0000
                 - if v < 0 then 0x1_0000_0000 else 0
    ensures v >= 0 ==> Uint32At(Int32Bytes(v), 0) == v
  {
    DigitsOf(v % 0x1_0000_0000);
  }

  lemma DigitsOf(u: nat)
    requires u < 0x1_0000_0000
    ensures u % 0x100 + (u / 0x100 % 0x100) * 0x100 + (u / 0x1_0000 % 0x100) * 0x1_0000
          + u / 0x100_0000 * 0x100_0000 == u
  {
    var a := u / 0x100;
    assert a / 0x100 == u / 0x1_0000;
    assert a / 0x1_0000 == u / 0x100_0000;
  }

  /** Reading a field whose four bytes are known. */
  lemma Int32Slice(b: Bytes, at: nat, v: int32)
    requires at + 4 <= |b| && b[at..at + 4] == Int32Bytes(v)
    ensures Int32At(b, at) == v
  {
    Int32RoundTrip(v);
    var four := b[at..at + 4];
    assert four[0] == b[at] && four[1] == b[at + 1] && four[2] == b[at + 2] && four[3] == b[at + 3];
  }

  /** The same inside a longer buffer. */
  lemma Int32Embedded(before: Bytes, v: int32, after: Bytes)
    ensures Int32At(before + Int32Bytes(v) + after, |before|) == v
    ensures v >= 0 ==> Uint32At(before + Int32Bytes(v) + after, |before|) == v
  {
    Int32RoundTrip(v);
  }

  /** The value that four bytes keep of any integer. */
  function Wrap32(v: int): int32 {
    Signed32(v % 0x1_0000_0000)
  }

  lemma WrapBytes(v: int)
    ensures Int32Bytes(v) == Int32Bytes(Wrap32(v))
    ensures v >= 0 ==> (Wrap32(v) == v <==> v <= MAX_INT32)
  {
    var u := v % 0x1_0000_0000;
    SameImage(u, Wrap32(v));
  }

  lemma SameImage(u: nat, w: int)
    requires u < 0x1_0000_0000 && (w == u || w == u - 0x1_0000_0000)
    ensures w % 0x1_0000_0000 == u
  {
  }

  /** The field read back from the bytes of any integer. */
  lemma WrappedSlice(b: Bytes, at: nat, v: int)
    requires at + 4 <= |b| && b[at..at + 4] == Int32Bytes(v)
    ensures Int32At(b, at) == Wrap32(v)
  {
    WrapBytes(v);
    Int32Slice(b, at, Wrap32(v));
  }

  /** `Buffer.writeInt32LE`, which takes 32-bit integers only. */
  method WriteInt32LE(buffer: array<byte>, v: int32, at: nat)
    requires at + 4 <= buffer.Length
    modifies buffer
    ensures buffer[..at + 4] == old(buffer[..at]) + Int32Bytes(v)
    ensures buffer[at + 4..] == old(buffer[at + 4..])
  {
    StoreInt32(buffer, v, at);
  }

  /** The four byte stores that the legacy encoders spell out; a larger integer wraps. */
  method StoreInt32(buffer: array<byte>, v: int, at: nat)
    requires at + 4 <= buffer.Length
    modifies buffer
    ensures buffer[..at + 4] == old(buffer[..at]) + Int32Bytes(v)
    ensures buffer[at + 4..] == old(buffer[at + 4..])
  {
    var u := v % 0x1_0000_0000;
    buffer[at + 3] := u / 0x100_0000;
    buffer[at + 2] := u / 0x1_0000 % 0x100;
    buffer[at + 1] := u / 0x100 % 0x100;
    buffer[at] := u % 0x100;
  }

  // 64-bit cursor ids travel as their low and high 32-bit halves.

  type int64 = v: int | -0x8000_0000_0000_0000 <= v < 0x8000_0000_0000_0000

  function LowBits(v: int64): int32 {
    Signed32(v % 0x1_0000_0000)
  }

  function HighBits(v: int64): int32 {
    v / 0x1_0000_0000
  }

  function LongOf(low: int32, high: int32): int64 {
    high * 0x1_0000_0000 + (if low < 0 then low + 0x1_0000_0000 else low)
  }

  /** The high half counts the full 32-bit turns, and the two halves give back every 64-bit integer. */
  lemma LongRoundTrip(v: int64)
    ensures LongOf(LowBits(v), HighBits(v)) == v
    ensures HighBits(v) * 0x1_0000_0000 <= v < HighBits(v) * 0x1_0000_0000 + 0x1_0000_0000
  {
    assert v == v / 0x1_0000_0000 * 0x1_0000_0000 + v % 0x1_0000_0000;
  }
}
