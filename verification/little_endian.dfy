/**
 * Bytes and the fixed-width little-endian integers that `BinaryWriter`
 * writes and `BinaryReader` reads.
 */
module LittleEndian {

  type byte = x: int | 0 <= x < 0x100
  type Bytes = seq<byte>

  type u16 = x: int | 0 <= x < 0x1_0000
  type u32 = x: int | 0 <= x < 0x1_0000_0000
  type u64 = x: int | 0 <= x < 0x1_0000_0000_0000_0000

  /** The largest length a .NET array can report (`int.MaxValue`). */
  const MaxArrayLength: nat := 0x7FFF_FFFF

  /** A byte sequence that fits in a .NET `byte[]`. */
  type NetBytes = b: Bytes | |b| <= MaxArrayLength

  function Pow256(n: nat): (r: nat)
    ensures r > 0
  {
    if n == 0 then 1 else 0x100 * Pow256(n - 1)
  }

  /** The `n`-byte little-endian encoding of `x`: least significant byte first. */
  function ToLE(x: nat, n: nat): (r: Bytes)
    requires x < Pow256(n)
    ensures |r| == n
  {
    if n == 0 then []
    else
      assert x / 0x100 < Pow256(n - 1);
      [x % 0x100] + ToLE(x / 0x100, n - 1)
  }

  /** The number whose little-endian encoding is `b`. */
  function FromLE(b: Bytes): (r: nat)
    ensures r < Pow256(|b|)
  {
    if |b| == 0 then 0
    else
      var high := FromLE(b[1..]);
      assert high <= Pow256(|b| - 1) - 1;
      assert 0x100 * high <= 0x100 * Pow256(|b| - 1) - 0x100;
      b[0] + 0x100 * high
  }

  /** Decoding an encoding gives the number back. */
  lemma {:induction false} FromToLE(x: nat, n: nat)
    requires x < Pow256(n)
    ensures FromLE(ToLE(x, n)) == x
  {
    if n > 0 {
      var e := ToLE(x, n);
      assert e[1..] == ToLE(x / 0x100, n - 1);
      FromToLE(x / 0x100, n - 1);
    }
  }

  /** Encoding a decoded sequence gives the sequence back: no two encodings of one width decode alike. */
  lemma {:induction false} ToFromLE(b: Bytes)
    ensures ToLE(FromLE(b), |b|) == b
  {
    if |b| > 0 {
      var x := FromLE(b);
      assert x % 0x100 == b[0] && x / 0x100 == FromLE(b[1..]);
      ToFromLE(b[1..]);
    }
  }

  /** `BinaryWriter.Write(ushort)`. */
  function UInt16ToBytes(x: u16): (r: Bytes)
    ensures |r| == 2
  {
    ToLE(x, 2)
  }

  /** `BinaryWriter.Write(uint)` and `MemUtil.UInt32ToBytes`. */
  function UInt32ToBytes(x: u32): (r: Bytes)
    ensures |r| == 4
  {
    ToLE(x, 4)
  }

  /** `MemUtil.UInt64ToBytes`. */
  function UInt64ToBytes(x: u64): (r: Bytes)
    ensures |r| == 8
  {
    ToLE(x, 8)
  }

  /** `BinaryReader.ReadUInt16` on two available bytes. */
  function BytesToUInt16(b: Bytes): (r: u16)
    requires |b| == 2
    ensures UInt16ToBytes(r) == b
  {
    ToFromLE(b);
    FromLE(b)
  }

  /** `BinaryReader.ReadUInt32` on four available bytes, and `MemUtil.BytesToUInt32`. */
  function BytesToUInt32(b: Bytes): (r: u32)
    requires |b| == 4
    ensures UInt32ToBytes(r) == b
  {
    ToFromLE(b);
    FromLE(b)
  }

  /** `MemUtil.BytesToUInt64` on eight bytes. */
  function BytesToUInt64(b: Bytes): (r: u64)
    requires |b| == 8
    ensures UInt64ToBytes(r) == b
  {
    ToFromLE(b);
    FromLE(b)
  }

  lemma UInt16RoundTrip(x: u16)
    ensures BytesToUInt16(UInt16ToBytes(x)) == x
  {
    FromToLE(x, 2);
  }

  lemma UInt32RoundTrip(x: u32)
    ensures BytesToUInt32(UInt32ToBytes(x)) == x
  {
    FromToLE(x, 4);
  }

  lemma UInt64RoundTrip(x: u64)
    ensures BytesToUInt64(UInt64ToBytes(x)) == x
  {
    FromToLE(x, 8);
  }
}
