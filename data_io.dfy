/** The byte layouts of java.io.DataOutput.writeInt / writeDouble and their
    DataInput readers: big-endian, an `int` in four bytes of two's complement,
    a `double` as the eight bytes of its 64-bit IEEE 754 pattern. */
module DataIO {
  import opened JavaText

  type Byte = b: int | 0 <= b < 256

  /** The bit pattern of a `double` (Double.doubleToLongBits), kept opaque. */
  type Bits64 = x: int | 0 <= x < 0x1_0000_0000_0000_0000

  const TwoTo32: int := 0x1_0000_0000

  function Pow256(n: nat): (p: nat)
    ensures p >= 1
  {
    if n == 0 then 1 else 256 * Pow256(n - 1)
  }

  /** The low n base-256 digits of u, most significant first. */
  function BigEndian(u: nat, n: nat): (bs: seq<Byte>)
    ensures |bs| == n
  {
    if n == 0 then [] else BigEndian(u / 256, n - 1) + [u % 256]
  }

  /** The unsigned value of bytes read most significant first. */
  function Unsigned(bs: seq<Byte>): (u: nat)
    ensures u < Pow256(|bs|)
  {
    if bs == [] then 0 else Unsigned(bs[..|bs| - 1]) * 256 + bs[|bs| - 1]
  }

  /** Reading back the n bytes written for u gives u, when u fits in n bytes. */
  lemma {:induction false} UnsignedBigEndian(u: nat, n: nat)
    requires u < Pow256(n)
    ensures Unsigned(BigEndian(u, n)) == u
  {
    if n > 0 {
      var bs := BigEndian(u, n);
      assert bs[..n - 1] == BigEndian(u / 256, n - 1);
      UnsignedBigEndian(u / 256, n - 1);
    }
  }

  /** Writing back the value of a byte sequence gives the same bytes. */
  lemma {:induction false} BigEndianUnsigned(bs: seq<Byte>)
    ensures BigEndian(Unsigned(bs), |bs|) == bs
  {
    if bs != [] {
      var init := bs[..|bs| - 1];
      BigEndianUnsigned(init);
      assert bs == init + [bs[|bs| - 1]];
    }
  }

  /** DataOutput.writeInt: the value modulo 2^32, i.e. its two's complement. */
  function IntBytes(v: int): (bs: seq<Byte>)
    ensures |bs| == 4
  {
    BigEndian(v % TwoTo32, 4)
  }

  /** DataInput.readInt on four bytes. */
  function IntOfBytes(bs: seq<Byte>): (v: int)
    requires |bs| == 4
    ensures IsInt32(v)
  {
    Pow256Four();
    var u := Unsigned(bs);
    if u > IntMax then u - TwoTo32 else u
  }

  /** DataOutput.writeLong / writeDouble on the bit pattern. */
  function LongBytes(b: Bits64): (bs: seq<Byte>)
    ensures |bs| == 8
  {
    BigEndian(b, 8)
  }

  /** DataInput.readLong / readDouble, as the bit pattern. */
  function LongOfBytes(bs: seq<Byte>): (b: Bits64)
    requires |bs| == 8
    ensures LongBytes(b) == bs
  {
    Pow256Eight();
    BigEndianUnsigned(bs);
    Unsigned(bs)
  }

  lemma Pow256Four()
    ensures Pow256(4) == TwoTo32
  {
  }

  lemma Pow256Eight()
    ensures Pow256(8) == 0x1_0000_0000_0000_0000
  {
  }

  /** readInt returns what writeInt wrote, for every Java `int`. */
  lemma IntRoundTrip(v: int)
    requires IsInt32(v)
    ensures IntOfBytes(IntBytes(v)) == v
  {
    Pow256Four();
    UnsignedBigEndian(v % TwoTo32, 4);
  }

  /** writeInt rewrites exactly the four bytes that readInt read. */
  lemma IntBytesRoundTrip(bs: seq<Byte>)
    requires |bs| == 4
    ensures IntBytes(IntOfBytes(bs)) == bs
  {
    Pow256Four();
    BigEndianUnsigned(bs);
  }

  /** readDouble returns the bit pattern writeDouble wrote. */
  lemma LongRoundTrip(b: Bits64)
    ensures LongOfBytes(LongBytes(b)) == b
  {
    Pow256Eight();
    UnsignedBigEndian(b, 8);
  }

  /** writeDouble rewrites exactly the eight bytes that readDouble read. */
  lemma LongBytesRoundTrip(bs: seq<Byte>)
    requires |bs| == 8
    ensures LongBytes(LongOfBytes(bs)) == bs
  {
    BigEndianUnsigned(bs);
  }
}
