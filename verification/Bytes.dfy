/** Byte strings and the little-endian integers inside them. */
module Bytes {
  import opened ModularArithmetic

  type Byte = b: int | 0 <= b < 256

  function LittleEndian(bytes: seq<Byte>): (r: nat)
  {
    if bytes == [] then 0 else bytes[0] + 256 * LittleEndian(bytes[1..])
  }

  lemma {:induction false} LittleEndianBound(bytes: seq<Byte>)
    ensures LittleEndian(bytes) < Pow(256, |bytes|)
    decreases |bytes|
  {
    if bytes != [] {
      LittleEndianBound(bytes[1..]);
    }
  }

  /** The little-endian bytes of an unsigned integer; higher bytes are cut off. */
  function LittleEndianBytes(n: nat, width: nat): (r: seq<Byte>)
    ensures |r| == width
  {
    if width == 0 then [] else [n % 256] + LittleEndianBytes(n / 256, width - 1)
  }

  lemma {:induction false} LittleEndianRoundTrip(n: nat, width: nat)
    requires n < Pow(256, width)
    ensures LittleEndian(LittleEndianBytes(n, width)) == n
    decreases width
  {
    if width > 0 {
      LittleEndianRoundTrip(n / 256, width - 1);
      assert LittleEndianBytes(n, width)[1..] == LittleEndianBytes(n / 256, width - 1);
    }
  }
}
