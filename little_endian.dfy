/**
 * The little-endian byte encodings `addInt`/`testInt` and `addLong`/`testLong`
 * hash: byte i of the encoding is `(byte) (val >> 8 * i)`, lowest byte first.
 *
 * Each encoder comes with the decoder that undoes it; the two round-trip
 * lemmas make the encoding a bijection, so distinct values are always hashed
 * as distinct byte strings.
 */
module LittleEndian {

  /** `intToByteArrayLE`: the four bytes of a Java `int`, lowest first. */
  function IntToByteArrayLE(val: bv32): (r: seq<bv8>)
    ensures |r| == 4
  {
    [(val & 0xFF) as bv8,
     ((val >> 8) & 0xFF) as bv8,
     ((val >> 16) & 0xFF) as bv8,
     ((val >> 24) & 0xFF) as bv8]
  }

  /** Reassembles a Java `int` from four bytes, lowest first. */
  function IntFromByteArrayLE(b: seq<bv8>): bv32
    requires |b| == 4
  {
    (b[0] as bv32) | ((b[1] as bv32) << 8) | ((b[2] as bv32) << 16) | ((b[3] as bv32) << 24)
  }

  /** `longToByteArrayLE`: the eight bytes of a Java `long`, lowest first. */
  function LongToByteArrayLE(val: bv64): (r: seq<bv8>)
    ensures |r| == 8
  {
    [(val & 0xFF) as bv8,
     ((val >> 8) & 0xFF) as bv8,
     ((val >> 16) & 0xFF) as bv8,
     ((val >> 24) & 0xFF) as bv8,
     ((val >> 32) & 0xFF) as bv8,
     ((val >> 40) & 0xFF) as bv8,
     ((val >> 48) & 0xFF) as bv8,
     ((val >> 56) & 0xFF) as bv8]
  }

  /** Reassembles a Java `long` from eight bytes, lowest first. */
  function LongFromByteArrayLE(b: seq<bv8>): bv64
    requires |b| == 8
  {
    (b[0] as bv64) | ((b[1] as bv64) << 8) | ((b[2] as bv64) << 16) | ((b[3] as bv64) << 24)
    | ((b[4] as bv64) << 32) | ((b[5] as bv64) << 40) | ((b[6] as bv64) << 48) | ((b[7] as bv64) << 56)
  }

  lemma IntRoundTrip(val: bv32)
    ensures IntFromByteArrayLE(IntToByteArrayLE(val)) == val
  {
  }

  lemma IntBytesRoundTrip(b: seq<bv8>)
    requires |b| == 4
    ensures IntToByteArrayLE(IntFromByteArrayLE(b)) == b
  {
  }

  lemma LongRoundTrip(val: bv64)
    ensures LongFromByteArrayLE(LongToByteArrayLE(val)) == val
  {
  }

  lemma LongBytesRoundTrip(b: seq<bv8>)
    requires |b| == 8
    ensures LongToByteArrayLE(LongFromByteArrayLE(b)) == b
  {
  }

  /** Distinct ints are encoded as distinct byte strings. */
  lemma IntEncodingInjective(x: bv32, y: bv32)
    requires IntToByteArrayLE(x) == IntToByteArrayLE(y)
    ensures x == y
  {
    IntRoundTrip(x);
    IntRoundTrip(y);
  }

  /** Distinct longs are encoded as distinct byte strings. */
  lemma LongEncodingInjective(x: bv64, y: bv64)
    requires LongToByteArrayLE(x) == LongToByteArrayLE(y)
    ensures x == y
  {
    LongRoundTrip(x);
    LongRoundTrip(y);
  }
}
