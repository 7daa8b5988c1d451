/**
 * `Bloom1Filter`: a Bloom filter that sets all k bits of an item in ONE
 * 64-bit word of its bit set, picked by the item's 64-bit hash.
 *
 * The hash (Murmur3's 64-bit hash) and the floating-point
 * sizing estimates are supplied to the constructors as function values. What
 * each operation does to the word array is stated with the value-level
 * functions of module WordArray, whose lemmas carry the Bloom filter
 * properties: no false negatives, a fresh filter contains nothing, merging
 * keeps both sides.
 */
module Bloom {

  import opened Words
  import opened Masks
  import opened Probe
  import opened WordArray
  import opened LittleEndian
  import opened Sizing
  import opened Serial
  import opened BitSets

  /** A 64-bit hash of a byte string, `Murmur3.hash64`. */
  type Hash64 = seq<bv8> -> bv64

  class Bloom1Filter {
    const bitSet: BitSet
    const m: int
    const k: int
    /** The false positive probability, as the bit pattern of its double. */
    const fpp: bv64
    const n: bv64
    const hash: Hash64
    const sizing: Sizing

    /** What the operations need: a usable hash count and a non-empty bit set. */
    ghost predicate Valid() {
      ValidHashCount(k) && bitSet.data.Length > 0
    }

    /**
     * What every constructor establishes besides: valid n and fpp, with m
     * and k derived from them. The fields are never reassigned, so this
     * holds for the filter's lifetime.
     */
    ghost predicate Configured() {
      ValidConfig(n, fpp, m, k, sizing)
    }

    /** The bit set has the size the configuration asks for, as the sizing constructors make it. */
    ghost predicate Sized() {
      m >= 0 && bitSet.data.Length == WordsFor(m)
    }

    /** The filter's configuration and the contents of its word array. */
    ghost function State(): (s: FilterState)
      reads bitSet.data
      ensures Valid() && Configured() ==> WellFormed(s, sizing)
      ensures s.words == bitSet.data[..]
    {
      FilterState(n, fpp, m, k, bitSet.data[..])
    }

    /**
     * `Bloom1Filter(maxNumEntries, fpp)`: sizes the bit set from the
     * estimates and starts with every bit clear, so nothing tests positive.
     */
    constructor (maxNumEntries: bv64, fpp: bv64, hash: Hash64, sizing: Sizing)
      requires ValidEntries(maxNumEntries) && ValidFpp(fpp)
      requires ValidBits(sizing(maxNumEntries, fpp).bits)
      ensures Valid() && Configured() && Sized()
      ensures n == maxNumEntries && this.fpp == fpp && this.hash == hash && this.sizing == sizing
      ensures forall i :: 0 <= i < bitSet.data.Length ==> bitSet.data[i] == 0
      ensures forall h :: !MayContain(bitSet.data[..], h, k)
      ensures fresh(bitSet) && fresh(bitSet.data)
    {
      this.fpp := fpp;
      this.n := maxNumEntries;
      var estimate := sizing(maxNumEntries, fpp);
      this.m := estimate.bits;
      this.k := OptimalNumOfHashFunctions(estimate.rounded);
      this.hash := hash;
      this.sizing := sizing;
      this.bitSet := new BitSet.OfSize(estimate.bits);
      new;
      forall h ensures !MayContain(bitSet.data[..], h, k) {
        EmptyWordTestsFalse(bitSet.data[..], h, k);
      }
    }

    /** `Bloom1Filter(maxNumEntries)`: the same at the default rate of 0.05. */
    constructor WithDefaultFpp(maxNumEntries: bv64, hash: Hash64, sizing: Sizing)
      requires ValidEntries(maxNumEntries)
      requires ValidBits(sizing(maxNumEntries, DefaultFpp).bits)
      ensures Valid() && Configured() && Sized()
      ensures n == maxNumEntries && fpp == DefaultFpp && this.hash == hash && this.sizing == sizing
      ensures forall i :: 0 <= i < bitSet.data.Length ==> bitSet.data[i] == 0
      ensures forall h :: !MayContain(bitSet.data[..], h, k)
      ensures fresh(bitSet) && fresh(bitSet.data)
    {
      this.fpp := DefaultFpp;
      this.n := maxNumEntries;
      var estimate := sizing(maxNumEntries, DefaultFpp);
      this.m := estimate.bits;
      this.k := OptimalNumOfHashFunctions(estimate.rounded);
      this.hash := hash;
      this.sizing := sizing;
      this.bitSet := new BitSet.OfSize(estimate.bits);
      new;
      forall h ensures !MayContain(bitSet.data[..], h, k) {
        EmptyWordTestsFalse(bitSet.data[..], h, k);
      }
    }

    /**
     * `Bloom1Filter(List<Long>)`: rebuilds a filter from its serialised form,
     * re-deriving m and k from the stored n and fpp and copying the words
     * that follow them into a new array.
     */
    constructor FromList(serializedBloom: seq<bv64>, hash: Hash64, sizing: Sizing)
      requires Decode(serializedBloom, sizing).Some?
      ensures Valid() && Configured()
      ensures State() == Decode(serializedBloom, sizing).value
      ensures this.hash == hash && this.sizing == sizing
      ensures fresh(bitSet) && fresh(bitSet.data)
    {
      this.n := serializedBloom[0];
      this.fpp := serializedBloom[1];
      var estimate := sizing(serializedBloom[0], serializedBloom[1]);
      this.m := estimate.bits;
      this.k := OptimalNumOfHashFunctions(estimate.rounded);
      this.hash := hash;
      this.sizing := sizing;
      var size := |serializedBloom| - 2;
      var data := new bv64[size];
      var i := 0;
      while i < size
        invariant 0 <= i <= size
        invariant data[..i] == serializedBloom[2..2 + i]
      {
        data[i] := serializedBloom[2 + i];
        i := i + 1;
      }
      this.bitSet := new BitSet(data);
    }

    /** `sizeInBytes`: eight bytes per word. */
    function SizeInBytes(): (r: int)
      ensures r == 8 * bitSet.data.Length
      ensures Sized() ==> m <= 8 * r < m + 64
    {
      bitSet.BitSize() / 8
    }

    /**
     * A filter for 10000 entries at the default rate has m = 62352 bits
     * (`-10000 * ln 0.05 / ln^2 2`, truncated), so 975 words, or 7800 bytes.
     */
    lemma DefaultCapacityBytes()
      requires Sized() && m == 62352
      ensures SizeInBytes() == 7800
    {
      assert WordsFor(62352) == 975;
    }

    /**
     * The probe loop `addBytes` and `testBytes` share: from bit 63, sets the
     * bit of each hash function 2..k in turn.
     */
    method MaskFor(hash64: bv64) returns (mask: bv64)
      requires Valid()
      ensures mask == ProbeMask(hash64, k)
    {
      var hash1 := Low(hash64);
      var hash2 := High(hash64);
      mask := TopBit;
      var i := 2;
      while i <= k
        invariant 2 <= i <= k + 1
        invariant mask == ProbeMask(hash64, i - 1)
      {
        // the combined hash, with all bits flipped when negative
        var combinedHash := NonNegative(Combined(hash1, hash2, i));
        var pos := LowSix(combinedHash);
        mask := WithBit(mask, pos);
        i := i + 1;
      }
    }

    /**
     * `addBytes`: ORs the probe mask of the value's hash into the word the
     * hash selects. Afterwards the value tests positive.
     */
    method AddBytes(val: seq<bv8>)
      requires Valid()
      modifies bitSet.data
      ensures bitSet.data[..] == Insert(old(bitSet.data[..]), hash(val), k)
      ensures MayContain(bitSet.data[..], hash(val), k)
    {
      ghost var before := bitSet.data[..];
      var hash64 := hash(val);
      var hash1 := Low(hash64);
      var hash2 := High(hash64);
      var firstHash := FirstHash(hash1, hash2);
      var wordIdx := firstHash as int % bitSet.data.Length;
      var word := bitSet.data[wordIdx];
      var mask := MaskFor(hash64);
      bitSet.data[wordIdx] := Union(word, mask);
      InsertThenProbe(before, hash64, k);
    }

    /**
     * `testBytes`: whether the word the value's hash selects holds every bit
     * of its probe mask. Changes nothing.
     */
    method TestBytes(val: seq<bv8>) returns (r: bool)
      requires Valid()
      ensures r == MayContain(bitSet.data[..], hash(val), k)
    {
      var hash64 := hash(val);
      var hash1 := Low(hash64);
      var hash2 := High(hash64);
      var firstHash := FirstHash(hash1, hash2);
      var wordIdx := firstHash as int % bitSet.data.Length;
      var word := bitSet.data[wordIdx];
      var mask := MaskFor(hash64);
      r := Contains(word, mask);
    }

    /** `add`: the same as `addBytes`. */
    method Add(val: seq<bv8>)
      requires Valid()
      modifies bitSet.data
      ensures bitSet.data[..] == Insert(old(bitSet.data[..]), hash(val), k)
    {
      AddBytes(val);
    }

    /** `addByte`: adds the one-byte array. */
    method AddByte(val: bv8)
      requires Valid()
      modifies bitSet.data
      ensures bitSet.data[..] == Insert(old(bitSet.data[..]), hash([val]), k)
    {
      AddBytes([val]);
    }

    /** `addInt`: adds the four little-endian bytes of the int. */
    method AddInt(val: bv32)
      requires Valid()
      modifies bitSet.data
      ensures bitSet.data[..] == Insert(old(bitSet.data[..]), hash(IntToByteArrayLE(val)), k)
    {
      AddBytes(IntToByteArrayLE(val));
    }

    /** `addLong`: adds the eight little-endian bytes of the long. */
    method AddLong(val: bv64)
      requires Valid()
      modifies bitSet.data
      ensures bitSet.data[..] == Insert(old(bitSet.data[..]), hash(LongToByteArrayLE(val)), k)
    {
      AddBytes(LongToByteArrayLE(val));
    }

    /** `test`: the same as `testBytes`. */
    method Test(val: seq<bv8>) returns (r: bool)
      requires Valid()
      ensures r == MayContain(bitSet.data[..], hash(val), k)
    {
      r := TestBytes(val);
    }

    /** `testByte`: tests the one-byte array. */
    method TestByte(val: bv8) returns (r: bool)
      requires Valid()
      ensures r == MayContain(bitSet.data[..], hash([val]), k)
    {
      r := TestBytes([val]);
    }

    /** `testInt`: tests the four little-endian bytes of the int. */
    method TestInt(val: bv32) returns (r: bool)
      requires Valid()
      ensures r == MayContain(bitSet.data[..], hash(IntToByteArrayLE(val)), k)
    {
      r := TestBytes(IntToByteArrayLE(val));
    }

    /** `testLong`: tests the eight little-endian bytes of the long. */
    method TestLong(val: bv64) returns (r: bool)
      requires Valid()
      ensures r == MayContain(bitSet.data[..], hash(LongToByteArrayLE(val)), k)
    {
      r := TestBytes(LongToByteArrayLE(val));
    }

    /** `serialize`: n, the bit pattern of fpp, then every word of the bit set in order. */
    method Serialize() returns (serialized: seq<bv64>)
      requires Valid()
      ensures serialized == Encode(State())
      ensures Configured() ==> Decode(serialized, sizing) == Some(State())
    {
      serialized := [];
      serialized := serialized + [n];
      serialized := serialized + [fpp];
      var i := 0;
      while i < bitSet.data.Length
        invariant 0 <= i <= bitSet.data.Length
        invariant serialized == [n, fpp] + bitSet.data[..i]
      {
        serialized := serialized + [bitSet.data[i]];
        i := i + 1;
      }
      if Configured() {
        DecodeEncode(State(), sizing);
      }
    }

    /**
     * `isCompatible`: another filter with the same m and k. Two filters built
     * from the same parameters are compatible, and two compatible filters
     * sized by the constructors have word arrays of one length, as `merge`
     * needs.
     */
    predicate IsCompatible(that: Bloom1Filter): (r: bool)
      ensures this == that ==> !r
      ensures (this != that && Configured() && that.Configured() &&
               n == that.n && fpp == that.fpp && sizing == that.sizing) ==> r
      ensures r && Sized() && that.Sized() ==> bitSet.data.Length == that.bitSet.data.Length
    {
      this != that && m == that.m && k == that.k
    }

    /**
     * `merge`: ORs the other filter's words into this one's. It does not
     * check compatibility; only the equal length `putAll` asserts is needed.
     */
    method Merge(that: Bloom1Filter)
      requires Valid() && that.Valid()
      requires bitSet.data.Length == that.bitSet.data.Length
      modifies bitSet.data
      ensures bitSet.data[..] == Or(old(bitSet.data[..]), old(that.bitSet.data[..]))
    {
      bitSet.PutAll(that.bitSet);
    }
  }
}
