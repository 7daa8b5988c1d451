# Bloom1Filter in Dafny

A model of `Bloom1Filter` from the `com.github.prasanthj.bloomfilter` library,
with its nested bare-metal `BitSet`. The filter keeps a fixed array of 64-bit
words. It stores each item in exactly ONE of those words:

- The item's 64-bit hash is split into two 32-bit halves.
- Their sum, made non-negative, picks the word.
- A mask is built starting from bit 63. For every hash function `i = 2..k`, it
  gains bit `(hash1 + i * hash2) & 63`, where the combined hash is made
  non-negative first.
- `add` ORs that mask into the chosen word.
- `test` answers whether the word holds every bit of the mask.

The model follows the Java code's arithmetic exactly:

- 32-bit wrap-around of `hash1 + hash2` and of `hash1 + i * hash2`;
- "flip all bits if negative";
- `% data.length` on a non-negative `int`;
- the `(int)` cast and `Math.max(1, ...)` in `optimalNumOfHashFunctions`;
- little-endian encoding of `int` and `long` values;
- the serialised form `[n, doubleToLongBits(fpp), words...]`.

The modules are:

- `Words`: bits, masks and `word | mask`.
- `Masks`: the mask of a sequence of bit positions.
- `Probe`: Java `int` arithmetic on 32-bit patterns, the probe positions and
  the probe mask.
- `WordArray`: add, test and merge as functions on the word sequence. This
  module also holds the Bloom filter laws:
  - a test is positive exactly when every probed bit of the selected word is
    set;
  - no false negatives, through any later adds and merges;
  - a merge keeps both sides;
  - OR is commutative and idempotent.
- `LittleEndian`: `intToByteArrayLE` and `longToByteArrayLE`, with their
  inverses.
- `Sizing`: the sizing constants and `optimalNumOfHashFunctions`.
- `Serial`: the serialised list as a value, with both round trips.
- `BitSets`: class `BitSet` over an `array<bv64>`.
- `Bloom`: class `Bloom1Filter`.

The classes' methods are proved against the `WordArray` functions.

The inputs are supplied as values:

- Murmur3's 64-bit hash is passed to the constructors as a function value.
- So are the two floating-point estimates (`optimalNumOfBits`, and the
  `Math.round(m / n * ln 2)` inside `optimalNumOfHashFunctions`).
- `fpp` is kept as the IEEE-754 bit pattern of the double.
- `n` is kept as the bit pattern of the `long`.

The Java `assert`s become preconditions, covering:

- positive `n`;
- `0 < fpp < 1`;
- a non-empty bit set;
- equal lengths in `putAll`.

The value-level `Serial.Decode` returns `None` for every list on which the
deserialising constructor would fail one of them.

`isCompatible` compares only `m` and `k`. A deserialised filter holds however
many words its list has, so two compatible filters are guaranteed equal word
arrays only when both were sized by a constructor (`Sized()`). `Merge`
therefore requires equal lengths, which is exactly what `putAll` asserts.

## Model

| member | source | states |
|---|---|---|
| Bloom.Bloom1Filter.constructor | core/src/main/java/com/github/prasanthj/bloomfilter/Bloom1Filter.java:53-61 | stores n and fpp; m and k are derived from them by the sizing; the bit set has `ceil(m/64)` words, all zero; no hash tests positive |
| Bloom.Bloom1Filter.WithDefaultFpp | core/src/main/java/com/github/prasanthj/bloomfilter/Bloom1Filter.java:49-51 | the same as the main constructor, with fpp at the bit pattern of 0.05 |
| Bloom.Bloom1Filter.FromList | core/src/main/java/com/github/prasanthj/bloomfilter/Bloom1Filter.java:64-72 | on a list it accepts: the filter's state is the decoded list, meaning n and fpp from the first two entries, m and k re-derived, and the words copied from the rest |
| Bloom.Bloom1Filter.SizeInBytes | core/src/main/java/com/github/prasanthj/bloomfilter/Bloom1Filter.java:85-87 | eight bytes per word; for a constructor-sized filter, `m <= 8 * bytes < m + 64` |
| Bloom.Bloom1Filter.MaskFor | core/src/main/java/com/github/prasanthj/bloomfilter/Bloom1Filter.java:112-121 | the probe loop computes `ProbeMask(hash64, k)`: bit 63 plus the bit of each hash function 2..k |
| Bloom.Bloom1Filter.AddBytes | core/src/main/java/com/github/prasanthj/bloomfilter/Bloom1Filter.java:93-123 | only the word the hash selects changes, and it becomes `word \| mask`; afterwards the value tests positive |
| Bloom.Bloom1Filter.TestBytes | core/src/main/java/com/github/prasanthj/bloomfilter/Bloom1Filter.java:156-180 | the answer is `MayContain` of the words: the selected word contains the whole probe mask |
| Bloom.Bloom1Filter.Add | core/src/main/java/com/github/prasanthj/bloomfilter/Bloom1Filter.java:89-91 | the same as `addBytes` |
| Bloom.Bloom1Filter.AddByte | core/src/main/java/com/github/prasanthj/bloomfilter/Bloom1Filter.java:129-131 | inserts the hash of the one-byte array |
| Bloom.Bloom1Filter.AddInt | core/src/main/java/com/github/prasanthj/bloomfilter/Bloom1Filter.java:133-136 | inserts the hash of the int's four little-endian bytes |
| Bloom.Bloom1Filter.AddLong | core/src/main/java/com/github/prasanthj/bloomfilter/Bloom1Filter.java:139-142 | inserts the hash of the long's eight little-endian bytes |
| Bloom.Bloom1Filter.Test | core/src/main/java/com/github/prasanthj/bloomfilter/Bloom1Filter.java:152-154 | the same as `testBytes` |
| Bloom.Bloom1Filter.TestByte | core/src/main/java/com/github/prasanthj/bloomfilter/Bloom1Filter.java:186-188 | tests the hash of the one-byte array |
| Bloom.Bloom1Filter.TestInt | core/src/main/java/com/github/prasanthj/bloomfilter/Bloom1Filter.java:190-192 | tests the hash of the int's four little-endian bytes |
| Bloom.Bloom1Filter.TestLong | core/src/main/java/com/github/prasanthj/bloomfilter/Bloom1Filter.java:194-196 | tests the hash of the long's eight little-endian bytes |
| Bloom.Bloom1Filter.Serialize | core/src/main/java/com/github/prasanthj/bloomfilter/Bloom1Filter.java:248-256 | the list is `[n, fpp bits] + words`; deserialising it gives back the same filter state |
| Bloom.Bloom1Filter.IsCompatible | core/src/main/java/com/github/prasanthj/bloomfilter/Bloom1Filter.java:264-268 | a filter is never compatible with itself; distinct filters built from the same parameters are compatible; compatible constructor-sized filters have word arrays of one length |
| Bloom.Bloom1Filter.Merge | core/src/main/java/com/github/prasanthj/bloomfilter/Bloom1Filter.java:276-278 | the words become the element-wise OR of both filters' words |
| BitSets.BitSet.OfSize | core/src/main/java/com/github/prasanthj/bloomfilter/Bloom1Filter.java:287-289 | `ceil(bits/64)` zeroed words, so `bits <= bitSize < bits + 64` |
| BitSets.BitSet.constructor | core/src/main/java/com/github/prasanthj/bloomfilter/Bloom1Filter.java:296-299 | wraps the given non-empty array itself |
| BitSets.BitSet.Set | core/src/main/java/com/github/prasanthj/bloomfilter/Bloom1Filter.java:306-308 | sets bit `index % 64` of word `index / 64` and nothing else; afterwards `get(index)` is true |
| BitSets.BitSet.Get | core/src/main/java/com/github/prasanthj/bloomfilter/Bloom1Filter.java:316-318 | true exactly when bit `index % 64` of word `index / 64` is set |
| BitSets.BitSet.BitSize | core/src/main/java/com/github/prasanthj/bloomfilter/Bloom1Filter.java:323-325 | 64 bits per word; every index below it addresses a word |
| BitSets.BitSet.PutAll | core/src/main/java/com/github/prasanthj/bloomfilter/Bloom1Filter.java:334-340 | each word becomes its OR with the other set's word at the same index |
| BitSets.SetThenGet | core/src/main/java/com/github/prasanthj/bloomfilter/Bloom1Filter.java:306-318 | after `set(i)`, `get(j)` holds exactly when it held before or `j == i` |
| BitSets.SameIndex | core/src/main/java/com/github/prasanthj/bloomfilter/Bloom1Filter.java:307 | word `index >>> 6` and shift `index & 63` together determine the index |
| Sizing.OptimalNumOfHashFunctions | core/src/main/java/com/github/prasanthj/bloomfilter/Bloom1Filter.java:74-76 | k is at least 1 and fits an int; when the low 32 bits of the rounded estimate read as a positive int, k is that int; when they read as zero or a negative int, k is 1 |
| Sizing.OptimalNumOfHashFunctionsExamples | core/src/test/java/com/github/prasanthj/bloomfilter/TestBloomFilter.java:83-85 | worked values: a rounded 7 (n = 10, m = 100) gives 7; a rounded 1 (n = 10, m = 10) gives 1; `Math.round(+Infinity)` = `Long.MAX_VALUE` (n = 0), `Math.round(NaN)` = 0 and a low half with the sign bit set all give 1 |
| Sizing.WordsFor | core/src/main/java/com/github/prasanthj/bloomfilter/Bloom1Filter.java:288 | the least number of words holding the bits: `64 * (w - 1) < bits <= 64 * w` |
| Bloom.Bloom1Filter.DefaultCapacityBytes | core/src/test/java/com/github/prasanthj/bloomfilter/TestBloomFilter.java:141 | a constructor-sized filter with m = 62352 bits (10000 entries at 0.05) has `sizeInBytes() == 7800` |
| Probe.NonNegative | core/src/main/java/com/github/prasanthj/bloomfilter/Bloom1Filter.java:105-108 | the result is a non-negative int; a non-negative input is kept; a negative x becomes `~x`, so `r + x == -1` |
| Probe.WordIndex | core/src/main/java/com/github/prasanthj/bloomfilter/Bloom1Filter.java:100-110 | the selected word index lies in `[0, data.length)` |
| Probe.ProbeMask | core/src/main/java/com/github/prasanthj/bloomfilter/Bloom1Filter.java:112-121 | the mask after hash functions 2..j: bit 63, then each hash function's bit ORed in turn; bit 63 is always set |
| Probe.ProbeMaskIsMaskOf | core/src/main/java/com/github/prasanthj/bloomfilter/Bloom1Filter.java:112-121 | the mask the loop builds is the mask of the sequence of probed positions |
| Probe.ProbeBitsOfHashFunctions | core/src/main/java/com/github/prasanthj/bloomfilter/Bloom1Filter.java:112-121 | a bit is probed exactly when it is 63 or the position of some hash function 2..k |
| Probe.ProbeBitsCount | core/src/main/java/com/github/prasanthj/bloomfilter/Bloom1Filter.java:112-121 | bit 63 is always probed, and at most k distinct bits are |
| Probe.ProbeMaskBits | core/src/main/java/com/github/prasanthj/bloomfilter/Bloom1Filter.java:112-121 | the mask's set bits are exactly the probed bits |
| Masks.MaskOfBits | core/src/main/java/com/github/prasanthj/bloomfilter/Bloom1Filter.java:112-121 | the mask of a position sequence has bit b exactly when b is 63 or in the sequence |
| Masks.MaskOfHit | core/src/main/java/com/github/prasanthj/bloomfilter/Bloom1Filter.java:179 | a word holding bit 63 and every listed position contains the whole mask |
| Words.OrBit | core/src/main/java/com/github/prasanthj/bloomfilter/Bloom1Filter.java:120 | `mask \|= 1L << p` adds bit p and no other |
| Words.ContainsOr | core/src/main/java/com/github/prasanthj/bloomfilter/Bloom1Filter.java:179 | a word holding a mask and bit p holds the mask with p added |
| WordArray.MayContain | core/src/main/java/com/github/prasanthj/bloomfilter/Bloom1Filter.java:166-179 | `testBytes` on a word array: the selected word contains the whole probe mask; a positive test needs bit 63 of that word |
| WordArray.Insert | core/src/main/java/com/github/prasanthj/bloomfilter/Bloom1Filter.java:104-122 | `addBytes` on a word array: the length is kept, no word but the selected one changes, and the hash then tests positive |
| WordArray.Or | core/src/main/java/com/github/prasanthj/bloomfilter/Bloom1Filter.java:334-340 | `putAll` on word arrays: the length is kept; word i is the OR of the two words i (`OrAt`) |
| WordArray.OrAt | core/src/main/java/com/github/prasanthj/bloomfilter/Bloom1Filter.java:337-339 | word i of the merged array is the OR of the two words i |
| WordArray.ProbeMeansAllProbeBitsSet | core/src/main/java/com/github/prasanthj/bloomfilter/Bloom1Filter.java:156-180 | a test is positive exactly when every probed bit of the selected word is set |
| WordArray.EmptyWordTestsFalse | core/src/main/java/com/github/prasanthj/bloomfilter/Bloom1Filter.java:156-180 | a zero word never tests positive, so a fresh filter contains nothing |
| WordArray.InsertOnlyProbedWord | core/src/main/java/com/github/prasanthj/bloomfilter/Bloom1Filter.java:110-122 | an add changes only the selected word, which gains the mask |
| WordArray.InsertThenProbe | core/src/main/java/com/github/prasanthj/bloomfilter/Bloom1Filter.java:93-123 | right after an add, the same hash tests positive |
| WordArray.InsertCovers | core/src/main/java/com/github/prasanthj/bloomfilter/Bloom1Filter.java:122 | an add clears no bit |
| WordArray.OrCovers | core/src/main/java/com/github/prasanthj/bloomfilter/Bloom1Filter.java:334-340 | a merge clears no bit of either side |
| WordArray.OrIdempotent | core/src/main/java/com/github/prasanthj/bloomfilter/Bloom1Filter.java:334-340 | merging the same filter again changes nothing |
| WordArray.OrSelfNoop | core/src/main/java/com/github/prasanthj/bloomfilter/Bloom1Filter.java:334-340 | merging a bit set with itself changes nothing |
| WordArray.OrCommutes | core/src/main/java/com/github/prasanthj/bloomfilter/Bloom1Filter.java:334-340 | the merge result does not depend on the order of the two filters |
| WordArray.CoversTransitive | core/src/main/java/com/github/prasanthj/bloomfilter/Bloom1Filter.java:334-340 | holding every bit of an array that holds every bit of a third is transitive |
| WordArray.ProbeMonotone | core/src/main/java/com/github/prasanthj/bloomfilter/Bloom1Filter.java:156-180 | a hash positive in an array stays positive in any array holding all its bits |
| WordArray.RunCovers | core/src/main/java/com/github/prasanthj/bloomfilter/Bloom1Filter.java:93-123 | any sequence of adds and length-matching merges clears no bit |
| WordArray.NoFalseNegatives | core/src/main/java/com/github/prasanthj/bloomfilter/Bloom1Filter.java:22-26 | an added item tests positive after any later adds and merges |
| WordArray.MergeKeepsBoth | core/src/main/java/com/github/prasanthj/bloomfilter/Bloom1Filter.java:276-278 | whatever tests positive in either filter tests positive in their merge |
| LittleEndian.IntToByteArrayLE | core/src/main/java/com/github/prasanthj/bloomfilter/Bloom1Filter.java:206-212 | four bytes, lowest first; with `IntFromByteArrayLE` it is a bijection (the round-trip lemmas below) |
| LittleEndian.LongToByteArrayLE | core/src/main/java/com/github/prasanthj/bloomfilter/Bloom1Filter.java:214-224 | eight bytes, lowest first; with `LongFromByteArrayLE` it is a bijection (the round-trip lemmas below) |
| LittleEndian.IntRoundTrip | core/src/main/java/com/github/prasanthj/bloomfilter/Bloom1Filter.java:206-212 | reading the four bytes back gives the int |
| LittleEndian.IntBytesRoundTrip | core/src/main/java/com/github/prasanthj/bloomfilter/Bloom1Filter.java:206-212 | every four bytes are the encoding of some int |
| LittleEndian.LongRoundTrip | core/src/main/java/com/github/prasanthj/bloomfilter/Bloom1Filter.java:214-224 | reading the eight bytes back gives the long |
| LittleEndian.LongBytesRoundTrip | core/src/main/java/com/github/prasanthj/bloomfilter/Bloom1Filter.java:214-224 | every eight bytes are the encoding of some long |
| LittleEndian.IntEncodingInjective | core/src/main/java/com/github/prasanthj/bloomfilter/Bloom1Filter.java:206-212 | distinct ints are added as distinct byte arrays |
| LittleEndian.LongEncodingInjective | core/src/main/java/com/github/prasanthj/bloomfilter/Bloom1Filter.java:214-224 | distinct longs are added as distinct byte arrays |
| Serial.Encode | core/src/main/java/com/github/prasanthj/bloomfilter/Bloom1Filter.java:242-256 | two header entries, then the words unchanged |
| Serial.Decode | core/src/main/java/com/github/prasanthj/bloomfilter/Bloom1Filter.java:64-72 | the list is accepted exactly when it has a word after a positive n and an fpp in (0, 1) whose sizing yields at least one word and at most `Integer.MAX_VALUE` words; an accepted list yields a well-formed state whose words are the rest of the list |
| Serial.DecodeEncode | core/src/main/java/com/github/prasanthj/bloomfilter/Bloom1Filter.java:242-256 | deserialising a serialised well-formed filter gives it back |
| Serial.EncodeDecode | core/src/main/java/com/github/prasanthj/bloomfilter/Bloom1Filter.java:64-72 | re-serialising an accepted list gives the same list |

## Left out

- `Murmur3.hash64`: Murmur3 is not part of this model. The hash is a function value given to the constructors.
- `optimalNumOfBits`: floating-point logarithms are not modelled. Its result and the `Math.round(...)` inside `optimalNumOfHashFunctions` come from the `sizing` function value. What the code does with those numbers afterwards is modelled.
- `addString` and `testString`: `String.getBytes()` depends on the platform charset. Callers can pass the bytes to `Add` and `Test` instead.
- `addFloat`, `addDouble`, `testFloat` and `testDouble`: floating point is not modelled. `floatToIntBits` and `doubleToLongBits` are the caller's. The resulting bits go through `AddInt`, `AddLong`, `TestInt` and `TestLong`.
- `BYTE_ARRAY_4` and `BYTE_ARRAY_8`: the encoders return fresh sequences. The scratch arrays shared between calls, and the resulting thread-unsafety, are not modelled.
- `getBitSize`, `getNumHashFunctions`, `getFalsePositivePercent`, `getExpectedNumEntries` and `getData`: these are plain reads, modelled by the `const` fields `m`, `k`, `fpp`, `n` and `data`.
- `Bloom.Bloom1Filter.FromList`: the code first runs the sizing constructor and allocates a bit set of `m` bits, then discards it. The model checks the same conditions without that allocation.
- `Bloom.Bloom1Filter.MaskFor`, `AddBytes` and `TestBytes` require `k <= Integer.MAX_VALUE`, which k always meets. At exactly `Integer.MAX_VALUE`, the Java loop counter overflows and the loop never ends. The model's unbounded counter stops instead.
- `BitSets.BitSet.Set` and `BitSets.BitSet.Get` require an index in `[0, bitSize)`. The Java code does not check bounds. Outside that range it throws or, through the `(int)` cast of a large shifted index, touches another word.
- `BitSets.BitSet.OfSize` requires at most `Integer.MAX_VALUE` words. Beyond that, the `(int)` cast of the double saturates and the allocation fails.
- The Java `assert`s become preconditions: `maxNumEntries > 0`, `0 < fpp < 1`, `data.length > 0` and equal lengths in `putAll`. With assertions disabled, Java would go on instead. That behaviour is not modelled.
- `Bloom.Bloom1Filter.IsCompatible` and `Bloom.Bloom1Filter.Merge`: Java hashes every filter with the one static `Murmur3.hash64`. Here each filter carries its own `hash` value, so these two accept pairs of filters with different hash functions, which Java cannot build. The promise that a merge keeps what either filter contains holds only for filters with the same `hash`. The model does not compare hashes, because `isCompatible` does not.
- Concurrency is not modelled.
