/**
 * Probe derivation of the single-word Bloom filter, as pure functions of the
 * 64-bit hash of an item.
 *
 * One 64-bit hash is split into two 32-bit halves (Kirsch and Mitzenmacher
 * double hashing). Their wrapped sum, made non-negative, picks ONE word of the
 * array; the mask of bits probed inside that word always holds bit 63 and, for
 * i = 2..k, the bit `(hash1 + i * hash2, made non-negative) & 63`.
 *
 * Bit-level facts come from the lemmas of module Words; the lemmas here only
 * combine them.
 */
module Probe {

  import opened Words
  import opened Masks
  import opened Sizing

  /** A hash count as the filter holds it: at least one and a Java `int`. */
  predicate ValidHashCount(k: int) {
    1 <= k <= MaxInt
  }

  // ---------------------------------------------------------------------
  // Java `int` arithmetic on 32-bit patterns
  // ---------------------------------------------------------------------

  /** `(int) hash64`: the low half of the hash. */
  function Low(h: bv64): bv32 {
    (h & 0xFFFF_FFFF) as bv32
  }

  /** `(int) (hash64 >>> 32)`: the high half of the hash. */
  function High(h: bv64): bv32 {
    (h >> 32) as bv32
  }

  /** A 32-bit pattern is a negative Java `int` when its sign bit is set. */
  predicate IsNegative(x: bv32) {
    x >= 0x8000_0000
  }

  /**
   * "flip all the bits if it's negative": a negative `int` x becomes `~x`,
   * which is `-x - 1` (so `r + x == -1` in 32-bit arithmetic); the result is
   * never negative, and a non-negative x is kept.
   */
  function NonNegative(x: bv32): (r: bv32)
    ensures !IsNegative(r)
    ensures !IsNegative(x) ==> r == x
    ensures IsNegative(x) ==> r + x == 0xFFFF_FFFF
  {
    if IsNegative(x) then !x else x
  }

  // ---------------------------------------------------------------------
  // Which word, which bits
  // ---------------------------------------------------------------------

  /** `hash1 + hash2`, made non-negative: the hash that picks the word. */
  function FirstHash(hash1: bv32, hash2: bv32): bv32 {
    NonNegative(hash1 + hash2)
  }

  /** `firstHash % data.length`: the index of the word an item's bits go to. */
  function WordIndex(h: bv64, len: int): (idx: int)
    requires len > 0
    ensures 0 <= idx < len
  {
    FirstHash(Low(h), High(h)) as int % len
  }

  /** `hash1 + (i * hash2)` in 32-bit arithmetic: the combined hash of hash function i. */
  function Combined(hash1: bv32, hash2: bv32, i: int): bv32
    requires 0 <= i <= MaxInt
  {
    hash1 + (i as bv32) * hash2
  }

  /** `combinedHash & (Long.SIZE - 1)`: a bit position inside a word. */
  function LowSix(x: bv32): bv6 {
    (x & 63) as bv6
  }

  /** The bit probed by hash function i: its combined hash, made non-negative, `& 63`. */
  function Pos(h: bv64, i: int): bv6
    requires 0 <= i <= MaxInt
  {
    LowSix(NonNegative(Combined(Low(h), High(h), i)))
  }

  /** The bits of hash functions 2..j, in the order the probe loop visits them. */
  function ProbePositions(h: bv64, j: int): (ps: seq<bv6>)
    requires j <= MaxInt
    ensures |ps| == if j < 2 then 0 else j - 1
    decreases j
  {
    if j < 2 then [] else ProbePositions(h, j - 1) + [Pos(h, j)]
  }

  /**
   * The mask the probe loop has built after hash functions 2..j: bit 63, then
   * the bit of each hash function in turn. With j = k it is the mask of one
   * add or test.
   */
  function ProbeMask(h: bv64, j: int): (mask: bv64)
    requires j <= MaxInt
    ensures HasBit(mask, 63)
    decreases j
  {
    if j < 2 then
      TopBitOnly(63);
      TopBit
    else
      var prev := ProbeMask(h, j - 1);
      OrBit(prev, Pos(h, j), 63);
      WithBit(prev, Pos(h, j))
  }

  /** One turn of the probe loop: the mask for hash functions 2..j is the one for 2..j-1 with bit Pos(h, j) added. */
  lemma ProbeMaskStep(h: bv64, j: int)
    requires 2 <= j <= MaxInt
    ensures MaskOf(ProbePositions(h, j)) == WithBit(MaskOf(ProbePositions(h, j - 1)), Pos(h, j))
  {
    var ps := ProbePositions(h, j);
    assert ps[..|ps| - 1] == ProbePositions(h, j - 1);
    MaskLast(ps);
  }

  /** The loop's mask is bit 63 ORed with the probe positions. */
  lemma {:induction false} ProbeMaskIsMaskOf(h: bv64, j: int)
    requires j <= MaxInt
    ensures ProbeMask(h, j) == MaskOf(ProbePositions(h, j))
    decreases j
  {
    if j >= 2 {
      ProbeMaskIsMaskOf(h, j - 1);
      ProbeMaskStep(h, j);
    }
  }

  /** The probed bits: bit 63 and the bits of hash functions 2..k. */
  function ProbeBits(h: bv64, k: int): set<bv6>
    requires ValidHashCount(k)
  {
    {63} + set p | p in ProbePositions(h, k)
  }

  // ---------------------------------------------------------------------
  // What the mask is
  // ---------------------------------------------------------------------

  lemma {:induction false} ProbePositionsAt(h: bv64, j: int, i: int)
    requires j <= MaxInt && 2 <= i <= j
    ensures ProbePositions(h, j)[i - 2] == Pos(h, i)
    decreases j
  {
    if i < j {
      ProbePositionsAt(h, j - 1, i);
    }
  }

  /** A bit is probed exactly when it is bit 63 or the bit of one of the hash functions 2..k. */
  lemma ProbeBitsOfHashFunctions(h: bv64, k: int, b: bv6)
    requires ValidHashCount(k)
    ensures b in ProbeBits(h, k) <==> b == 63 || exists i :: 2 <= i <= k && Pos(h, i) == b
  {
    var ps := ProbePositions(h, k);
    if b in ps {
      var n :| 0 <= n < |ps| && ps[n] == b;
      ProbePositionsAt(h, k, n + 2);
    }
    if exists i :: 2 <= i <= k && Pos(h, i) == b {
      var i :| 2 <= i <= k && Pos(h, i) == b;
      ProbePositionsAt(h, k, i);
    }
  }

  lemma {:induction false} SeqSetSize(ps: seq<bv6>)
    ensures |set p | p in ps| <= |ps|
    decreases |ps|
  {
    if ps != [] {
      var init := ps[..|ps| - 1];
      SeqSetSize(init);
      assert ps == init + [ps[|ps| - 1]];
      assert (set p | p in ps) == (set p | p in init) + {ps[|ps| - 1]};
    }
  }

  /** At most k bits are probed: bit 63 and one per hash function 2..k, which may coincide. */
  lemma ProbeBitsCount(h: bv64, k: int)
    requires ValidHashCount(k)
    ensures 63 in ProbeBits(h, k)
    ensures |ProbeBits(h, k)| <= k
  {
    SeqSetSize(ProbePositions(h, k));
  }

  /** One bit of the probe mask: set exactly when probed. */
  lemma ProbeMaskBit(h: bv64, k: int, b: bv6)
    requires ValidHashCount(k)
    ensures HasBit(ProbeMask(h, k), b) <==> b in ProbeBits(h, k)
  {
    MaskOfBits(ProbePositions(h, k), b);
    ProbeMaskIsMaskOf(h, k);
  }

  /** The probe mask holds exactly the probed bits, so bit 63 is always set. */
  lemma ProbeMaskBits(h: bv64, k: int)
    requires ValidHashCount(k)
    ensures HasBit(ProbeMask(h, k), 63)
    ensures forall b :: HasBit(ProbeMask(h, k), b) <==> b in ProbeBits(h, k)
  {
    forall b ensures HasBit(ProbeMask(h, k), b) <==> b in ProbeBits(h, k) {
      ProbeMaskBit(h, k, b);
    }
  }
}
