/**
 * Single 64-bit words of the filter's bit array: bits, masks, and the few
 * bit-level facts the rest of the model is built on.
 */
module Words {

  /** `1L << Long.SIZE - 1`, which Java parses as `1L << 63`. */
  const TopBit: bv64 := 1 << 63

  /** The word with only bit p set (`1L << p`). */
  function Bit(p: bv6): bv64 {
    1 << p
  }

  /** `mask |= (1L << p)`: the word with bit p set as well. */
  function WithBit(mask: bv64, p: bv6): bv64 {
    mask | Bit(p)
  }

  /** `word | bits`: every bit of either. */
  function Union(word: bv64, bits: bv64): bv64 {
    word | bits
  }

  predicate HasBit(x: bv64, b: bv6) {
    x & Bit(b) != 0
  }

  /** Every bit set in `bits` is set in `word`: `(word & bits) == bits`. */
  predicate Contains(word: bv64, bits: bv64) {
    word & bits == bits
  }

  // Some facts below name their result word as a parameter (`r == ...`):
  // stated that way the bit-level proof is much cheaper for the solver.

  /** Setting bit p adds exactly bit p. */
  lemma OrBit(a: bv64, p: bv6, b: bv6)
    ensures HasBit(WithBit(a, p), b) <==> HasBit(a, b) || b == p
  {
    SetBit(WithBit(a, p), a, p, b);
  }

  /** OrBit with the result word named. */
  lemma SetBit(r: bv64, a: bv64, p: bv6, b: bv6)
    requires r == a | Bit(p)
    ensures HasBit(r, b) <==> HasBit(a, b) || b == p
  {
  }

  /** `TopBit` has bit 63 and no other. */
  lemma TopBitOnly(b: bv6)
    ensures HasBit(TopBit, b) <==> b == 63
  {
  }

  lemma ContainsBit(word: bv64, bits: bv64, b: bv6)
    requires Contains(word, bits) && HasBit(bits, b)
    ensures HasBit(word, b)
  {
  }

  lemma ContainsTop(word: bv64)
    requires HasBit(word, 63)
    ensures Contains(word, TopBit)
  {
  }

  /** A word holding `bits` and bit p holds `bits` with bit p added. */
  lemma ContainsOr(word: bv64, bits: bv64, p: bv6)
    requires Contains(word, bits) && HasBit(word, p)
    ensures Contains(word, WithBit(bits, p))
  {
    assert word & (bits | Bit(p)) == (word & bits) | (word & Bit(p));
  }
}
