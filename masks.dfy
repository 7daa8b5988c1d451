/**
 * Probe masks: bit 63 ORed with a sequence of bit positions, and what such a
 * mask holds.
 */
module Masks {

  import opened Words

  /** Bit 63 ORed with the bits of ps, first to last. */
  function MaskOf(ps: seq<bv6>): bv64
    decreases |ps|
  {
    if ps == [] then TopBit else WithBit(MaskOf(ps[..|ps| - 1]), ps[|ps| - 1])
  }

  /** The last step of MaskOf, as a fact a caller can name. */
  lemma MaskLast(ps: seq<bv6>)
    requires ps != []
    ensures MaskOf(ps) == WithBit(MaskOf(ps[..|ps| - 1]), ps[|ps| - 1])
  {
  }

  /** Membership in a non-empty sequence: in its last element or before it. */
  lemma InLast(ps: seq<bv6>, b: bv6)
    requires ps != []
    ensures b in ps <==> b == ps[|ps| - 1] || b in ps[..|ps| - 1]
  {
    assert ps == ps[..|ps| - 1] + [ps[|ps| - 1]];
  }

  /** MaskOf(ps) has exactly bit 63 and the bits of ps. */
  lemma {:induction false} MaskOfBits(ps: seq<bv6>, b: bv6)
    ensures HasBit(MaskOf(ps), b) <==> b == 63 || b in ps
    decreases |ps|
  {
    if ps == [] {
      TopBitOnly(b);
    } else {
      var init := ps[..|ps| - 1];
      MaskOfBits(init, b);
      MaskLast(ps);
      OrBit(MaskOf(init), ps[|ps| - 1], b);
      InLast(ps, b);
    }
  }

  /** A word with bit 63 and every bit of ps set holds all of MaskOf(ps). */
  lemma {:induction false} MaskOfHit(word: bv64, ps: seq<bv6>)
    requires HasBit(word, 63)
    requires forall i :: 0 <= i < |ps| ==> HasBit(word, ps[i])
    ensures Contains(word, MaskOf(ps))
    decreases |ps|
  {
    if ps == [] {
      ContainsTop(word);
    } else {
      var init := ps[..|ps| - 1];
      MaskOfHit(word, init);
      MaskLast(ps);
      ContainsOr(word, MaskOf(init), ps[|ps| - 1]);
    }
  }
}
