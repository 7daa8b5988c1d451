/**
 * The filter's word array taken as a value: what `addBytes`, `testBytes` and
 * `putAll` do to it, and the no-false-negative properties that follow.
 */
module WordArray {

  import opened Words
  import opened Masks
  import opened Probe

  // ---------------------------------------------------------------------
  // The word array as a value
  // ---------------------------------------------------------------------

  /**
   * `testBytes` on a word array: the selected word holds every bit of the
   * mask. As bit 63 is always in the mask, a positive test needs bit 63 of
   * the selected word.
   */
  predicate MayContain(words: seq<bv64>, h: bv64, k: int): (r: bool)
    requires |words| > 0 && ValidHashCount(k)
    ensures r ==> HasBit(words[WordIndex(h, |words|)], 63)
  {
    Contains(words[WordIndex(h, |words|)], ProbeMask(h, k))
  }

  /**
   * `addBytes` on a word array: OR the mask into the selected word. No other
   * word changes, and the hash then tests positive.
   */
  function Insert(words: seq<bv64>, h: bv64, k: int): (r: seq<bv64>)
    requires |words| > 0 && ValidHashCount(k)
    ensures |r| == |words|
    ensures forall j :: 0 <= j < |words| && j != WordIndex(h, |words|) ==> r[j] == words[j]
    ensures MayContain(r, h, k)
  {
    var idx := WordIndex(h, |words|);
    words[idx := Union(words[idx], ProbeMask(h, k))]
  }

  /** `putAll` on word arrays: element-wise OR. */
  function Or(a: seq<bv64>, b: seq<bv64>): (r: seq<bv64>)
    requires |a| == |b|
    ensures |r| == |a|
  {
    if a == [] then [] else Or(a[..|a| - 1], b[..|a| - 1]) + [Union(a[|a| - 1], b[|a| - 1])]
  }

  /** Word i of the merge is the OR of the two words i. */
  lemma {:induction false} OrAt(a: seq<bv64>, b: seq<bv64>, i: int)
    requires |a| == |b| && 0 <= i < |a|
    ensures Or(a, b)[i] == Union(a[i], b[i])
  {
    if i < |a| - 1 {
      OrAt(a[..|a| - 1], b[..|a| - 1], i);
    }
  }

  /** Every bit set in `small` is set in `big`, word by word. */
  predicate Covers(big: seq<bv64>, small: seq<bv64>) {
    |big| == |small| && forall i :: 0 <= i < |big| ==> Contains(big[i], small[i])
  }

  // ---------------------------------------------------------------------
  // Properties of add, test and merge
  // ---------------------------------------------------------------------

  /**
   * A test answers true exactly when every probed bit of the selected word
   * is set: the classic Bloom filter reading of the single-word scheme.
   */
  lemma ProbeMeansAllProbeBitsSet(words: seq<bv64>, h: bv64, k: int)
    requires |words| > 0 && ValidHashCount(k)
    ensures MayContain(words, h, k) <==>
      forall b :: b in ProbeBits(h, k) ==> HasBit(words[WordIndex(h, |words|)], b)
  {
    var word := words[WordIndex(h, |words|)];
    var ps := ProbePositions(h, k);
    ProbeMaskBits(h, k);
    if MayContain(words, h, k) {
      forall b | b in ProbeBits(h, k) ensures HasBit(word, b) {
        ContainsBit(word, ProbeMask(h, k), b);
      }
    }
    if forall b :: b in ProbeBits(h, k) ==> HasBit(word, b) {
      assert 63 in ProbeBits(h, k);
      forall i | 0 <= i < |ps| ensures HasBit(word, ps[i]) {
        assert ps[i] in ProbeBits(h, k);
      }
      MaskOfHit(word, ps);
      ProbeMaskIsMaskOf(h, k);
    }
  }

  /** A word with no bit set answers false to every test: bit 63 is always probed. */
  lemma EmptyWordTestsFalse(words: seq<bv64>, h: bv64, k: int)
    requires |words| > 0 && ValidHashCount(k)
    requires words[WordIndex(h, |words|)] == 0
    ensures !MayContain(words, h, k)
  {
    ProbeMaskBits(h, k);
    if MayContain(words, h, k) {
      ContainsBit(0, ProbeMask(h, k), 63);
    }
  }

  /** Insert touches only the selected word, ORs the mask into it, and keeps the length. */
  lemma InsertOnlyProbedWord(words: seq<bv64>, h: bv64, k: int)
    requires |words| > 0 && ValidHashCount(k)
    ensures |Insert(words, h, k)| == |words|
    ensures Insert(words, h, k)[WordIndex(h, |words|)] == Union(words[WordIndex(h, |words|)], ProbeMask(h, k))
    ensures forall j :: 0 <= j < |words| && j != WordIndex(h, |words|) ==> Insert(words, h, k)[j] == words[j]
  {
  }

  /** No false negative right after insertion. */
  lemma InsertThenProbe(words: seq<bv64>, h: bv64, k: int)
    requires |words| > 0 && ValidHashCount(k)
    ensures MayContain(Insert(words, h, k), h, k)
  {
  }

  // Word-by-word facts. Each takes the arrays and an index rather than the
  // words themselves; stated that way the bit-level step stays cheap.

  lemma InsertCoversAt(words: seq<bv64>, h: bv64, k: int, i: int)
    requires |words| > 0 && ValidHashCount(k) && 0 <= i < |words|
    ensures Contains(Insert(words, h, k)[i], words[i])
  {
  }

  lemma JoinAt(r: seq<bv64>, a: seq<bv64>, b: seq<bv64>, i: int)
    requires 0 <= i < |r| && 0 <= i < |a| && 0 <= i < |b|
    requires r[i] == Union(a[i], b[i])
    ensures Contains(r[i], a[i]) && Contains(r[i], b[i])
  {
  }

  lemma AgainAt(s: seq<bv64>, r: seq<bv64>, a: seq<bv64>, b: seq<bv64>, i: int)
    requires 0 <= i < |s| && 0 <= i < |r| && 0 <= i < |a| && 0 <= i < |b|
    requires r[i] == Union(a[i], b[i]) && s[i] == Union(r[i], b[i])
    ensures s[i] == r[i]
  {
  }

  lemma SelfAt(r: seq<bv64>, a: seq<bv64>, i: int)
    requires 0 <= i < |r| && 0 <= i < |a|
    requires r[i] == Union(a[i], a[i])
    ensures r[i] == a[i]
  {
  }

  lemma SwapAt(r: seq<bv64>, s: seq<bv64>, a: seq<bv64>, b: seq<bv64>, i: int)
    requires 0 <= i < |r| && 0 <= i < |s| && 0 <= i < |a| && 0 <= i < |b|
    requires r[i] == Union(a[i], b[i]) && s[i] == Union(b[i], a[i])
    ensures r[i] == s[i]
  {
  }

  lemma ContainsAt(a: seq<bv64>, b: seq<bv64>, c: seq<bv64>, i: int)
    requires 0 <= i < |a| && 0 <= i < |b| && 0 <= i < |c|
    requires Contains(a[i], b[i]) && Contains(b[i], c[i])
    ensures Contains(a[i], c[i])
  {
  }

  lemma SelfContainsAt(a: seq<bv64>, i: int)
    requires 0 <= i < |a|
    ensures Contains(a[i], a[i])
  {
  }

  /** Insertion never clears a bit. */
  lemma InsertCovers(words: seq<bv64>, h: bv64, k: int)
    requires |words| > 0 && ValidHashCount(k)
    ensures Covers(Insert(words, h, k), words)
  {
    forall i | 0 <= i < |words| ensures Contains(Insert(words, h, k)[i], words[i]) {
      InsertCoversAt(words, h, k, i);
    }
  }

  /** Merge never clears a bit of either side. */
  lemma OrCovers(a: seq<bv64>, b: seq<bv64>)
    requires |a| == |b|
    ensures Covers(Or(a, b), a) && Covers(Or(a, b), b)
  {
    forall i | 0 <= i < |a| ensures Contains(Or(a, b)[i], a[i]) && Contains(Or(a, b)[i], b[i]) {
      OrAt(a, b, i);
      JoinAt(Or(a, b), a, b, i);
    }
  }

  /** Merging the same array again changes nothing. */
  lemma OrIdempotent(a: seq<bv64>, b: seq<bv64>)
    requires |a| == |b|
    ensures Or(Or(a, b), b) == Or(a, b)
  {
    var r := Or(a, b);
    forall i | 0 <= i < |a| ensures Or(r, b)[i] == r[i] {
      OrAt(r, b, i);
      OrAt(a, b, i);
      AgainAt(Or(r, b), r, a, b, i);
    }
  }

  /** Merging an array with itself is a no-op. */
  lemma OrSelfNoop(a: seq<bv64>)
    ensures Or(a, a) == a
  {
    forall i | 0 <= i < |a| ensures Or(a, a)[i] == a[i] {
      OrAt(a, a, i);
      SelfAt(Or(a, a), a, i);
    }
  }

  /** Merge is commutative, so A.merge(B) and B.merge(A) answer every test alike. */
  lemma OrCommutes(a: seq<bv64>, b: seq<bv64>)
    requires |a| == |b|
    ensures Or(a, b) == Or(b, a)
  {
    forall i | 0 <= i < |a| ensures Or(a, b)[i] == Or(b, a)[i] {
      OrAt(a, b, i);
      OrAt(b, a, i);
      SwapAt(Or(a, b), Or(b, a), a, b, i);
    }
  }

  lemma CoversTransitive(a: seq<bv64>, b: seq<bv64>, c: seq<bv64>)
    requires Covers(a, b) && Covers(b, c)
    ensures Covers(a, c)
  {
    forall i | 0 <= i < |a| ensures Contains(a[i], c[i]) {
      ContainsAt(a, b, c, i);
    }
  }

  /** A positive test stays positive when no bit is cleared. */
  lemma ProbeMonotone(small: seq<bv64>, big: seq<bv64>, h: bv64, k: int)
    requires |small| > 0 && ValidHashCount(k)
    requires Covers(big, small)
    requires MayContain(small, h, k)
    ensures MayContain(big, h, k)
  {
  }

  /** One state-changing step of a filter: an `addBytes` of a hash or a `merge` with a word array. */
  datatype Step = Add(h: bv64) | Merge(other: seq<bv64>)

  /** Every merge in the steps is with an array of the filter's length, as `putAll` asserts. */
  predicate Fits(steps: seq<Step>, len: int) {
    forall s :: s in steps && s.Merge? ==> |s.other| == len
  }

  /** The word array after one step. */
  function Apply(words: seq<bv64>, k: int, step: Step): (r: seq<bv64>)
    requires |words| > 0 && ValidHashCount(k)
    requires step.Merge? ==> |step.other| == |words|
    ensures |r| == |words|
  {
    match step
    case Add(h) => Insert(words, h, k)
    case Merge(other) => Or(words, other)
  }

  /** The word array after the steps, in order. */
  function Run(words: seq<bv64>, k: int, steps: seq<Step>): (r: seq<bv64>)
    requires |words| > 0 && ValidHashCount(k) && Fits(steps, |words|)
    ensures |r| == |words|
    decreases |steps|
  {
    if steps == [] then words
    else
      assert steps[0] in steps;
      assert Fits(steps[1..], |words|) by {
        forall s | s in steps[1..] ensures s in steps { }
      }
      Run(Apply(words, k, steps[0]), k, steps[1..])
  }

  /** Steps only ever set bits. */
  lemma {:induction false} RunCovers(words: seq<bv64>, k: int, steps: seq<Step>)
    requires |words| > 0 && ValidHashCount(k) && Fits(steps, |words|)
    ensures Covers(Run(words, k, steps), words)
    decreases |steps|
  {
    if steps == [] {
      forall i | 0 <= i < |words| ensures Contains(words[i], words[i]) {
        SelfContainsAt(words, i);
      }
    } else {
      assert steps[0] in steps;
      var next := Apply(words, k, steps[0]);
      match steps[0] {
        case Add(h) => InsertCovers(words, h, k);
        case Merge(other) => OrCovers(words, other);
      }
      assert Fits(steps[1..], |words|) by {
        forall s | s in steps[1..] ensures s in steps { }
      }
      RunCovers(next, k, steps[1..]);
      CoversTransitive(Run(next, k, steps[1..]), next, words);
    }
  }

  /**
   * No false negatives: once an item's hash has been added, the item tests
   * positive after any further adds and merges.
   */
  lemma NoFalseNegatives(words: seq<bv64>, h: bv64, k: int, later: seq<Step>)
    requires |words| > 0 && ValidHashCount(k) && Fits(later, |words|)
    ensures MayContain(Run(Insert(words, h, k), k, later), h, k)
  {
    var added := Insert(words, h, k);
    InsertThenProbe(words, h, k);
    RunCovers(added, k, later);
    ProbeMonotone(added, Run(added, k, later), h, k);
  }

  /** After a merge, every item positive in either filter is positive in the merge. */
  lemma MergeKeepsBoth(a: seq<bv64>, b: seq<bv64>, h: bv64, k: int)
    requires |a| == |b| > 0 && ValidHashCount(k)
    requires MayContain(a, h, k) || MayContain(b, h, k)
    ensures MayContain(Or(a, b), h, k)
  {
    OrCovers(a, b);
    if MayContain(a, h, k) {
      ProbeMonotone(a, Or(a, b), h, k);
    } else {
      ProbeMonotone(b, Or(a, b), h, k);
    }
  }
}
