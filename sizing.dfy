/**
 * Sizing of a filter from its expected number of entries `n` and false
 * positive probability `fpp`.
 *
 * The two floating-point estimates (`optimalNumOfBits`, and the
 * `Math.round(m / n * ln 2)` inside `optimalNumOfHashFunctions`) are supplied
 * as a `Sizing` function value; everything the code does with those numbers
 * afterwards — the `(int)` cast, `Math.max(1, ...)`, the word count — is
 * modelled here.
 */
module Sizing {

  /** Largest Java `int`: the largest array length and hash count. */
  const MaxInt: int := 0x7FFF_FFFF

  /** `DEFAULT_FPP = 0.05`, as its IEEE-754 bit pattern. */
  const DefaultFpp: bv64 := 0x3FA9_9999_9999_999A

  /** The bit pattern of the double 1.0. */
  const OneBits: bv64 := 0x3FF0_0000_0000_0000

  /**
   * `fpp > 0.0 && fpp < 1.0` on the bit pattern of a double: positive doubles
   * are ordered like their bit patterns, and everything from 1.0 up (and
   * every negative double, NaN and infinity) lies outside the range.
   */
  predicate ValidFpp(fpp: bv64) {
    0 < fpp < OneBits
  }

  /**
   * A valid expected number of entries: a positive Java `long`, kept as its
   * bit pattern (the sign bit clear and some other bit set).
   */
  predicate ValidEntries(n: bv64) {
    0 < n < 0x8000_0000_0000_0000
  }

  /**
   * The floating-point estimates for given `n` and `fpp`: `bits` is
   * `optimalNumOfBits(n, fpp)` and `rounded` is the `long` that
   * `Math.round((double) m / n * Math.log(2))` returns for that m.
   */
  datatype Estimate = Estimate(bits: int, rounded: bv64)

  type Sizing = (bv64, bv64) -> Estimate

  /** Least significant 32 bits of a Java `long`, as the `(int)` cast keeps them. */
  function IntCast(x: bv64): bv32 {
    (x & 0xFFFF_FFFF) as bv32
  }

  /**
   * `optimalNumOfHashFunctions`: `Math.max(1, (int) rounded)`. The cast keeps
   * the low 32 bits, which may read as a negative `int` or zero; either way
   * the result is 1.
   */
  function OptimalNumOfHashFunctions(rounded: bv64): (k: int)
    ensures 1 <= k <= MaxInt
    ensures k == 1 || k as bv32 == IntCast(rounded)
    ensures IntCast(rounded) == 0 || IntCast(rounded) >= 0x8000_0000 ==> k == 1
    ensures 0 < IntCast(rounded) < 0x8000_0000 ==> k == IntCast(rounded) as int
  {
    var c := IntCast(rounded);
    if c >= 0x8000_0000 || c == 0 then 1 else c as int
  }

  /** `(int) Math.ceil((double) bits / Long.SIZE)`, the number of words of a BitSet of `bits` bits. */
  function WordsFor(bits: int): (words: int)
    requires bits >= 0
    ensures 64 * (words - 1) < bits <= 64 * words || (bits == 0 && words == 0)
  {
    (bits + 63) / 64
  }

  /** The sizing constraints the constructors rely on: at least one word, at most an array's worth. */
  predicate ValidBits(bits: int) {
    1 <= bits && WordsFor(bits) <= MaxInt
  }

  /** Worked values of the rounded estimate, ordinary and edge cases. */
  lemma OptimalNumOfHashFunctionsExamples()
    // n = 10, m = 100: Math.round(100 / 10 * ln 2) = Math.round(6.93...) = 7
    ensures OptimalNumOfHashFunctions(7) == 7
    // n = 0, m > 0: Math.round(+Infinity) is Long.MAX_VALUE, whose (int) cast is -1
    ensures OptimalNumOfHashFunctions(0x7FFF_FFFF_FFFF_FFFF) == 1
    // n = 10, m = 10: Math.round(0.69...) = 1
    ensures OptimalNumOfHashFunctions(1) == 1
    // Math.round(NaN) is 0
    ensures OptimalNumOfHashFunctions(0) == 1
    // a low half with the sign bit set reads as a negative int
    ensures OptimalNumOfHashFunctions(0x1_8000_0000) == 1
  {
  }
}
