/**
 * The serialised form of a filter, `[n, doubleToLongBits(fpp), data...]`,
 * taken as a value: what `serialize` produces and what the deserialising
 * constructor accepts and rebuilds.
 */
module Serial {

  import opened Sizing

  datatype Option<T> = None | Some(value: T)

  /** Everything a filter holds: its configuration and its word array. */
  datatype FilterState = FilterState(n: bv64, fpp: bv64, m: int, k: int, words: seq<bv64>)

  /**
   * A state a constructor can produce: valid `n` and `fpp`, `m` and `k`
   * derived from them, and a non-empty word array.
   */
  predicate WellFormed(s: FilterState, sizing: Sizing) {
    ValidConfig(s.n, s.fpp, s.m, s.k, sizing) && |s.words| > 0
  }

  /** Valid `n` and `fpp`, with `m` and `k` derived from them as the constructors do. */
  predicate ValidConfig(n: bv64, fpp: bv64, m: int, k: int, sizing: Sizing) {
    ValidEntries(n) && ValidFpp(fpp)
    && m == sizing(n, fpp).bits && ValidBits(m)
    && k == OptimalNumOfHashFunctions(sizing(n, fpp).rounded)
  }

  /** `serialize`: `n`, then the bit pattern of `fpp`, then the words in index order. */
  function Encode(s: FilterState): (list: seq<bv64>)
    ensures |list| == 2 + |s.words|
    ensures list[0] == s.n && list[1] == s.fpp
    ensures list[2..] == s.words
  {
    [s.n, s.fpp] + s.words
  }

  /**
   * The deserialising constructor on a list: None wherever it would fail —
   * fewer than two entries, an `n` that is not positive, an `fpp` outside
   * (0, 1), a sizing with no word (or more than an array holds), or no word
   * after the first two entries. Otherwise `m` and `k` are re-derived from
   * `n` and `fpp` and the words are the rest of the list.
   */
  function Decode(list: seq<bv64>, sizing: Sizing): (r: Option<FilterState>)
    ensures r.Some? <==> |list| > 2 && ValidEntries(list[0]) && ValidFpp(list[1])
                          && ValidBits(sizing(list[0], list[1]).bits)
    ensures r.Some? ==> WellFormed(r.value, sizing) && r.value.words == list[2..]
  {
    if |list| < 2 then None
    else
      var n := list[0];
      var fpp := list[1];
      if !ValidEntries(n) || !ValidFpp(fpp) then None
      else
        var estimate := sizing(n, fpp);
        if !ValidBits(estimate.bits) || |list| == 2 then None
        else Some(FilterState(n, fpp, estimate.bits, OptimalNumOfHashFunctions(estimate.rounded), list[2..]))
  }

  /** Deserialising a serialised filter gives the same filter back. */
  lemma DecodeEncode(s: FilterState, sizing: Sizing)
    requires WellFormed(s, sizing)
    ensures Decode(Encode(s), sizing) == Some(s)
  {
  }

  /** Whatever the deserialising constructor accepts, serialising it again gives the same list. */
  lemma EncodeDecode(list: seq<bv64>, sizing: Sizing)
    requires Decode(list, sizing).Some?
    ensures Encode(Decode(list, sizing).value) == list
  {
    var s := Decode(list, sizing).value;
    assert Encode(s) == [list[0], list[1]] + list[2..];
  }
}
