/**
 * The filter's bare bit set: a fixed array of 64-bit words, bit `index` being
 * bit `index & 63` of word `index >>> 6`. No bounds are checked and the array
 * never grows.
 *
 * Bit indexes are taken inside the bit set, `0 <= index < 64 * length`, where
 * `(int) (index >>> 6)` is `index / 64` and `1L << index` is bit `index % 64`.
 */
module BitSets {

  import opened Words
  import opened WordArray
  import Sizing

  // ---------------------------------------------------------------------
  // The bit set as a value
  // ---------------------------------------------------------------------

  /** The word of a bit index, `(int) (index >>> 6)`. */
  function WordOf(index: nat): nat {
    index / 64
  }

  /** The bit of a bit index inside its word: a shift by `index` uses its low six bits. */
  function OffsetOf(index: nat): bv6 {
    (index % 64) as bv6
  }

  /** The index addresses a bit of the array. */
  predicate InRange(words: seq<bv64>, index: nat) {
    index < 64 * |words|
  }

  /** `get`: the bit of the index is set. */
  predicate IsSet(words: seq<bv64>, index: nat)
    requires InRange(words, index)
  {
    HasBit(words[WordOf(index)], OffsetOf(index))
  }

  /** `set`: the array with the bit of the index set. */
  function WithSet(words: seq<bv64>, index: nat): (r: seq<bv64>)
    requires InRange(words, index)
    ensures |r| == |words|
  {
    words[WordOf(index) := WithBit(words[WordOf(index)], OffsetOf(index))]
  }

  /** A number below 64 survives the trip to six bits and back. */
  lemma SixBits(x: int)
    requires 0 <= x < 64
    ensures (x as bv6) as int == x
  {
  }

  lemma SameOffset(i: nat, j: nat)
    requires OffsetOf(i) == OffsetOf(j)
    ensures i % 64 == j % 64
  {
    SixBits(i % 64);
    SixBits(j % 64);
  }

  /** Distinct indexes name distinct bits: the word and the offset determine the index. */
  lemma SameIndex(i: nat, j: nat)
    requires WordOf(i) == WordOf(j) && OffsetOf(i) == OffsetOf(j)
    ensures i == j
  {
    SameOffset(i, j);
  }

  /** After setting bit i, bit j is set exactly when it was before or j is i. */
  lemma SetThenGet(words: seq<bv64>, i: nat, j: nat)
    requires InRange(words, i) && InRange(words, j)
    ensures IsSet(WithSet(words, i), j) <==> IsSet(words, j) || j == i
  {
    var w := WordOf(i);
    var r := WithSet(words, i);
    if WordOf(j) == w {
      SetBit(r[w], words[w], OffsetOf(i), OffsetOf(j));
      if OffsetOf(j) == OffsetOf(i) {
        SameIndex(i, j);
      }
    } else {
      assert r[WordOf(j)] == words[WordOf(j)];
    }
  }

  // ---------------------------------------------------------------------
  // The bit set as an object
  // ---------------------------------------------------------------------

  class BitSet {
    const data: array<bv64>

    /** `BitSet(long bits)`: enough zeroed words for `bits` bits, at least one. */
    constructor OfSize(bits: int)
      requires Sizing.ValidBits(bits)
      ensures data.Length == Sizing.WordsFor(bits)
      ensures bits <= BitSize() < bits + 64
      ensures forall i :: 0 <= i < data.Length ==> data[i] == 0
      ensures fresh(data)
    {
      data := new bv64[Sizing.WordsFor(bits)](_ => 0);
    }

    /** `BitSet(long[] data)`: wraps the array itself, which must not be empty. */
    constructor (data: array<bv64>)
      requires data.Length > 0
      ensures this.data == data
    {
      this.data := data;
    }

    /** `set`: sets the bit of the index and leaves every other bit alone. */
    method Set(index: nat)
      requires InRange(data[..], index)
      modifies data
      ensures data[..] == WithSet(old(data[..]), index)
      ensures IsSet(data[..], index)
    {
      data[WordOf(index)] := WithBit(data[WordOf(index)], OffsetOf(index));
      SetThenGet(old(data[..]), index, index);
    }

    /** `get`: whether the bit of the index is set. */
    predicate Get(index: nat): (r: bool)
      requires index < 64 * data.Length
      reads data
      ensures r <==> IsSet(data[..], index)
    {
      data[index / 64] & Bit(OffsetOf(index)) != 0
    }

    /** `bitSize`: 64 bits per word. */
    function BitSize(): (r: int)
      ensures r == 64 * data.Length
      ensures forall index: nat :: index < r ==> WordOf(index) < data.Length
    {
      data.Length * 64
    }

    /**
     * `putAll`: ORs the other set's words into this one, word by word. The
     * two must have the same length. When both share one array nothing
     * changes, as ORing a word with itself keeps it.
     */
    method PutAll(that: BitSet)
      requires data.Length == that.data.Length
      modifies data
      ensures data[..] == Or(old(data[..]), old(that.data[..]))
    {
      ghost var a := data[..];
      ghost var b := that.data[..];
      var i := 0;
      while i < data.Length
        invariant 0 <= i <= data.Length
        invariant forall j :: 0 <= j < i ==> data[j] == Union(a[j], b[j])
        invariant forall j :: i <= j < data.Length ==> data[j] == a[j] && that.data[j] == b[j]
      {
        data[i] := Union(data[i], that.data[i]);
        i := i + 1;
      }
      forall j | 0 <= j < data.Length ensures data[j] == Or(a, b)[j] {
        OrAt(a, b, j);
      }
    }
  }
}
