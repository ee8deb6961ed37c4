/** Ranges of one array: agreeing on a range, and being changed in one range only. */
module Ranges {

  predicate SameOn(a: seq<int>, b: seq<int>, lo: int, hi: int) {
    |a| == |b| && forall i :: lo <= i < hi && 0 <= i < |a| ==> a[i] == b[i]
  }

  /** Outside [lo, hi), nothing differs. */
  predicate SameOutside(a: seq<int>, b: seq<int>, lo: int, hi: int) {
    |a| == |b| && forall i :: 0 <= i < |a| && !(lo <= i < hi) ==> a[i] == b[i]
  }

  lemma SameSlice(a: seq<int>, b: seq<int>, lo: int, hi: int)
    requires 0 <= lo <= hi <= |a| && SameOn(a, b, lo, hi)
    ensures a[lo..hi] == b[lo..hi]
  {
  }

  lemma SplitSlice(a: seq<int>, lo: int, mid: int, hi: int)
    requires 0 <= lo <= mid <= hi <= |a|
    ensures a[lo..hi] == a[lo..mid] + a[mid..hi]
  {
  }

  lemma SplitSame(a: seq<int>, b: seq<int>, lo: int, mid: int, hi: int)
    requires lo <= mid <= hi && SameOn(a, b, lo, hi)
    ensures SameOn(a, b, lo, mid) && SameOn(a, b, mid, hi)
  {
  }

  /** A change outside a range leaves the range alone. */
  lemma OtherRange(a: seq<int>, b: seq<int>, lo: int, hi: int, from: int, to: int)
    requires SameOutside(a, b, lo, hi) && (to <= lo || hi <= from)
    ensures SameOn(a, b, from, to)
  {
  }

  lemma WiderRange(a: seq<int>, b: seq<int>, lo: int, hi: int, from: int, to: int)
    requires SameOutside(a, b, lo, hi) && from <= lo && hi <= to
    ensures SameOutside(a, b, from, to)
  {
  }

  lemma BothChanges(a: seq<int>, b: seq<int>, c: seq<int>, lo: int, hi: int)
    requires SameOutside(a, b, lo, hi) && SameOutside(b, c, lo, hi)
    ensures SameOutside(a, c, lo, hi)
  {
  }
}
