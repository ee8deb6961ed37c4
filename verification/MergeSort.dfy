/** The sequential side of the parallel merge sort: merging in an array, and the result of
    running every child to its end at its fork. */
module MergeSort {
  import opened Sorting
  import opened Ranges

  function Compare(left: int, right: int): int {
    if left > right then 1 else if left < right then -1 else 0
  }

  /** One turn of the merge loop: the smaller of the next elements goes to `temparr[dst]`. */
  method TakeNext(arr: array<int>, left: nat, mid: nat, right: nat, end: nat, temparr: array<int>, dst: nat)
      returns (fromRight: bool)
    requires left <= mid <= right <= end <= arr.Length && arr != temparr && dst < temparr.Length
    requires left < mid || right < end
    modifies temparr
    ensures fromRight <==> left == mid || (right < end && arr[left] > arr[right])
    ensures fromRight ==> right < end
    ensures temparr[dst] == if fromRight then arr[right] else arr[left]
    ensures forall k :: 0 <= k < temparr.Length && k != dst ==> temparr[k] == old(temparr[k])
  {
    var atEndL, atEndR := left >= mid, right >= end;
    if atEndL {
      temparr[dst] := arr[right];
      return true;
    } else if atEndR {
      temparr[dst] := arr[left];
      return false;
    }
    var cmp := Compare(arr[left], arr[right]);
    if cmp <= 0 {
      temparr[dst] := arr[left];
      return false;
    }
    temparr[dst] := arr[right];
    return true;
  }

  /** The ranges as the loop sees them: next elements and which of them comes first. */
  lemma SameChoice(a: seq<int>, begin: nat, mid: nat, end: nat, i: nat, j: nat)
    requires begin + i <= mid && mid + j <= end <= |a| && (begin + i < mid || mid + j < end)
    ensures var x, y := a[begin..mid], a[mid..end];
            && (FromRight(x, i, y, j) <==> begin + i == mid || (mid + j < end && a[begin + i] > a[mid + j]))
            && (begin + i < mid ==> x[i] == a[begin + i]) && (mid + j < end ==> y[j] == a[mid + j])
  {
  }

  /** Merges the ranges [begin, mid) and [mid, end) into `temparr`. */
  method Merge(arr: array<int>, begin: nat, mid: nat, end: nat, temparr: array<int>)
    requires begin <= mid <= end <= arr.Length && arr != temparr && temparr.Length == end - begin
    modifies temparr
    ensures temparr[..] == MergeFrom(arr[begin..mid], 0, arr[mid..end], 0)
  {
    var left, right, dst := begin, mid, 0;
    ghost var a := arr[..];
    ghost var x, y := a[begin..mid], a[mid..end];
    assert x == arr[begin..mid] && y == arr[mid..end];
    ghost var i, j := 0, 0;
    ghost var target := MergeFrom(x, 0, y, 0);
    MergeLength(x, 0, y, 0);
    MergeIsTarget(x, y, target);
    while left < mid || right < end
      invariant left == begin + i <= mid && right == mid + j <= end && dst == i + j
      invariant forall p :: 0 <= p < arr.Length ==> arr[p] == a[p]
      invariant MergesTo(x, i, y, j, target, dst)
      invariant forall k :: 0 <= k < dst ==> temparr[k] == target[k]
      decreases mid - left + end - right
    {
      SameChoice(a, begin, mid, end, i, j);
      var fromRight := TakeNext(arr, left, mid, right, end, temparr, dst);
      if fromRight {
        right, j := right + 1, j + 1;
      } else {
        left, i := left + 1, i + 1;
      }
      dst := dst + 1;
    }
    assert temparr[..] == target;
  }

  /** From `was` to `now`, the range is sorted and nothing else touched. */
  predicate RangeSorted(was: seq<int>, now: seq<int>, begin: nat, end: nat)
    requires begin <= end <= |was|
  {
    SameOutside(was, now, begin, end) && now[begin..end] == Sorted(was[begin..end])
  }

  /** The copy loop: `temparr` goes into the range. */
  method CopyBack(arr: array<int>, begin: nat, end: nat, temparr: array<int>)
    requires begin <= end <= arr.Length && arr != temparr && temparr.Length == end - begin
    modifies arr
    ensures SameOutside(old(arr[..]), arr[..], begin, end) && arr[begin..end] == temparr[..]
  {
    for i := begin to end
      invariant forall k :: 0 <= k < arr.Length && !(begin <= k < i) ==> arr[k] == old(arr[k])
      invariant forall k :: begin <= k < i ==> arr[k] == temparr[k - begin]
    {
      arr[i] := temparr[i - begin];
    }
  }

  /** The C library's sort, whose algorithm is not part of this model. */
  method QSort(arr: array<int>, begin: nat, end: nat)
    requires begin <= end <= arr.Length
    modifies arr
    ensures RangeSorted(old(arr[..]), arr[..], begin, end)
  {
    var ordered := Sorted(arr[begin..end]);
    SortedSorts(arr[begin..end]);
    var temparr := new int[end - begin](i requires 0 <= i < end - begin => ordered[i]);
    assert temparr[..] == ordered;
    CopyBack(arr, begin, end, temparr);
    assert arr[..][begin..end] == arr[begin..end];
  }

  /** merge_sort without processes: sorts its range and touches nothing else. */
  method Sort(arr: array<int>, begin: nat, end: nat, threshold: nat)
    requires begin <= end <= arr.Length && threshold >= 1
    modifies arr
    ensures RangeSorted(old(arr[..]), arr[..], begin, end)
    decreases end - begin
  {
    ghost var was := arr[..];
    var mid := (end + begin) / 2;
    if end - begin <= threshold {
      QSort(arr, begin, end);
      return;
    }
    Sort(arr, begin, mid, threshold);
    ghost var half := arr[..];
    Sort(arr, mid, end, threshold);
    ghost var both := arr[..];
    Halves(was, half, both, begin, mid, end);
    var temparr := new int[end - begin];
    SlicesOf(arr, begin, mid, end);
    Merge(arr, begin, mid, end, temparr);
    CopyBack(arr, begin, end, temparr);
    assert arr[..][begin..end] == arr[begin..end];
    BothChanges(was, both, arr[..], begin, end);
  }

  lemma SlicesOf(arr: array<int>, begin: nat, mid: nat, end: nat)
    requires begin <= mid <= end <= arr.Length
    ensures arr[..][begin..mid] == arr[begin..mid] && arr[..][mid..end] == arr[mid..end]
  {
  }

  /** After both halves are sorted, merging them gives the sorted whole. */
  lemma Halves(was: seq<int>, half: seq<int>, both: seq<int>, begin: nat, mid: nat, end: nat)
    requires begin <= mid <= end <= |was|
    requires RangeSorted(was, half, begin, mid) && RangeSorted(half, both, mid, end)
    ensures SameOutside(was, both, begin, end)
    ensures MergeFrom(both[begin..mid], 0, both[mid..end], 0) == Sorted(was[begin..end])
  {
    WiderRange(was, half, begin, mid, begin, end);
    WiderRange(half, both, mid, end, begin, end);
    BothChanges(was, half, both, begin, end);
    OtherRange(was, half, begin, mid, mid, end);
    SameSlice(was, half, mid, end);
    OtherRange(half, both, mid, end, begin, mid);
    SameSlice(half, both, begin, mid);
    MergeSorts(was[begin..mid], was[mid..end]);
    SplitSlice(was, begin, mid, end);
  }
}
