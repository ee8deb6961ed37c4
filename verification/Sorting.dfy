/** Sorted sequences, and the merge of two of them. */
module Sorting {

  predicate IsSorted(s: seq<int>) {
    forall i, j :: 0 <= i < j < |s| ==> s[i] <= s[j]
  }

  function Insert(x: int, s: seq<int>): seq<int> {
    if s == [] || x <= s[0] then [x] + s else [s[0]] + Insert(x, s[1..])
  }

  /** The elements of `s` in order. */
  function Sorted(s: seq<int>): seq<int> {
    if s == [] then [] else Insert(s[0], Sorted(s[1..]))
  }

  lemma {:induction false} InsertKeeps(x: int, s: seq<int>)
    ensures multiset(Insert(x, s)) == multiset{x} + multiset(s)
  {
    if s != [] && x > s[0] {
      InsertKeeps(x, s[1..]);
      assert s == [s[0]] + s[1..];
    }
  }

  lemma {:induction false} InsertSorts(x: int, s: seq<int>)
    requires IsSorted(s)
    ensures IsSorted(Insert(x, s))
  {
    if s != [] && x > s[0] {
      InsertSorts(x, s[1..]);
      InsertLowest(x, s[1..], s[0]);
    }
  }

  lemma {:induction false} InsertLowest(x: int, s: seq<int>, low: int)
    requires low <= x && forall i :: 0 <= i < |s| ==> low <= s[i]
    ensures forall i :: 0 <= i < |Insert(x, s)| ==> low <= Insert(x, s)[i]
  {
    if s != [] && x > s[0] {
      InsertLowest(x, s[1..], low);
    }
  }

  /** `Sorted` is a sorted permutation. */
  lemma {:induction false} SortedSorts(s: seq<int>)
    ensures IsSorted(Sorted(s)) && multiset(Sorted(s)) == multiset(s) && |Sorted(s)| == |s|
  {
    if s != [] {
      SortedSorts(s[1..]);
      InsertSorts(s[0], Sorted(s[1..]));
      InsertKeeps(s[0], Sorted(s[1..]));
      assert s == [s[0]] + s[1..];
    }
    SameSize(Sorted(s), s);
  }

  lemma SameSize(a: seq<int>, b: seq<int>)
    requires multiset(a) == multiset(b)
    ensures |a| == |b|
  {
    assert |multiset(a)| == |a| && |multiset(b)| == |b|;
  }

  lemma FirstIsLeast(a: seq<int>, b: seq<int>)
    requires IsSorted(a) && multiset(a) == multiset(b) && a != [] && b != []
    ensures a[0] <= b[0]
  {
    assert b[0] in multiset(b);
    assert b[0] in a;
  }

  lemma {:induction false} OnlyOne(a: seq<int>, b: seq<int>)
    requires IsSorted(a) && IsSorted(b) && multiset(a) == multiset(b)
    ensures a == b
  {
    SameSize(a, b);
    if a != [] {
      FirstIsLeast(a, b);
      FirstIsLeast(b, a);
      assert a == [a[0]] + a[1..] && b == [b[0]] + b[1..];
      assert multiset(a[1..]) == multiset(a) - multiset{a[0]} && multiset(b[1..]) == multiset(b) - multiset{b[0]};
      OnlyOne(a[1..], b[1..]);
    }
  }

  /** A sequence is the sorted one exactly when it is a sorted permutation. */
  lemma SortedIsTheOne(s: seq<int>, t: seq<int>)
    ensures t == Sorted(s) <==> IsSorted(t) && multiset(t) == multiset(s)
  {
    SortedSorts(s);
    if IsSorted(t) && multiset(t) == multiset(s) {
      OnlyOne(t, Sorted(s));
    }
  }

  /** What is left to merge of `x` from `i` and `y` from `j`; at equal elements, `x` first. */
  function MergeFrom(x: seq<int>, i: nat, y: seq<int>, j: nat): seq<int>
    requires i <= |x| && j <= |y|
    decreases |x| - i + |y| - j
  {
    if i == |x| && j == |y| then []
    else if i == |x| then [y[j]] + MergeFrom(x, i, y, j + 1)
    else if j == |y| then [x[i]] + MergeFrom(x, i + 1, y, j)
    else if x[i] <= y[j] then [x[i]] + MergeFrom(x, i + 1, y, j)
    else [y[j]] + MergeFrom(x, i, y, j + 1)
  }

  lemma {:induction false} MergeLength(x: seq<int>, i: nat, y: seq<int>, j: nat)
    requires i <= |x| && j <= |y|
    ensures |MergeFrom(x, i, y, j)| == |x| - i + |y| - j
    decreases |x| - i + |y| - j
  {
    if i == |x| && j == |y| {
    } else if i == |x| || (j < |y| && x[i] > y[j]) {
      MergeLength(x, i, y, j + 1);
    } else {
      MergeLength(x, i + 1, y, j);
    }
  }

  lemma TakeFirst(s: seq<int>, i: nat)
    requires i < |s|
    ensures multiset(s[i..]) == multiset{s[i]} + multiset(s[i + 1..])
  {
    assert s[i..] == [s[i]] + s[i + 1..];
  }

  lemma PutFirst(x: int, s: seq<int>)
    ensures multiset([x] + s) == multiset{x} + multiset(s)
  {
  }

  lemma {:induction false} MergeKeeps(x: seq<int>, i: nat, y: seq<int>, j: nat)
    requires i <= |x| && j <= |y|
    ensures multiset(MergeFrom(x, i, y, j)) == multiset(x[i..]) + multiset(y[j..])
    decreases |x| - i + |y| - j
  {
    if i == |x| && j == |y| {
    } else if i == |x| || (j < |y| && x[i] > y[j]) {
      MergeKeeps(x, i, y, j + 1);
      TakeFirst(y, j);
      PutFirst(y[j], MergeFrom(x, i, y, j + 1));
    } else {
      MergeKeeps(x, i + 1, y, j);
      TakeFirst(x, i);
      PutFirst(x[i], MergeFrom(x, i + 1, y, j));
    }
  }

  lemma {:induction false} MergeAbove(x: seq<int>, i: nat, y: seq<int>, j: nat, low: int)
    requires i <= |x| && j <= |y| && IsSorted(x) && IsSorted(y)
    requires i < |x| ==> low <= x[i]
    requires j < |y| ==> low <= y[j]
    ensures IsSorted(MergeFrom(x, i, y, j))
    ensures MergeFrom(x, i, y, j) != [] ==> low <= MergeFrom(x, i, y, j)[0]
    decreases |x| - i + |y| - j
  {
    if i == |x| && j == |y| {
    } else if i == |x| || (j < |y| && x[i] > y[j]) {
      MergeAbove(x, i, y, j + 1, y[j]);
    } else {
      MergeAbove(x, i + 1, y, j, x[i]);
    }
  }

  /** Merging the sorted halves sorts the whole. */
  lemma MergeSorts(s: seq<int>, t: seq<int>)
    ensures MergeFrom(Sorted(s), 0, Sorted(t), 0) == Sorted(s + t)
  {
    var x, y := Sorted(s), Sorted(t);
    SortedSorts(s);
    SortedSorts(t);
    MergeKeeps(x, 0, y, 0);
    assert x[0..] == x && y[0..] == y;
    var low := if x == [] then (if y == [] then 0 else y[0]) else if y == [] || x[0] <= y[0] then x[0] else y[0];
    MergeAbove(x, 0, y, 0, low);
    SortedIsTheOne(s + t, MergeFrom(x, 0, y, 0));
  }

  /** Is the next element of the merge taken from `y`? */
  predicate FromRight(x: seq<int>, i: nat, y: seq<int>, j: nat)
    requires i <= |x| && j <= |y|
  {
    i == |x| || (j < |y| && x[i] > y[j])
  }

  /** From `dst` on, `target` is what is left to merge of `x` from `i` and `y` from `j`. */
  ghost predicate MergesTo(x: seq<int>, i: nat, y: seq<int>, j: nat, target: seq<int>, dst: nat)
    requires i <= |x| && j <= |y|
    decreases |x| - i + |y| - j
  {
    if i == |x| && j == |y| then dst == |target|
    else if dst >= |target| then false
    else if FromRight(x, i, y, j) then target[dst] == y[j] && MergesTo(x, i, y, j + 1, target, dst + 1)
    else target[dst] == x[i] && MergesTo(x, i + 1, y, j, target, dst + 1)
  }

  lemma {:induction false} MergeMergesTo(x: seq<int>, i: nat, y: seq<int>, j: nat, target: seq<int>, dst: nat)
    requires i <= |x| && j <= |y| && dst <= |target| && target[dst..] == MergeFrom(x, i, y, j)
    ensures MergesTo(x, i, y, j, target, dst)
    decreases |x| - i + |y| - j
  {
    if i < |x| || j < |y| {
      assert target[dst] == target[dst..][0] && target[dst + 1..] == target[dst..][1..];
      if FromRight(x, i, y, j) {
        MergeMergesTo(x, i, y, j + 1, target, dst + 1);
      } else {
        MergeMergesTo(x, i + 1, y, j, target, dst + 1);
      }
    }
  }

  lemma MergeIsTarget(x: seq<int>, y: seq<int>, target: seq<int>)
    requires target == MergeFrom(x, 0, y, 0)
    ensures MergesTo(x, 0, y, 0, target, 0)
  {
    assert target[0..] == target;
    MergeMergesTo(x, 0, y, 0, target, 0);
  }
}
