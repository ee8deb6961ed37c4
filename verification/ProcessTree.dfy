/** The processes of the parallel merge sort over one shared array, as a transition system.
    A node of the tree is one call of merge_sort: its left half runs in a forked child, its
    right half in the calling process itself. */
module ProcessTree {
  import opened Options
  import opened Sorting
  import opened Ranges

  /** How a process ended that did not finish its work. */
  datatype Ending = Code(code: int) | Crashed

  /** A call on the range [b, e) and how far it is. `Ended` and `Broken` are the frames in
      which a process died; under `Broken` the child may live on as an orphan. */
  datatype Node =
    | Todo(b: int, e: int)
    | QSorting(b: int, e: int, was: seq<int>, writes: int)
    | Forked(b: int, e: int, mid: int, child: Node, rest: Node)
    | Merging(b: int, e: int, mid: int, left: int, right: int, temp: seq<int>)
    | Copying(b: int, e: int, temp: seq<int>, next: int)
    | Done(b: int, e: int)
    | Ended(b: int, e: int, how: Ending)
    | Broken(b: int, e: int, how: Ending, child: Node)

  /** What `mid` is of `b` and `e`: their sum halved, rounded down. */
  predicate IsMiddle(b: int, mid: int, e: int) { 2 * mid <= e + b <= 2 * mid + 1 }

  lemma MiddleIsHalf(b: int, mid: int, e: int)
    ensures IsMiddle(b, mid, e) <==> mid == (e + b) / 2
  {
  }

  /** The end of the process that runs this call, if it has died. */
  function Death(n: Node): Option<Ending> {
    match n
    case Ended(_, _, how) => Some(how)
    case Broken(_, _, how, _) => Some(how)
    case Forked(_, _, _, _, rest) => Death(rest)
    case _ => None
  }

  /** The call begins: a short range is sorted in place, for a long one a child is forked. */
  ghost predicate BeginStep(t: int, ok: bool, a: seq<int>, n: Node, n': Node, forks: int) {
    var mid := (n.e + n.b) / 2;
    if n.e - n.b <= t then
      && forks == 0 && 0 <= n.b <= n.e <= |a| && n'.QSorting? && n'.writes >= 0
      && n' == QSorting(n.b, n.e, a[n.b..n.e], n'.writes)
    else
      || (forks == 1 && n' == Forked(n.b, n.e, mid, Todo(n.b, mid), Todo(mid, n.e)))
      || (!ok && forks == 0 && n' == Ended(n.b, n.e, Code(8)))
  }

  /** qsort writes anything into its range, and in the end has sorted it. */
  ghost predicate QSortStep(a: seq<int>, n: Node, a': seq<int>, n': Node)
    requires n.QSorting?
  {
    && SameOutside(a, a', n.b, n.e)
    && (|| (n.writes > 0 && n' == n.(writes := n.writes - 1))
        || (0 <= n.b <= n.e <= |a| && a'[n.b..n.e] == Sorted(n.was) && n' == Done(n.b, n.e)))
  }

  /** One turn of the merge loop, into memory of the process's own. */
  ghost predicate MergeStep(a: seq<int>, n: Node, n': Node)
    requires n.Merging?
  {
    var atEndL, atEndR := n.left >= n.mid, n.right >= n.e;
    if atEndL && atEndR then n' == Copying(n.b, n.e, n.temp, n.b)
    else
      && 0 <= n.left && 0 <= n.right && (atEndL || n.left < |a|) && (atEndR || n.right < |a|)
      && n' == if atEndL || (!atEndR && a[n.left] > a[n.right])
               then n.(right := n.right + 1, temp := n.temp + [a[n.right]])
               else n.(left := n.left + 1, temp := n.temp + [a[n.left]])
  }

  ghost predicate CopyStep(a: seq<int>, n: Node, a': seq<int>, n': Node)
    requires n.Copying?
  {
    if n.next >= n.e then a' == a && n' == Done(n.b, n.e)
    else
      && 0 <= n.next < |a| && 0 <= n.next - n.b < |n.temp|
      && a' == a[n.next := n.temp[n.next - n.b]] && n' == n.(next := n.next + 1)
  }

  /** waitpid, once this process has sorted its own half. */
  ghost predicate WaitStep(ok: bool, n: Node, n': Node)
    requires n.Forked?
  {
    && n.rest.Done?
    && (|| (n.child.Done? && n' == Merging(n.b, n.e, n.mid, n.b, n.mid, []))
        || (Death(n.child) == Some(Crashed) && n' == Broken(n.b, n.e, Code(10), n.child))
        || (Death(n.child).Some? && Death(n.child).value.Code? && Death(n.child).value.code != 0
            && n' == Broken(n.b, n.e, Code(11), n.child))
        || (!ok && n' == Broken(n.b, n.e, Code(9), n.child)))
  }

  /** A process is killed in the frame it is in. */
  predicate CrashStep(n: Node, n': Node) {
    match n
    case Todo(b, e) => n' == Ended(b, e, Crashed)
    case QSorting(b, e, _, _) => n' == Ended(b, e, Crashed)
    case Merging(b, e, _, _, _, _) => n' == Ended(b, e, Crashed)
    case Copying(b, e, _, _) => n' == Ended(b, e, Crashed)
    case Forked(b, e, mid, child, rest) =>
      || (rest.Done? && n' == Broken(b, e, Crashed, child))
      || (child.Done? && n' == Forked(b, e, mid, Ended(child.b, child.e, Crashed), rest))
    case _ => false
  }

  /** A step of the process that runs this call, in this very call. */
  ghost predicate OwnStep(t: int, ok: bool, a: seq<int>, n: Node, a': seq<int>, n': Node, forks: int) {
    || (!ok && a' == a && forks == 0 && CrashStep(n, n'))
    || (n.Todo? && a' == a && BeginStep(t, ok, a, n, n', forks))
    || (n.QSorting? && forks == 0 && QSortStep(a, n, a', n'))
    || (n.Merging? && a' == a && forks == 0 && MergeStep(a, n, n'))
    || (n.Copying? && forks == 0 && CopyStep(a, n, a', n'))
    || (n.Forked? && a' == a && forks == 0 && WaitStep(ok, n, n'))
  }

  /** One step of one process of the tree. With `ok`, no fork or waitpid fails in it and no
      process crashes. `forks` counts the process it creates. */
  ghost predicate Step(t: int, ok: bool, a: seq<int>, n: Node, a': seq<int>, n': Node, forks: int) {
    || OwnStep(t, ok, a, n, a', n', forks)
    || ((n.Forked? || n.Broken?) && (n'.Forked? || n'.Broken?) && n' == n.(child := n'.child)
        && Step(t, ok, a, n.child, a', n'.child, forks))
    || (n.Forked? && n'.Forked? && n' == n.(rest := n'.rest) && Step(t, ok, a, n.rest, a', n'.rest, forks))
  }

  /** Does the child's process, or one below it, take this step? */
  ghost predicate ChildStep(t: int, ok: bool, a: seq<int>, n: Node, a': seq<int>, n': Node, forks: int) {
    (n.Forked? || n.Broken?) && (n'.Forked? || n'.Broken?) && n' == n.(child := n'.child)
    && Step(t, ok, a, n.child, a', n'.child, forks)
  }

  /** What a call has achieved on its range, compared with the contents at the very start. */
  ghost predicate Inv(t: int, a: seq<int>, n: Node, init: seq<int>) {
    && 0 <= n.b <= n.e <= |a| && |init| == |a|
    && match n
       case Todo(b, e) => SameOn(a, init, b, e)
       case QSorting(b, e, was, writes) => was == init[b..e] && writes >= 0
       case Forked(b, e, mid, child, rest) =>
         && e - b > t && IsMiddle(b, mid, e) && child.b == b && child.e == mid && rest.b == mid && rest.e == e
         && Inv(t, a, child, init) && Inv(t, a, rest, init)
       case Broken(b, e, _, child) =>
         e - b > t && IsMiddle(b, child.e, e) && child.b == b && Inv(t, a, child, init)
       case Merging(b, e, mid, left, right, temp) => e - b > t && MergeOk(a, init, b, mid, e, left, right, temp)
       case Copying(b, e, temp, next) => CopyOk(a, init, b, e, temp, next)
       case Done(b, e) => a[b..e] == Sorted(init[b..e])
       case Ended(_, _, _) => true
  }

  ghost predicate MergeOk(a: seq<int>, init: seq<int>, b: int, mid: int, e: int, left: int, right: int, temp: seq<int>)
    requires 0 <= b <= e <= |a| == |init|
  {
    && b <= left <= mid <= right <= e
    && a[b..mid] == Sorted(init[b..mid]) && a[mid..e] == Sorted(init[mid..e])
    && MergedSoFar(a[b..mid], left - b, a[mid..e], right - mid, temp, Sorted(init[b..e]))
  }

  /** `temp` is the beginning of `target`, and the rest is still to merge. */
  ghost predicate MergedSoFar(x: seq<int>, i: int, y: seq<int>, j: int, temp: seq<int>, target: seq<int>) {
    0 <= i <= |x| && 0 <= j <= |y| && temp <= target && MergesTo(x, i, y, j, target, |temp|)
  }

  ghost predicate CopyOk(a: seq<int>, init: seq<int>, b: int, e: int, temp: seq<int>, next: int)
    requires 0 <= b <= e <= |a| == |init|
  {
    && temp == Sorted(init[b..e]) && |temp| == e - b && b <= next <= e
    && forall k :: b <= k < next ==> a[k] == temp[k - b]
  }

  lemma OwnWrites(t: int, ok: bool, a: seq<int>, n: Node, a': seq<int>, n': Node, forks: int, init: seq<int>)
    requires Inv(t, a, n, init) && OwnStep(t, ok, a, n, a', n', forks)
    ensures SameOutside(a, a', n.b, n.e) && n'.b == n.b && n'.e == n.e
  {
  }

  /** Every step writes only inside the range of the call whose process takes it; stated
      for every call of the tree, each of which contains the calls below it. */
  lemma {:induction false} StepWrites(t: int, ok: bool, a: seq<int>, n: Node, a': seq<int>, n': Node,
      forks: int, init: seq<int>)
    requires Inv(t, a, n, init) && Step(t, ok, a, n, a', n', forks)
    ensures SameOutside(a, a', n.b, n.e) && n'.b == n.b && n'.e == n.e
  {
    if OwnStep(t, ok, a, n, a', n', forks) {
      OwnWrites(t, ok, a, n, a', n', forks, init);
    } else if ChildStep(t, ok, a, n, a', n', forks) {
      StepWrites(t, ok, a, n.child, a', n'.child, forks, init);
      WiderRange(a, a', n.child.b, n.child.e, n.b, n.e);
    } else {
      StepWrites(t, ok, a, n.rest, a', n'.rest, forks, init);
      WiderRange(a, a', n.rest.b, n.rest.e, n.b, n.e);
    }
  }

  lemma MergeFrame(a: seq<int>, a': seq<int>, init: seq<int>, b: int, mid: int, e: int, left: int,
      right: int, temp: seq<int>)
    requires 0 <= b <= e <= |a| == |init| && MergeOk(a, init, b, mid, e, left, right, temp) && SameOn(a, a', b, e)
    ensures MergeOk(a', init, b, mid, e, left, right, temp)
  {
    SplitSame(a, a', b, mid, e);
    SameSlice(a, a', b, mid);
    SameSlice(a, a', mid, e);
  }

  /** What a call has achieved depends on its range only. */
  lemma {:induction false} InvFrame(t: int, a: seq<int>, a': seq<int>, n: Node, init: seq<int>)
    requires Inv(t, a, n, init) && SameOn(a, a', n.b, n.e)
    ensures Inv(t, a', n, init)
  {
    match n
    case Forked(b, e, mid, child, rest) =>
      SplitSame(a, a', b, mid, e);
      InvFrame(t, a, a', child, init);
      InvFrame(t, a, a', rest, init);
    case Broken(b, e, _, child) =>
      SplitSame(a, a', b, child.e, e);
      InvFrame(t, a, a', child, init);
    case Merging(b, e, mid, left, right, temp) =>
      MergeFrame(a, a', init, b, mid, e, left, right, temp);
    case Done(b, e) =>
      SameSlice(a, a', b, e);
    case _ =>
  }

  lemma TakeLeft(x: seq<int>, i: int, y: seq<int>, j: int, temp: seq<int>, target: seq<int>)
    requires MergedSoFar(x, i, y, j, temp, target) && i < |x| && (j == |y| || x[i] <= y[j])
    ensures MergedSoFar(x, i + 1, y, j, temp + [x[i]], target)
  {
  }

  lemma TakeRight(x: seq<int>, i: int, y: seq<int>, j: int, temp: seq<int>, target: seq<int>)
    requires MergedSoFar(x, i, y, j, temp, target) && j < |y| && (i == |x| || x[i] > y[j])
    ensures MergedSoFar(x, i, y, j + 1, temp + [y[j]], target)
  {
  }

  lemma LeftOk(a: seq<int>, init: seq<int>, b: int, mid: int, e: int, left: int, right: int, temp: seq<int>)
    requires 0 <= b <= e <= |a| == |init| && MergeOk(a, init, b, mid, e, left, right, temp)
    requires left < mid && (right == e || a[left] <= a[right])
    ensures MergeOk(a, init, b, mid, e, left + 1, right, temp + [a[left]])
  {
    var x, y, i, j := a[b..mid], a[mid..e], left - b, right - mid;
    assert x[i] == a[left] && (right < e ==> y[j] == a[right]);
    TakeLeft(x, i, y, j, temp, Sorted(init[b..e]));
    assert left + 1 - b == i + 1;
  }

  lemma RightOk(a: seq<int>, init: seq<int>, b: int, mid: int, e: int, left: int, right: int, temp: seq<int>)
    requires 0 <= b <= e <= |a| == |init| && MergeOk(a, init, b, mid, e, left, right, temp)
    requires right < e && (left == mid || a[left] > a[right])
    ensures MergeOk(a, init, b, mid, e, left, right + 1, temp + [a[right]])
  {
    var x, y, i, j := a[b..mid], a[mid..e], left - b, right - mid;
    assert y[j] == a[right] && (left < mid ==> x[i] == a[left]);
    TakeRight(x, i, y, j, temp, Sorted(init[b..e]));
    assert right + 1 - mid == j + 1;
  }

  lemma MergeEnds(a: seq<int>, init: seq<int>, b: int, mid: int, e: int, left: int, right: int, temp: seq<int>)
    requires 0 <= b <= e <= |a| == |init| && MergeOk(a, init, b, mid, e, left, right, temp)
    requires left >= mid && right >= e
    ensures CopyOk(a, init, b, e, temp, b)
  {
    SortedSorts(init[b..e]);
  }

  lemma TurnRight(a: seq<int>, n: Node, n': Node, init: seq<int>)
    requires n.Merging? && 0 <= n.b <= n.e <= |a| == |init|
    requires MergeOk(a, init, n.b, n.mid, n.e, n.left, n.right, n.temp)
    requires n.right < n.e && (n.left == n.mid || a[n.left] > a[n.right])
    requires n' == n.(right := n.right + 1, temp := n.temp + [a[n.right]])
    ensures MergeOk(a, init, n'.b, n'.mid, n'.e, n'.left, n'.right, n'.temp)
  {
    RightOk(a, init, n.b, n.mid, n.e, n.left, n.right, n.temp);
  }

  lemma TurnLeft(a: seq<int>, n: Node, n': Node, init: seq<int>)
    requires n.Merging? && 0 <= n.b <= n.e <= |a| == |init|
    requires MergeOk(a, init, n.b, n.mid, n.e, n.left, n.right, n.temp)
    requires n.left < n.mid && (n.right == n.e || a[n.left] <= a[n.right])
    requires n' == n.(left := n.left + 1, temp := n.temp + [a[n.left]])
    ensures MergeOk(a, init, n'.b, n'.mid, n'.e, n'.left, n'.right, n'.temp)
  {
    LeftOk(a, init, n.b, n.mid, n.e, n.left, n.right, n.temp);
  }

  lemma MergeStepOk(t: int, a: seq<int>, n: Node, n': Node, init: seq<int>)
    requires Inv(t, a, n, init) && n.Merging? && MergeStep(a, n, n')
    ensures Inv(t, a, n', init)
  {
    if n.left >= n.mid && n.right >= n.e {
      MergeEnds(a, init, n.b, n.mid, n.e, n.left, n.right, n.temp);
    } else if n.left >= n.mid || (n.right < n.e && a[n.left] > a[n.right]) {
      TurnRight(a, n, n', init);
    } else {
      TurnLeft(a, n, n', init);
    }
  }

  lemma CopyStepOk(t: int, a: seq<int>, n: Node, a': seq<int>, n': Node, init: seq<int>)
    requires Inv(t, a, n, init) && n.Copying? && CopyStep(a, n, a', n')
    ensures Inv(t, a', n', init)
  {
    if n.next >= n.e {
      assert a[n.b..n.e] == n.temp;
    }
  }

  /** A merge begins on two sorted halves. */
  lemma MergeBegins(a: seq<int>, init: seq<int>, b: int, mid: int, e: int)
    requires 0 <= b <= mid <= e <= |a| == |init|
    requires a[b..mid] == Sorted(init[b..mid]) && a[mid..e] == Sorted(init[mid..e])
    ensures MergeOk(a, init, b, mid, e, b, mid, [])
  {
    MergeSorts(init[b..mid], init[mid..e]);
    SplitSlice(init, b, mid, e);
    MergeIsTarget(a[b..mid], a[mid..e], Sorted(init[b..e]));
  }

  lemma BeginOk(t: int, ok: bool, a: seq<int>, n: Node, n': Node, forks: int, init: seq<int>)
    requires t >= 1 && Inv(t, a, n, init) && n.Todo? && BeginStep(t, ok, a, n, n', forks)
    ensures Inv(t, a, n', init)
  {
    var mid := (n.e + n.b) / 2;
    MiddleIsHalf(n.b, mid, n.e);
    SameSlice(a, init, n.b, n.e);
    SplitSame(a, init, n.b, mid, n.e);
  }

  lemma OwnInv(t: int, ok: bool, a: seq<int>, n: Node, a': seq<int>, n': Node, forks: int, init: seq<int>)
    requires t >= 1 && Inv(t, a, n, init) && OwnStep(t, ok, a, n, a', n', forks)
    ensures Inv(t, a', n', init)
  {
    if a' == a && CrashStep(n, n') {
    } else if n.Todo? {
      BeginOk(t, ok, a, n, n', forks, init);
    } else if n.Merging? {
      MergeStepOk(t, a, n, n', init);
    } else if n.Copying? {
      CopyStepOk(t, a, n, a', n', init);
    } else if n.Forked? && n'.Merging? {
      MergeBegins(a, init, n.b, n.mid, n.e);
    }
  }

  /** Every step of every process keeps what all the calls have achieved. */
  lemma {:induction false} InvStep(t: int, ok: bool, a: seq<int>, n: Node, a': seq<int>, n': Node,
      forks: int, init: seq<int>)
    requires t >= 1 && Inv(t, a, n, init) && Step(t, ok, a, n, a', n', forks)
    ensures Inv(t, a', n', init)
  {
    if OwnStep(t, ok, a, n, a', n', forks) {
      OwnInv(t, ok, a, n, a', n', forks, init);
    } else if ChildStep(t, ok, a, n, a', n', forks) {
      InvStep(t, ok, a, n.child, a', n'.child, forks, init);
      StepWrites(t, ok, a, n.child, a', n'.child, forks, init);
      if n.Forked? {
        OtherRange(a, a', n.child.b, n.child.e, n.rest.b, n.rest.e);
        InvFrame(t, a, a', n.rest, init);
      }
    } else {
      InvStep(t, ok, a, n.rest, a', n'.rest, forks, init);
      StepWrites(t, ok, a, n.rest, a', n'.rest, forks, init);
      OtherRange(a, a', n.rest.b, n.rest.e, n.child.b, n.child.e);
      InvFrame(t, a, a', n.child, init);
    }
  }
}
