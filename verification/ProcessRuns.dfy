/** What any interleaving of the sorting processes comes to. */
module ProcessRuns {
  import opened Options
  import opened Sorting
  import opened Ranges
  import opened ProcessTree
  import opened ProcessBounds

  /** Has a process died that some live or dead process still has to wait for? */
  predicate Doomed(n: Node) {
    match n
    case Ended(_, _, _) => true
    case Broken(_, _, _, _) => true
    case Forked(_, _, _, child, rest) => Doomed(child) || Doomed(rest)
    case _ => false
  }

  lemma {:induction false} DeathDooms(n: Node)
    requires Death(n).Some?
    ensures Doomed(n)
  {
    if n.Forked? {
      DeathDooms(n.rest);
    }
  }

  /** A failure anywhere among the awaited calls stays. */
  lemma {:induction false} DoomedStays(t: int, ok: bool, a: seq<int>, n: Node, a': seq<int>, n': Node, forks: int)
    requires Step(t, ok, a, n, a', n', forks) && Doomed(n)
    ensures Doomed(n')
  {
    if OwnStep(t, ok, a, n, a', n', forks) {
      assert n.Forked? ==> Doomed(n.child) || Doomed(n.rest);
      assert n.Forked? && n.child.Done? ==> !Doomed(n.child);
    } else if ChildStep(t, ok, a, n, a', n', forks) {
      if Doomed(n.child) {
        DoomedStays(t, ok, a, n.child, a', n'.child, forks);
      }
    } else if Doomed(n.rest) {
      DoomedStays(t, ok, a, n.rest, a', n'.rest, forks);
    }
  }

  /** Nothing dooms a tree but a failing fork, a failing waitpid or a crash. */
  lemma {:induction false} NoOtherDoom(t: int, a: seq<int>, n: Node, a': seq<int>, n': Node, forks: int)
    requires Step(t, true, a, n, a', n', forks) && !Doomed(n)
    ensures !Doomed(n')
  {
    if OwnStep(t, true, a, n, a', n', forks) {
      if n.Forked? && Death(n.child).Some? {
        DeathDooms(n.child);
      }
    } else if ChildStep(t, true, a, n, a', n', forks) {
      NoOtherDoom(t, a, n.child, a', n'.child, forks);
    } else {
      NoOtherDoom(t, a, n.rest, a', n'.rest, forks);
    }
  }

  predicate FailureCode(how: Ending) { how.Code? ==> 8 <= how.code <= 11 }

  /** Whatever process dies does so with a non-zero code or by a crash. */
  predicate CodesOk(n: Node) {
    match n
    case Ended(_, _, how) => FailureCode(how)
    case Broken(_, _, how, child) => FailureCode(how) && CodesOk(child)
    case Forked(_, _, _, child, rest) => CodesOk(child) && CodesOk(rest)
    case _ => true
  }

  lemma {:induction false} DeathCode(n: Node)
    requires CodesOk(n) && Death(n).Some?
    ensures FailureCode(Death(n).value)
  {
    if n.Forked? {
      DeathCode(n.rest);
    }
  }

  lemma {:induction false} CodesStay(t: int, ok: bool, a: seq<int>, n: Node, a': seq<int>, n': Node, forks: int)
    requires Step(t, ok, a, n, a', n', forks) && CodesOk(n)
    ensures CodesOk(n')
  {
    if OwnStep(t, ok, a, n, a', n', forks) {
    } else if ChildStep(t, ok, a, n, a', n', forks) {
      CodesStay(t, ok, a, n.child, a', n'.child, forks);
    } else {
      CodesStay(t, ok, a, n.rest, a', n'.rest, forks);
    }
  }

  /** Processes still to be created. */
  function ForksLeft(t: int, n: Node): (f: int)
    requires t >= 1
    ensures f >= 0
  {
    match n
    case Todo(b, e) => Forks(t, e - b)
    case Forked(_, _, _, child, rest) => ForksLeft(t, child) + ForksLeft(t, rest)
    case Broken(_, _, _, child) => ForksLeft(t, child)
    case _ => 0
  }

  lemma HalfSizes(b: int, mid: int, e: int)
    requires b <= e && IsMiddle(b, mid, e)
    ensures mid - b == Half(e - b)
  {
    HalfIs(e - b);
  }

  /** The forks of a call on [b, e) are its own and those of its halves. */
  lemma HalvesForks(t: int, b: int, mid: int, e: int)
    requires t >= 1 && e - b > t && IsMiddle(b, mid, e)
    ensures Forks(t, e - b) == 1 + Forks(t, mid - b) + Forks(t, e - mid)
  {
    HalfSizes(b, mid, e);
    SplitForks(t, e - b, mid - b, e - mid);
  }

  lemma HalvesDepth(t: int, b: int, mid: int, e: int)
    requires t >= 1 && e - b > t && IsMiddle(b, mid, e)
    ensures Depth(t, e - b) == 1 + Max(Depth(t, mid - b), Depth(t, e - mid))
  {
    HalfSizes(b, mid, e);
    SplitDepth(t, e - b, mid - b, e - mid);
  }

  lemma BeginForks(t: int, b: int, mid: int, e: int)
    requires t >= 1 && e - b > t && IsMiddle(b, mid, e)
    ensures 1 + ForksLeft(t, Forked(b, e, mid, Todo(b, mid), Todo(mid, e))) == ForksLeft(t, Todo(b, e))
  {
    HalvesForks(t, b, mid, e);
    assert ForksLeft(t, Todo(b, mid)) == Forks(t, mid - b);
    assert ForksLeft(t, Todo(mid, e)) == Forks(t, e - mid);
  }

  lemma NoForks(t: int, n: int)
    requires t >= 1 && n <= t
    ensures Forks(t, n) == 0
  {
  }

  lemma OwnForks(t: int, ok: bool, a: seq<int>, n: Node, a': seq<int>, n': Node, forks: int)
    requires t >= 1 && OwnStep(t, ok, a, n, a', n', forks)
    ensures forks + ForksLeft(t, n') <= ForksLeft(t, n)
    ensures !Doomed(n') ==> forks + ForksLeft(t, n') == ForksLeft(t, n)
  {
    if n.Todo? {
      if n'.Forked? {
        MiddleIsHalf(n.b, n'.mid, n.e);
        BeginForks(t, n.b, n'.mid, n.e);
      } else if n'.QSorting? {
        NoForks(t, n.e - n.b);
      }
    }
  }

  /** Each fork is one of those that were left; without a failure none is left out. */
  lemma {:induction false} ForkStep(t: int, ok: bool, a: seq<int>, n: Node, a': seq<int>, n': Node, forks: int)
    requires t >= 1 && Step(t, ok, a, n, a', n', forks)
    ensures forks + ForksLeft(t, n') <= ForksLeft(t, n)
    ensures !Doomed(n') ==> forks + ForksLeft(t, n') == ForksLeft(t, n)
  {
    if OwnStep(t, ok, a, n, a', n', forks) {
      OwnForks(t, ok, a, n, a', n', forks);
    } else if ChildStep(t, ok, a, n, a', n', forks) {
      ForkStep(t, ok, a, n.child, a', n'.child, forks);
    } else {
      ForkStep(t, ok, a, n.rest, a', n'.rest, forks);
    }
  }

  /** How deep processes and calls are nested now. */
  function Height(n: Node): nat {
    match n
    case Forked(_, _, _, child, rest) => 1 + Max(Height(child), Height(rest))
    case Broken(_, _, _, child) => 1 + Height(child)
    case _ => 0
  }

  lemma Higher(t: int, b: int, mid: int, e: int, left: int, right: int)
    requires t >= 1 && e - b > t && IsMiddle(b, mid, e) && left <= Depth(t, mid - b) && right <= Depth(t, e - mid)
    ensures 1 + Max(left, right) <= Depth(t, e - b)
  {
    HalvesDepth(t, b, mid, e);
  }

  lemma {:induction false} HeightBound(t: int, a: seq<int>, n: Node, init: seq<int>)
    requires t >= 1 && Inv(t, a, n, init)
    ensures Height(n) <= Depth(t, n.e - n.b)
  {
    if n.Forked? {
      HeightBound(t, a, n.child, init);
      HeightBound(t, a, n.rest, init);
      Higher(t, n.b, n.mid, n.e, Height(n.child), Height(n.rest));
    } else if n.Broken? {
      HeightBound(t, a, n.child, init);
      Higher(t, n.b, n.child.e, n.e, Height(n.child), 0);
    }
  }

  /** Is `m` a call `d` levels below the call `n`? */
  predicate Below(n: Node, d: nat, m: Node)
    decreases d
  {
    if d == 0 then m == n
    else if n.Forked? then Below(n.child, d - 1, m) || Below(n.rest, d - 1, m)
    else n.Broken? && Below(n.child, d - 1, m)
  }

  lemma HalfSpan(b: int, mid: int, e: int, d: nat)
    requires b <= mid <= e && IsMiddle(b, mid, e)
    ensures LargerHalves(mid - b, d) <= LargerHalves(e - b, d + 1)
    ensures LargerHalves(e - mid, d) <= LargerHalves(e - b, d + 1)
  {
    HalfSizes(b, mid, e);
    HalfIs(e - b);
    LargerHalvesMonotone(mid - b, e - mid, d);
    assert e - mid == e - b - Half(e - b);
  }

  lemma {:induction false} SpanBound(t: int, a: seq<int>, n: Node, init: seq<int>, d: nat, m: Node)
    requires Inv(t, a, n, init) && Below(n, d, m)
    ensures m.e - m.b <= LargerHalves(n.e - n.b, d)
    decreases d
  {
    if d > 0 {
      if n.Forked? && !Below(n.child, d - 1, m) {
        SpanBound(t, a, n.rest, init, d - 1, m);
      } else {
        SpanBound(t, a, n.child, init, d - 1, m);
      }
      HalfSpan(n.b, n.child.e, n.e, d - 1);
    }
  }

  /** Enough for a call on n elements: its own steps, and those of its halves. */
  function CallWork(n: int): (w: int)
    ensures w >= 3
  {
    Square(n);
    10 * (n * n) + 3
  }

  lemma Square(n: int)
    ensures n * n >= 0
  {
  }

  /** The work left in a tree, not counting what goes on inside qsort... */
  function Work(n: Node): int {
    match n
    case Todo(b, e) => CallWork(e - b)
    case QSorting(_, _, _, _) => 2
    case Forked(b, e, _, child, rest) => Work(child) + Work(rest) + 2 * (e - b) + 4
    case Merging(b, e, mid, left, right, _) => mid - left + e - right + e - b + 3
    case Copying(_, e, _, next) => e - next + 2
    case Done(_, _) => 1
    case Ended(_, _, _) => 0
    case Broken(_, _, _, child) => Work(child)
  }

  /** ... and what goes on inside qsort. */
  function Writes(n: Node): int {
    match n
    case QSorting(_, _, _, writes) => writes
    case Forked(_, _, _, child, rest) => Writes(child) + Writes(rest)
    case Broken(_, _, _, child) => Writes(child)
    case _ => 0
  }

  predicate Less(w': int, v': int, w: int, v: int) { 0 <= w' < w || (w' == w && 0 <= v' < v) }

  lemma {:induction false} WorkLeft(t: int, a: seq<int>, n: Node, init: seq<int>)
    requires t >= 1 && Inv(t, a, n, init)
    ensures Work(n) >= 0 && Writes(n) >= 0
    ensures n.Todo? || n.Merging? || n.Copying? || n.Forked? || n.QSorting? ==> Work(n) > 1
  {
    match n
    case Forked(_, _, _, child, rest) =>
      WorkLeft(t, a, child, init);
      WorkLeft(t, a, rest, init);
    case Broken(_, _, _, child) =>
      WorkLeft(t, a, child, init);
    case _ =>
  }

  lemma SplitWork(l: int, r: int)
    requires l >= 1 && r >= 1
    ensures CallWork(l) + CallWork(r) + 2 * (l + r) + 4 < CallWork(l + r)
  {
    assert (l + r) * (l + r) == l * l + r * r + 2 * (l * r);
    assert (l - 1) * (r - 1) == l * r - l - r + 1;
    assert (l - 1) * (r - 1) >= 0;
  }

  lemma BeginFalls(t: int, ok: bool, a: seq<int>, n: Node, n': Node, forks: int)
    requires t >= 1 && n.Todo? && BeginStep(t, ok, a, n, n', forks)
    ensures 0 <= Work(n') < Work(n)
  {
    if n'.Forked? {
      MiddleIsHalf(n.b, n'.mid, n.e);
      SplitWork(n'.mid - n.b, n.e - n'.mid);
    }
  }

  lemma WaitFalls(t: int, ok: bool, a: seq<int>, n: Node, n': Node, init: seq<int>)
    requires t >= 1 && Inv(t, a, n, init) && n.Forked? && WaitStep(ok, n, n')
    ensures 0 <= Work(n') < Work(n)
  {
    WorkLeft(t, a, n.child, init);
  }

  lemma CrashFalls(t: int, a: seq<int>, n: Node, n': Node, init: seq<int>)
    requires t >= 1 && Inv(t, a, n, init) && CrashStep(n, n')
    ensures 0 <= Work(n') < Work(n)
  {
    WorkLeft(t, a, n, init);
    if n.Forked? {
      WorkLeft(t, a, n.child, init);
      WorkLeft(t, a, n.rest, init);
    }
  }

  lemma OwnFalls(t: int, ok: bool, a: seq<int>, n: Node, a': seq<int>, n': Node, forks: int, init: seq<int>)
    requires t >= 1 && Inv(t, a, n, init) && OwnStep(t, ok, a, n, a', n', forks)
    ensures Less(Work(n'), Writes(n'), Work(n), Writes(n))
  {
    if !ok && a' == a && CrashStep(n, n') {
      CrashFalls(t, a, n, n', init);
    } else if n.Todo? {
      BeginFalls(t, ok, a, n, n', forks);
    } else if n.Forked? {
      WaitFalls(t, ok, a, n, n', init);
    }
  }

  /** Every step, of whatever process, leaves less to do: no interleaving goes on for ever. */
  lemma {:induction false} StepFalls(t: int, ok: bool, a: seq<int>, n: Node, a': seq<int>, n': Node,
      forks: int, init: seq<int>)
    requires t >= 1 && Inv(t, a, n, init) && Step(t, ok, a, n, a', n', forks)
    ensures Less(Work(n'), Writes(n'), Work(n), Writes(n))
  {
    if OwnStep(t, ok, a, n, a', n', forks) {
      OwnFalls(t, ok, a, n, a', n', forks, init);
    } else if ChildStep(t, ok, a, n, a', n', forks) {
      StepFalls(t, ok, a, n.child, a', n'.child, forks, init);
      if n.Forked? {
        WorkLeft(t, a, n.rest, init);
      }
    } else {
      StepFalls(t, ok, a, n.rest, a', n'.rest, forks, init);
      WorkLeft(t, a, n.child, init);
    }
  }

  /** The array with the range [b, e) replaced by what qsort makes of `was`. */
  lemma QSorted(a: seq<int>, b: int, e: int, was: seq<int>) returns (a': seq<int>)
    requires 0 <= b <= e <= |a| && |was| == e - b
    ensures SameOutside(a, a', b, e) && a'[b..e] == Sorted(was)
  {
    SortedSorts(was);
    a' := a[..b] + Sorted(was) + a[e..];
  }

  /** A process that waits for nobody can take its next step. */
  lemma OwnProgress(t: int, a: seq<int>, n: Node, init: seq<int>) returns (a': seq<int>, n': Node, forks: int)
    requires t >= 1 && Inv(t, a, n, init) && (n.Todo? || n.QSorting? || n.Merging? || n.Copying?)
    ensures OwnStep(t, true, a, n, a', n', forks) && forks >= 0
  {
    a', n', forks := a, n, 0;
    match n
    case Todo(b, e) =>
      if e - b <= t {
        n' := QSorting(b, e, a[b..e], 0);
      } else {
        var mid := (e + b) / 2;
        n', forks := Forked(b, e, mid, Todo(b, mid), Todo(mid, e)), 1;
      }
    case QSorting(b, e, was, _) =>
      a' := QSorted(a, b, e, was);
      n' := Done(b, e);
    case Merging(b, e, mid, left, right, temp) =>
      if left >= mid && right >= e {
        n' := Copying(b, e, temp, b);
      } else if left >= mid || (right < e && a[left] > a[right]) {
        n' := n.(right := right + 1, temp := temp + [a[right]]);
      } else {
        n' := n.(left := left + 1, temp := temp + [a[left]]);
      }
    case Copying(b, e, temp, next) =>
      if next >= e {
        n' := Done(b, e);
      } else {
        a', n' := a[next := temp[next - b]], n.(next := next + 1);
      }
  }

  /** Nobody waits for ever: unless its process has died or it has finished, a call can go
      on without any further failure. */
  lemma {:induction false} Progress(t: int, a: seq<int>, n: Node, init: seq<int>)
      returns (a': seq<int>, n': Node, forks: int)
    requires t >= 1 && Inv(t, a, n, init) && CodesOk(n) && Death(n) == None && !n.Done?
    ensures Step(t, true, a, n, a', n', forks) && forks >= 0
  {
    a', n', forks := a, n, 0;
    if !n.Forked? {
      a', n', forks := OwnProgress(t, a, n, init);
    } else if !n.rest.Done? {
      var rest;
      a', rest, forks := Progress(t, a, n.rest, init);
      n' := n.(rest := rest);
    } else if n.child.Done? {
      n' := Merging(n.b, n.e, n.mid, n.b, n.mid, []);
    } else if Death(n.child).Some? {
      DeathCode(n.child);
      n' := Broken(n.b, n.e, Code(if Death(n.child).value.Crashed? then 10 else 11), n.child);
    } else {
      var child;
      a', child, forks := Progress(t, a, n.child, init);
      n' := Forked(n.b, n.e, n.mid, child, n.rest);
    }
  }

  /** The shared array, the root's call, and the number of processes created so far. */
  datatype State = State(a: seq<int>, root: Node, forks: int)

  ghost predicate Leads(t: int, ok: bool, s: State, s': State) {
    s.forks <= s'.forks && Step(t, ok, s.a, s.root, s'.a, s'.root, s'.forks - s.forks)
  }

  ghost predicate Continues(t: int, ok: bool, run: seq<State>, i: nat) {
    i + 1 < |run| ==> Leads(t, ok, run[i], run[i + 1])
  }

  /** A run of the program on `init`: the processes take steps in any order. */
  ghost predicate Run(t: int, ok: bool, init: seq<int>, run: seq<State>) {
    && run != [] && run[0] == State(init, Todo(0, |init|), 0)
    && forall i: nat :: Continues(t, ok, run, i)
  }

  ghost predicate TreeOk(t: int, init: seq<int>, s: State) {
    Inv(t, s.a, s.root, init) && CodesOk(s.root) && s.root.b == 0 && s.root.e == |init| == |s.a|
  }

  /** The forks made and the forks left are all the forks of the sort, or fewer after a failure. */
  ghost predicate ForksOk(t: int, all: int, s: State)
    requires t >= 1
  {
    s.forks + ForksLeft(t, s.root) <= all && (!Doomed(s.root) ==> s.forks + ForksLeft(t, s.root) == all)
  }

  lemma TreeKept(t: int, ok: bool, init: seq<int>, s: State, s': State)
    requires t >= 1 && TreeOk(t, init, s) && Leads(t, ok, s, s')
    ensures TreeOk(t, init, s')
  {
    PartsKept(t, ok, init, s.a, s.root, s'.a, s'.root, s'.forks - s.forks);
  }

  lemma PartsKept(t: int, ok: bool, init: seq<int>, a: seq<int>, n: Node, a': seq<int>, n': Node, forks: int)
    requires t >= 1 && Inv(t, a, n, init) && CodesOk(n) && Step(t, ok, a, n, a', n', forks)
    ensures Inv(t, a', n', init) && CodesOk(n') && n'.b == n.b && n'.e == n.e && |a'| == |a|
  {
    InvStep(t, ok, a, n, a', n', forks, init);
    CodesStay(t, ok, a, n, a', n', forks);
    StepWrites(t, ok, a, n, a', n', forks, init);
  }

  lemma ForksKept(t: int, ok: bool, all: int, s: State, s': State)
    requires t >= 1 && ForksOk(t, all, s) && Leads(t, ok, s, s')
    ensures ForksOk(t, all, s')
  {
    ForkStep(t, ok, s.a, s.root, s'.a, s'.root, s'.forks - s.forks);
    if Doomed(s.root) {
      DoomedStays(t, ok, s.a, s.root, s'.a, s'.root, s'.forks - s.forks);
    }
  }

  lemma {:induction false} ReachableTree(t: int, ok: bool, init: seq<int>, run: seq<State>, i: nat)
    requires t >= 1 && Run(t, ok, init, run) && i < |run|
    ensures TreeOk(t, init, run[i])
  {
    if i > 0 {
      ReachableTree(t, ok, init, run, i - 1);
      assert Continues(t, ok, run, i - 1);
      TreeKept(t, ok, init, run[i - 1], run[i]);
    }
  }

  lemma {:induction false} ReachableForks(t: int, ok: bool, init: seq<int>, run: seq<State>, i: nat)
    requires t >= 1 && Run(t, ok, init, run) && i < |run|
    ensures ForksOk(t, Forks(t, |init|), run[i])
  {
    if i > 0 {
      ReachableForks(t, ok, init, run, i - 1);
      assert Continues(t, ok, run, i - 1);
      ForksKept(t, ok, Forks(t, |init|), run[i - 1], run[i]);
    }
  }

  lemma DoneIsSorted(t: int, init: seq<int>, s: State)
    requires TreeOk(t, init, s) && s.root.Done?
    ensures s.a == Sorted(init) && IsSorted(s.a) && multiset(s.a) == multiset(init)
  {
    assert s.a[0..|s.a|] == s.a && init[0..|init|] == init;
    SortedSorts(init);
  }

  lemma DoneHasForked(t: int, all: int, s: State)
    requires t >= 1 && ForksOk(t, all, s) && s.root.Done?
    ensures s.forks == all
  {
  }

  /** If the root's merge_sort returns, so that the program exits with 0, the array holds its
      elements in order, exactly what sorting sequentially gives, and as many processes were
      forked as the sizes of the array and the threshold determine. */
  lemma SuccessSorts(t: int, ok: bool, init: seq<int>, run: seq<State>, i: nat)
    requires t >= 1 && Run(t, ok, init, run) && i < |run| && run[i].root.Done?
    ensures run[i].a == Sorted(init)
    ensures IsSorted(run[i].a) && multiset(run[i].a) == multiset(init)
    ensures run[i].forks == Forks(t, |init|)
  {
    ReachableTree(t, ok, init, run, i);
    DoneIsSorted(t, init, run[i]);
    ReachableForks(t, ok, init, run, i);
    DoneHasForked(t, Forks(t, |init|), run[i]);
  }

  lemma LeadsDoomed(t: int, ok: bool, s: State, s': State)
    requires Leads(t, ok, s, s') && Doomed(s.root)
    ensures Doomed(s'.root) && !s'.root.Done?
  {
    DoomedStays(t, ok, s.a, s.root, s'.a, s'.root, s'.forks - s.forks);
  }

  /** Once an awaited process has failed, the root never returns: whenever the root's process
      ends, it ends by a crash or with one of the codes 8 to 11. */
  lemma {:induction false} FailureIsReported(t: int, ok: bool, init: seq<int>, run: seq<State>, i: nat, j: nat)
    requires t >= 1 && Run(t, ok, init, run) && i <= j < |run| && Doomed(run[i].root)
    ensures Doomed(run[j].root) && !run[j].root.Done?
    ensures Death(run[j].root).Some? ==> FailureCode(Death(run[j].root).value)
    decreases j
  {
    ReachableTree(t, ok, init, run, j);
    if Death(run[j].root).Some? {
      DeathCode(run[j].root);
    }
    if i < j {
      FailureIsReported(t, ok, init, run, i, j - 1);
      assert Continues(t, ok, run, j - 1);
      LeadsDoomed(t, ok, run[j - 1], run[j]);
    }
  }

  /** A run without failures can only stop with the root's call done. */
  lemma CleanRunFinishes(t: int, init: seq<int>, run: seq<State>, i: nat)
    requires t >= 1 && Run(t, true, init, run) && i < |run|
    ensures run[i].root.Done?
            || exists next: State :: Leads(t, true, run[i], next)
  {
    CleanRun(t, init, run, i);
    ReachableTree(t, true, init, run, i);
    if !run[i].root.Done? {
      if Death(run[i].root).Some? {
        DeathDooms(run[i].root);
      }
      LiveGoesOn(t, init, run[i]);
    }
  }

  lemma {:induction false} CleanRun(t: int, init: seq<int>, run: seq<State>, i: nat)
    requires t >= 1 && Run(t, true, init, run) && i < |run|
    ensures !Doomed(run[i].root)
  {
    if i > 0 {
      CleanRun(t, init, run, i - 1);
      assert Continues(t, true, run, i - 1);
      NoOtherDoom(t, run[i - 1].a, run[i - 1].root, run[i].a, run[i].root, run[i].forks - run[i - 1].forks);
    }
  }

  lemma ForksWithin(t: int, all: int, s: State, bound: int)
    requires t >= 1 && ForksOk(t, all, s) && all <= bound
    ensures s.forks <= bound
  {
  }

  /** In every run and at any time, the processes created and the depth of their tree stay
      within the bounds that the array's size and the threshold give. */
  lemma TreeBounds(t: int, ok: bool, init: seq<int>, run: seq<State>, i: nat, d: nat)
    requires t >= 1 && Run(t, ok, init, run) && i < |run| && |init| > t
    requires CeilingHalves(|init|, d) <= t
    ensures run[i].forks <= |init| / ((t + 1) / 2) - 1
    ensures Height(run[i].root) <= d
  {
    ForksBounded(t, ok, init, run, i);
    HeightBounded(t, ok, init, run, i, d);
  }

  lemma ForksBounded(t: int, ok: bool, init: seq<int>, run: seq<State>, i: nat)
    requires t >= 1 && Run(t, ok, init, run) && i < |run| && |init| > t
    ensures run[i].forks <= |init| / ((t + 1) / 2) - 1
  {
    ReachableForks(t, ok, init, run, i);
    ForkBound(t, |init|);
    ForksWithin(t, Forks(t, |init|), run[i], |init| / ((t + 1) / 2) - 1);
  }

  lemma HeightBounded(t: int, ok: bool, init: seq<int>, run: seq<State>, i: nat, d: nat)
    requires t >= 1 && Run(t, ok, init, run) && i < |run| && CeilingHalves(|init|, d) <= t
    ensures Height(run[i].root) <= d
  {
    ReachableTree(t, ok, init, run, i);
    HeightBound(t, run[i].a, run[i].root, init);
    DepthBound(t, |init|, d);
  }

  /** In every run and at any time a call d levels down spans at most ceiling(n / 2^d) of the
      array's n elements. */
  lemma RangesShrink(t: int, ok: bool, init: seq<int>, run: seq<State>, i: nat, d: nat, m: Node)
    requires t >= 1 && Run(t, ok, init, run) && i < |run| && Below(run[i].root, d, m)
    ensures m.e - m.b <= CeilingHalves(|init|, d)
  {
    ReachableTree(t, ok, init, run, i);
    SpanBound(t, run[i].a, run[i].root, init, d, m);
    LargerHalvesIs(|init|, d);
  }

  lemma LiveGoesOn(t: int, init: seq<int>, s: State)
    requires t >= 1 && TreeOk(t, init, s) && Death(s.root) == None && !s.root.Done?
    ensures exists next: State :: Leads(t, true, s, next)
  {
    var a, root, forks := Progress(t, s.a, s.root, init);
    assert Leads(t, true, s, State(a, root, s.forks + forks));
  }

  /** How every run ends, whatever has failed on the way: when nothing can go on any more, the
      root's call is done, or its process has died with a failure code or by a crash; and the
      latter if any awaited process failed. */
  lemma EveryRunEnds(t: int, ok: bool, init: seq<int>, run: seq<State>, i: nat)
    requires t >= 1 && Run(t, ok, init, run) && i < |run|
    requires forall next: State :: !Leads(t, true, run[i], next)
    ensures run[i].root.Done? || (Death(run[i].root).Some? && FailureCode(Death(run[i].root).value))
    ensures Doomed(run[i].root) <==> Death(run[i].root).Some?
  {
    ReachableTree(t, ok, init, run, i);
    if Death(run[i].root).Some? {
      DeathCode(run[i].root);
      DeathDooms(run[i].root);
    } else if !run[i].root.Done? {
      LiveGoesOn(t, init, run[i]);
    }
  }
}
