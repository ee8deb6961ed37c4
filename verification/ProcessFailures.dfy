/** Which failure ends a process with which code, and that every one of them can happen. */
module ProcessFailures {
  import opened Options
  import opened ProcessTree
  import opened ProcessRuns

  /** The frame in which the process of a call is, or has died. */
  function Active(n: Node): Node {
    if n.Forked? && !n.rest.Done? then Active(n.rest) else n
  }

  /** The reason for the end of a process, in the frame it died in: 8 for a fork that failed
      on a range above the threshold, 9 for a failed waitpid, 10 over a child that crashed,
      11 over a child that exited with a code other than 0. */
  predicate Cause(t: int, frame: Node, how: Ending) {
    match how
    case Crashed => frame.Ended? || frame.Broken?
    case Code(c) =>
      || (c == 8 && frame.Ended? && frame.e - frame.b > t)
      || (c == 9 && frame.Broken?)
      || (c == 10 && frame.Broken? && Death(frame.child) == Some(Crashed))
      || (c == 11 && frame.Broken? && Death(frame.child).Some?
          && Death(frame.child).value.Code? && Death(frame.child).value.code != 0)
  }

  predicate CausesOk(t: int, n: Node) {
    match n
    case Ended(_, _, how) => Cause(t, n, how)
    case Broken(_, _, how, child) => Cause(t, n, how) && CausesOk(t, child)
    case Forked(_, _, _, child, rest) => CausesOk(t, child) && CausesOk(t, rest)
    case _ => true
  }

  /** A process dies once. */
  lemma {:induction false} DeathStays(t: int, ok: bool, a: seq<int>, n: Node, a': seq<int>, n': Node, forks: int)
    requires Step(t, ok, a, n, a', n', forks) && Death(n).Some?
    ensures Death(n') == Death(n)
  {
    if OwnStep(t, ok, a, n, a', n', forks) {
    } else if ChildStep(t, ok, a, n, a', n', forks) {
    } else {
      DeathStays(t, ok, a, n.rest, a', n'.rest, forks);
    }
  }

  lemma OwnCauses(t: int, ok: bool, a: seq<int>, n: Node, a': seq<int>, n': Node, forks: int)
    requires OwnStep(t, ok, a, n, a', n', forks) && CausesOk(t, n)
    ensures CausesOk(t, n')
  {
  }

  lemma {:induction false} CausesStay(t: int, ok: bool, a: seq<int>, n: Node, a': seq<int>, n': Node, forks: int)
    requires Step(t, ok, a, n, a', n', forks) && CausesOk(t, n)
    ensures CausesOk(t, n')
  {
    if OwnStep(t, ok, a, n, a', n', forks) {
      OwnCauses(t, ok, a, n, a', n', forks);
    } else if ChildStep(t, ok, a, n, a', n', forks) {
      CausesStay(t, ok, a, n.child, a', n'.child, forks);
      if n.Broken? && Death(n.child).Some? {
        DeathStays(t, ok, a, n.child, a', n'.child, forks);
      }
    } else {
      CausesStay(t, ok, a, n.rest, a', n'.rest, forks);
    }
  }

  lemma {:induction false} DeathHasCause(t: int, n: Node)
    requires CausesOk(t, n) && Death(n).Some?
    ensures Cause(t, Active(n), Death(n).value)
  {
    if n.Forked? {
      DeathHasCause(t, n.rest);
    }
  }

  lemma {:induction false} CausesReachable(t: int, ok: bool, init: seq<int>, run: seq<State>, i: nat)
    requires Run(t, ok, init, run) && i < |run|
    ensures CausesOk(t, run[i].root)
  {
    if i > 0 {
      CausesReachable(t, ok, init, run, i - 1);
      assert Continues(t, ok, run, i - 1);
      var s, s' := run[i - 1], run[i];
      CausesStay(t, ok, s.a, s.root, s'.a, s'.root, s'.forks - s.forks);
    }
  }

  /** The exit code of the program tells what went wrong in the frame where it ended. */
  lemma ExitCodeHasCause(t: int, ok: bool, init: seq<int>, run: seq<State>, i: nat)
    requires Run(t, ok, init, run) && i < |run| && Death(run[i].root).Some?
    ensures Cause(t, Active(run[i].root), Death(run[i].root).value)
  {
    CausesReachable(t, ok, init, run, i);
    DeathHasCause(t, run[i].root);
  }

  /** What a process did in the step it died in: only a failing call or a crash, which `ok`
      excludes, ends it otherwise than over its child. */
  predicate Blow(t: int, ok: bool, frame: Node, how: Ending) {
    match how
    case Crashed => !ok
    case Code(c) =>
      || (c == 8 && !ok && frame.Todo? && frame.e - frame.b > t)
      || (c == 9 && !ok && frame.Forked? && frame.rest.Done?)
      || (c == 10 && frame.Forked? && frame.rest.Done? && Death(frame.child) == Some(Crashed))
      || (c == 11 && frame.Forked? && frame.rest.Done? && Death(frame.child).Some?
          && Death(frame.child).value.Code? && Death(frame.child).value.code != 0)
  }

  lemma OwnBlow(t: int, ok: bool, a: seq<int>, n: Node, a': seq<int>, n': Node, forks: int)
    requires OwnStep(t, ok, a, n, a', n', forks) && Death(n) == None && Death(n').Some?
    ensures Active(n) == n && Blow(t, ok, n, Death(n').value)
  {
  }

  /** A process dies in its active frame, with the code of the failure that happened there. */
  lemma {:induction false} DeathBlow(t: int, ok: bool, a: seq<int>, n: Node, a': seq<int>, n': Node, forks: int)
    requires Step(t, ok, a, n, a', n', forks) && Death(n) == None && Death(n').Some?
    ensures Blow(t, ok, Active(n), Death(n').value)
  {
    if OwnStep(t, ok, a, n, a', n', forks) {
      OwnBlow(t, ok, a, n, a', n', forks);
    } else if ChildStep(t, ok, a, n, a', n', forks) {
    } else {
      DeathBlow(t, ok, a, n.rest, a', n'.rest, forks);
      DoneIsQuiet(t, ok, a, n.rest, a', n'.rest, forks);
    }
  }

  lemma DoneIsQuiet(t: int, ok: bool, a: seq<int>, n: Node, a': seq<int>, n': Node, forks: int)
    requires Step(t, ok, a, n, a', n', forks)
    ensures !n.Done?
  {
  }

  /** The tree with `m` in place of its active frame. */
  function WithActive(n: Node, m: Node): Node {
    if n.Forked? && !n.rest.Done? then n.(rest := WithActive(n.rest, m)) else m
  }

  lemma {:induction false} ActiveStep(t: int, a: seq<int>, n: Node, m: Node)
    requires Death(n) == None && OwnStep(t, false, a, Active(n), a, m, 0) && !m.Done? && Death(m).Some?
    ensures Step(t, false, a, n, a, WithActive(n, m), 0) && Death(WithActive(n, m)) == Death(m)
  {
    if n.Forked? && !n.rest.Done? {
      ActiveStep(t, a, n.rest, m);
    }
  }

  lemma {:induction false} ActiveLives(n: Node)
    requires Death(n) == None && !n.Done?
    ensures Death(Active(n)) == None && !Active(n).Done? && (Active(n).Forked? ==> Active(n).rest.Done?)
  {
    if n.Forked? && !n.rest.Done? {
      ActiveLives(n.rest);
    }
  }

  /** Every failure can happen: a process that lives may crash at any time, a fork may fail
      wherever one is due, and so may a waitpid. */
  lemma EveryFailureIsPossible(t: int, a: seq<int>, n: Node)
    requires Death(n) == None && !n.Done?
    ensures exists n' :: Step(t, false, a, n, a, n', 0) && Death(n') == Some(Crashed)
    ensures Active(n).Todo? && Active(n).e - Active(n).b > t ==>
              exists n' :: Step(t, false, a, n, a, n', 0) && Death(n') == Some(Code(8))
    ensures Active(n).Forked? ==> exists n' :: Step(t, false, a, n, a, n', 0) && Death(n') == Some(Code(9))
  {
    var f := Active(n);
    ActiveLives(n);
    ActiveStep(t, a, n, if f.Forked? then Broken(f.b, f.e, Crashed, f.child) else Ended(f.b, f.e, Crashed));
    if f.Todo? && f.e - f.b > t {
      ActiveStep(t, a, n, Ended(f.b, f.e, Code(8)));
    }
    if f.Forked? {
      ActiveStep(t, a, n, Broken(f.b, f.e, Code(9), f.child));
    }
  }
}
