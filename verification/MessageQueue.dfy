/** The message queue under any number of concurrent producers and consumers: a deque
    guarded by a mutex and a semaphore counting the messages on offer. One step is one
    lock or unlock, one deque operation or one semaphore operation of one thread. */
module MessageQueue {

  import opened Options

  /** Where a thread is inside `enqueue` or `dequeue`. */
  datatype Pc<M> =
    | Outside
    | EnqLock(m: M) | EnqPush(m: M) | EnqUnlock | EnqPost
    | DeqWait | DeqLock | DeqPop | DeqUnlock(m: M)

  /** `pushed` and `popped` record the whole history of the deque. */
  datatype State<M> = State(deque: seq<M>, avail: nat, lock: Option<nat>, pcs: map<nat, Pc<M>>,
                            pushed: seq<M>, popped: seq<M>)

  function PcOf<M>(s: State<M>, t: nat): Pc<M> {
    if t in s.pcs then s.pcs[t] else Outside
  }

  function GoTo<M>(s: State<M>, t: nat, pc: Pc<M>): State<M> {
    s.(pcs := s.pcs[t := pc])
  }

  /** The queue starts empty with the semaphore at 0. */
  ghost predicate Init<M>(s: State<M>) {
    s == State([], 0, None, map[], [], [])
  }

  /** The steps thread `t` can take. A timed wait may give up at any time; it succeeds
      only when the semaphore is positive. */
  ghost predicate Step<M(!new)>(s: State<M>, t: nat, s': State<M>) {
    match PcOf(s, t)
    case Outside => (exists m :: s' == GoTo(s, t, EnqLock(m))) || s' == GoTo(s, t, DeqWait)
    case EnqLock(m) => s.lock == None && s' == GoTo(s, t, EnqPush(m)).(lock := Some(t))
    case EnqPush(m) => s' == GoTo(s, t, EnqUnlock).(deque := s.deque + [m], pushed := s.pushed + [m])
    case EnqUnlock => s' == GoTo(s, t, EnqPost).(lock := None)
    case EnqPost => s' == GoTo(s, t, Outside).(avail := s.avail + 1)
    case DeqWait =>
      || s' == GoTo(s, t, Outside)
      || (s.avail > 0 && s' == GoTo(s, t, DeqLock).(avail := s.avail - 1))
    case DeqLock => s.lock == None && s' == GoTo(s, t, DeqPop).(lock := Some(t))
    case DeqPop =>
      && s.deque != []
      && s' == GoTo(s, t, DeqUnlock(s.deque[0])).(deque := s.deque[1..], popped := s.popped + [s.deque[0]])
    case DeqUnlock(m) => s' == GoTo(s, t, Outside).(lock := None)
  }

  ghost predicate SomeStep<M(!new)>(s: State<M>, s': State<M>) {
    exists t: nat :: Step(s, t, s')
  }

  /** A run: threads taking steps in any order, from the empty queue. */
  ghost predicate Execution<M(!new)>(run: seq<State<M>>) {
    && run != [] && Init(run[0])
    && forall i :: 0 <= i < |run| - 1 ==> SomeStep(run[i], run[i + 1])
  }

  /** Between push and sem_post. */
  predicate AtPost<M>(pc: Pc<M>) { pc.EnqUnlock? || pc.EnqPost? }

  /** Between a successful wait and the pop. */
  predicate AtClaim<M>(pc: Pc<M>) { pc.DeqLock? || pc.DeqPop? }

  predicate InLock<M>(pc: Pc<M>) { pc.EnqPush? || pc.EnqUnlock? || pc.DeqPop? || pc.DeqUnlock? }

  function Posting<M>(pcs: map<nat, Pc<M>>): set<nat> { set t | t in pcs && AtPost(pcs[t]) }

  function Claiming<M>(pcs: map<nat, Pc<M>>): set<nat> { set t | t in pcs && AtClaim(pcs[t]) }

  ghost predicate Counted<M>(s: State<M>) {
    |s.deque| == s.avail + |Posting(s.pcs)| + |Claiming(s.pcs)|
  }

  ghost predicate LockHeld<M>(s: State<M>) {
    forall t: nat :: s.lock == Some(t) <==> InLock(PcOf(s, t))
  }

  ghost predicate Inv<M>(s: State<M>) {
    Counted(s) && LockHeld(s) && s.pushed == s.popped + s.deque
  }

  lemma Resize(a: set<nat>, b: set<nat>, t: nat)
    requires a - {t} == b - {t}
    ensures |a| + (if t in b then 1 else 0) == |b| + (if t in a then 1 else 0)
  {
    assert a == (a - {t}) + if t in a then {t} else {};
    assert b == (b - {t}) + if t in b then {t} else {};
  }

  /** How the two counts react to one thread moving. */
  lemma Recount<M>(s: State<M>, t: nat, pc: Pc<M>)
    ensures |Posting(s.pcs[t := pc])| + (if AtPost(PcOf(s, t)) then 1 else 0)
            == |Posting(s.pcs)| + (if AtPost(pc) then 1 else 0)
    ensures |Claiming(s.pcs[t := pc])| + (if AtClaim(PcOf(s, t)) then 1 else 0)
            == |Claiming(s.pcs)| + (if AtClaim(pc) then 1 else 0)
  {
    Resize(Posting(s.pcs[t := pc]), Posting(s.pcs), t);
    Resize(Claiming(s.pcs[t := pc]), Claiming(s.pcs), t);
  }

  lemma StepKeepsCount<M(!new)>(s: State<M>, t: nat, s': State<M>)
    requires Counted(s) && Step(s, t, s')
    ensures Counted(s')
  {
    Recount(s, t, PcOf(s', t));
  }

  lemma StepKeepsLock<M(!new)>(s: State<M>, t: nat, s': State<M>)
    requires LockHeld(s) && Step(s, t, s')
    ensures LockHeld(s')
  {
    forall u: nat ensures s'.lock == Some(u) <==> InLock(PcOf(s', u)) {
      assert s.lock == Some(u) <==> InLock(PcOf(s, u));
      assert s.lock == Some(t) <==> InLock(PcOf(s, t));
    }
  }

  lemma {:induction false} ExecutionKeepsInv<M(!new)>(run: seq<State<M>>, i: nat)
    requires Execution(run) && i < |run|
    ensures Inv(run[i])
  {
    if i > 0 {
      ExecutionKeepsInv(run, i - 1);
      assert SomeStep(run[i - 1], run[i - 1 + 1]);
      var t: nat :| Step(run[i - 1], t, run[i]);
      StepKeepsCount(run[i - 1], t, run[i]);
      StepKeepsLock(run[i - 1], t, run[i]);
    }
  }

  /** Semaphore accounting: in every state of every run the deque holds exactly the
      messages on offer, those pushed but not yet posted and those claimed but not yet popped. */
  lemma SemaphoreAccounting<M(!new)>(run: seq<State<M>>, i: nat)
    requires Execution(run) && i < |run|
    ensures |run[i].deque| == run[i].avail + |Posting(run[i].pcs)| + |Claiming(run[i].pcs)|
  {
    ExecutionKeepsInv(run, i);
  }

  /** Hence front and pop_front never meet an empty deque. */
  lemma PopNeverEmpty<M(!new)>(run: seq<State<M>>, i: nat, t: nat)
    requires Execution(run) && i < |run| && PcOf(run[i], t).DeqPop?
    ensures run[i].deque != []
  {
    ExecutionKeepsInv(run, i);
    assert t in Claiming(run[i].pcs);
  }

  /** No message is lost, duplicated or reordered: what was pushed is what was popped,
      in that order, followed by what is still queued. */
  lemma NoLossNoReordering<M(!new)>(run: seq<State<M>>, i: nat)
    requires Execution(run) && i < |run|
    ensures run[i].pushed == run[i].popped + run[i].deque
  {
    ExecutionKeepsInv(run, i);
  }

  /** At most one thread is ever inside the mutex. */
  lemma MutualExclusion<M(!new)>(run: seq<State<M>>, i: nat, t: nat, u: nat)
    requires Execution(run) && i < |run| && InLock(PcOf(run[i], t)) && InLock(PcOf(run[i], u))
    ensures t == u
  {
    ExecutionKeepsInv(run, i);
    assert run[i].lock == Some(t) && run[i].lock == Some(u);
  }

  /** A consumer can be served: with a message on offer and the mutex free, its wait can
      succeed and four steps of its own take the oldest message. */
  lemma CanDequeue<M(!new)>(run: seq<State<M>>, i: nat, t: nat)
    requires Execution(run) && i < |run| && PcOf(run[i], t).DeqWait? && run[i].avail > 0 && run[i].lock == None
    ensures var s := run[i];
            s.deque != []
            && exists a, b, c, d :: && Step(s, t, a) && Step(a, t, b) && Step(b, t, c) && Step(c, t, d)
                                    && PcOf(d, t).Outside? && d.lock == None && d.avail == s.avail - 1
                                    && d.deque == s.deque[1..] && d.popped == s.popped + [s.deque[0]]
  {
    SemaphoreAccounting(run, i);
    var s := run[i];
    var a := GoTo(s, t, DeqLock).(avail := s.avail - 1);
    var b := GoTo(a, t, DeqPop).(lock := Some(t));
    var c := GoTo(b, t, DeqUnlock(s.deque[0])).(deque := s.deque[1..], popped := s.popped + [s.deque[0]]);
    var d := GoTo(c, t, Outside).(lock := None);
    assert Step(s, t, a) && Step(a, t, b) && Step(b, t, c) && Step(c, t, d);
  }

  /** A producer can be served: with the mutex free, five steps of its own queue its message
      and put it on offer. */
  lemma CanEnqueue<M(!new)>(s: State<M>, t: nat, m: M)
    requires PcOf(s, t).Outside? && s.lock == None
    ensures exists a, b, c, d, e :: && Step(s, t, a) && Step(a, t, b) && Step(b, t, c) && Step(c, t, d) && Step(d, t, e)
                                    && PcOf(e, t).Outside? && e.lock == None && e.avail == s.avail + 1
                                    && e.deque == s.deque + [m] && e.pushed == s.pushed + [m]
  {
    var a := GoTo(s, t, EnqLock(m));
    var b := GoTo(a, t, EnqPush(m)).(lock := Some(t));
    var c := GoTo(b, t, EnqUnlock).(deque := s.deque + [m], pushed := s.pushed + [m]);
    var d := GoTo(c, t, EnqPost).(lock := None);
    var e := GoTo(d, t, Outside).(avail := s.avail + 1);
    assert Step(s, t, a) && Step(a, t, b) && Step(b, t, c) && Step(c, t, d) && Step(d, t, e);
  }
}
