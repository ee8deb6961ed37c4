/** What the server can do for its clients: that a wait can succeed, that a queue can be
    emptied, that every request can be answered and that what one client says another one
    can hear. The theorems of the other modules say what runs cannot do; these say what
    some run does. */
module ChatService {
  import opened Options
  import opened ChatModel
  import opened ChatEffects
  import opened ChatLocks
  import opened ChatInvariant
  import opened ChatTheorems
  import opened ChatProgress
  import opened ChatRequests
  import opened ChatUndisturbed

  ghost predicate Leads(run: seq<State>, s: State, t: Id, s': State) {
    run != [] && run[0] == s && run[|run| - 1] == s' && Alone(run, t, 0, |run| - 1)
  }

  /** Thread `t` on its own can come from `s` to `s'`. */
  ghost predicate CanGo(s: State, t: Id, s': State) {
    exists run: seq<State> :: Leads(run, s, t, s')
  }

  lemma CanStay(s: State, t: Id)
    ensures CanGo(s, t, s)
  {
    assert Leads([s], s, t, s);
  }

  lemma StepFirst(s: State, t: Id, m: State, s': State)
    requires Step(s, t, m) && CanGo(m, t, s')
    ensures CanGo(s, t, s')
  {
    var run: seq<State> :| Leads(run, m, t, s');
    var longer := [s] + run;
    forall k: nat | k < |longer| - 1 ensures StepAt(longer, t, k) {
      if k > 0 {
        assert StepAt(run, t, k - 1);
      }
    }
    assert Leads(longer, s, t, s');
  }

  lemma OneStep(s: State, t: Id, s': State)
    requires Step(s, t, s')
    ensures CanGo(s, t, s')
  {
    CanStay(s', t);
    StepFirst(s, t, s', s');
  }

  lemma GoFirst(s: State, t: Id, m: State, s': State)
    requires CanGo(s, t, m) && CanGo(m, t, s')
    ensures CanGo(s, t, s')
  {
    var run: seq<State> :| Leads(run, s, t, m);
    RunFirst(run, s, t, m, s');
  }

  lemma {:induction false} RunFirst(run: seq<State>, s: State, t: Id, m: State, s': State)
    requires Leads(run, s, t, m) && CanGo(m, t, s')
    ensures CanGo(s, t, s')
    decreases |run|
  {
    if |run| > 1 {
      assert StepAt(run, t, 0);
      var rest := run[1..];
      forall k: nat | k < |rest| - 1 ensures StepAt(rest, t, k) {
        assert StepAt(run, t, k + 1);
      }
      RunFirst(rest, run[1], t, m, s');
      StepFirst(s, t, run[1], s');
    }
  }

  /** A wait on a queue that has a message on offer can succeed. */
  lemma WaitCanSucceed(s: State, t: Id)
    requires PcAt(s, t).Wait? && UserAt(s, t).avail > 0
    ensures exists s' :: && Step(s, t, s') && PcAt(s', t) == PopLock(PcAt(s, t).room)
                         && UserAt(s', t) == UserAt(s, t).(avail := UserAt(s, t).avail - 1)
  {
    var user := UserAt(s, t);
    var s' := Go(PutUser(s, t, user.(avail := user.avail - 1)), t, PopLock(PcAt(s, t).room));
    assert Step(s, t, s');
  }

  /** Thread `t` listens for room `r` on an open connection; nobody uses its queue. */
  ghost predicate Listening(s: State, t: Id, r: Id) {
    PcAt(s, t) == Listen(r) && ThreadAt(s, t).open && UserAt(s, t).qlock == None
  }

  lemma TakeFirst(s: State, t: Id, r: Id) returns (m: State)
    requires Listening(s, t, r) && UserAt(s, t).avail > 0
    ensures CanGo(s, t, m) && PcAt(m, t) == PopLock(r)
    ensures UserAt(m, t) == UserAt(s, t).(avail := UserAt(s, t).avail - 1)
  {
    var waiting := Go(s, t, Wait(r));
    assert Step(s, t, waiting);
    WaitCanSucceed(waiting, t);
    m :| && Step(waiting, t, m) && PcAt(m, t) == PopLock(r)
         && UserAt(m, t) == UserAt(waiting, t).(avail := UserAt(waiting, t).avail - 1);
    OneStep(waiting, t, m);
    StepFirst(s, t, waiting, m);
  }

  lemma LockFirst(s: State, t: Id, r: Id) returns (m: State)
    requires PcAt(s, t) == PopLock(r) && UserAt(s, t).qlock == None
    ensures Step(s, t, m) && PcAt(m, t) == Pop(r) && UserAt(m, t) == UserAt(s, t).(qlock := Some(t))
  {
    m := Go(PutUser(s, t, UserAt(s, t).(qlock := Some(t))), t, Pop(r));
  }

  lemma PopFirst(s: State, t: Id, r: Id) returns (m: State)
    requires PcAt(s, t) == Pop(r) && UserAt(s, t).deque != []
    ensures Step(s, t, m) && PcAt(m, t) == PopUnlock(r, UserAt(s, t).deque[0])
    ensures UserAt(m, t) == UserAt(s, t).(deque := UserAt(s, t).deque[1..])
  {
    var user := UserAt(s, t);
    m := Go(PutUser(s, t, user.(deque := user.deque[1..])), t, PopUnlock(r, user.deque[0]));
  }

  lemma UnlockFirst(s: State, t: Id) returns (m: State)
    requires PcAt(s, t).PopUnlock?
    ensures Step(s, t, m) && PcAt(m, t) == Deliver(PcAt(s, t).room, PcAt(s, t).msg)
    ensures UserAt(m, t) == UserAt(s, t).(qlock := None)
  {
    m := Go(PutUser(s, t, UserAt(s, t).(qlock := None)), t, Deliver(PcAt(s, t).room, PcAt(s, t).msg));
  }

  lemma GetFirst(s: State, t: Id, r: Id) returns (m: State)
    requires PcAt(s, t) == PopLock(r) && UserAt(s, t).qlock == None && UserAt(s, t).deque != []
    ensures CanGo(s, t, m) && PcAt(m, t) == Deliver(r, UserAt(s, t).deque[0])
    ensures UserAt(m, t) == UserAt(s, t).(deque := UserAt(s, t).deque[1..])
  {
    var locked := LockFirst(s, t, r);
    var popped := PopFirst(locked, t, r);
    m := UnlockFirst(popped, t);
    OneStep(popped, t, m);
    StepFirst(locked, t, popped, m);
    StepFirst(s, t, locked, m);
  }

  /** A message in hand can be sent .. */
  lemma SendFirst(s: State, t: Id) returns (m: State)
    requires PcAt(s, t).Deliver?
    ensures Step(s, t, m) && PcAt(m, t) == Listen(PcAt(s, t).room) && ThreadAt(m, t).open
    ensures UserAt(m, t) == UserAt(s, t).(sent := UserAt(s, t).sent + [PcAt(s, t).msg])
  {
    var pc, user := PcAt(s, t), UserAt(s, t);
    m := GoOpen(PutUser(s, t, user.(sent := user.sent + [pc.msg])), t, Listen(pc.room), true);
  }

  /** .. and sending it can fail. */
  lemma LoseFirst(s: State, t: Id) returns (m: State)
    requires PcAt(s, t).Deliver?
    ensures Step(s, t, m) && PcAt(m, t) == RemLock(PcAt(s, t).room) && !ThreadAt(m, t).open
    ensures UserAt(m, t) == UserAt(s, t).(lost := [PcAt(s, t).msg])
  {
    var pc, user := PcAt(s, t), UserAt(s, t);
    m := GoOpen(PutUser(s, t, user.(lost := [pc.msg])), t, RemLock(pc.room), false);
  }

  /** The first queued message reaches the client. */
  lemma DrainOne(s: State, t: Id, r: Id) returns (m: State)
    requires Listening(s, t, r) && UserAt(s, t).avail > 0 && UserAt(s, t).deque != []
    ensures CanGo(s, t, m) && Listening(m, t, r)
    ensures var user := UserAt(s, t);
            UserAt(m, t)
            == user.(deque := user.deque[1..], avail := user.avail - 1, sent := user.sent + [user.deque[0]])
  {
    var user := UserAt(s, t);
    var taken := TakeFirst(s, t, r);
    var popped := GetFirst(taken, t, r);
    m := SendFirst(popped, t);
    OneStep(popped, t, m);
    GoFirst(taken, t, popped, m);
    GoFirst(s, t, taken, m);
  }

  /** A listening receiver can be sent every message its queue has on offer, in order, by
      steps of its own thread alone; with all of them announced that empties the queue. */
  lemma {:induction false} CanDrain(s: State, t: Id, r: Id) returns (s': State)
    requires Listening(s, t, r) && UserAt(s, t).avail <= |UserAt(s, t).deque|
    ensures CanGo(s, t, s') && Listening(s', t, r)
    ensures var user, user' := UserAt(s, t), UserAt(s', t);
            && user'.sent == user.sent + user.deque[..user.avail] && user'.deque == user.deque[user.avail..]
            && user'.avail == 0
    decreases UserAt(s, t).avail
  {
    var user := UserAt(s, t);
    if user.avail == 0 {
      s' := s;
      CanStay(s, t);
    } else {
      var m := DrainOne(s, t, r);
      s' := CanDrain(m, t, r);
      GoFirst(s, t, m, s');
      assert user.deque[..user.avail] == [user.deque[0]] + user.deque[1..][..user.avail - 1];
    }
  }

  /** A listening receiver whose messages are all announced can be sent everything that is
      queued for it, and its queue is empty then. */
  lemma QueueCanBeEmptied(s: State, t: Id, r: Id)
    requires Listening(s, t, r) && UserAt(s, t).avail == |UserAt(s, t).deque|
    ensures exists s' :: && CanGo(s, t, s') && Listening(s', t, r)
                         && UserAt(s', t).sent == UserAt(s, t).sent + UserAt(s, t).deque
                         && UserAt(s', t).deque == [] && UserAt(s', t).avail == 0
  {
    var s' := CanDrain(s, t, r);
    var deque := UserAt(s, t).deque;
    assert deque[..|deque|] == deque && deque[|deque|..] == [];
  }

  /** No thread but `t` holds a lock. */
  ghost predicate Clear(s: State, t: Id) {
    forall x: Id :: x != t ==> Work(PcAt(s, x)) == 0
  }

  ghost predicate AllClear(s: State) {
    forall x: Id :: Work(PcAt(s, x)) == 0
  }

  /** What stays for everybody else while thread `t` goes from `s` to `s'`. */
  predicate Aside(s: State, s': State, x: Id) {
    && ThreadAt(s', x) == ThreadAt(s, x)
    && UserAt(s', x).sent == UserAt(s, x).sent && UserAt(s', x).roomName == UserAt(s, x).roomName
  }

  ghost predicate OthersAside(s: State, t: Id, s': State) {
    forall x: Id :: x != t ==> Aside(s, s', x)
  }

  /** Rooms and names known in `s` are as they were. */
  ghost predicate RoomsStay(s: State, s': State) {
    && s.nextRoom <= s'.nextRoom
    && (forall n :: n in s.registry ==> n in s'.registry && s'.registry[n] == s.registry[n])
    && (forall r: Id :: 0 <= r < s.nextRoom ==> RoomAt(s', r).name == RoomAt(s, r).name)
  }

  /** Thread `t` has gone from `s` to `s'` with no other thread holding a lock. */
  ghost predicate Went(s: State, t: Id, s': State) {
    CanGo(s, t, s') && Inv(s') && Clear(s', t) && OthersAside(s, t, s') && RoomsStay(s, s')
  }

  lemma WentStep(s: State, t: Id, s': State)
    requires Inv(s) && Clear(s, t) && Step(s, t, s')
    ensures Went(s, t, s')
  {
    OneStep(s, t, s');
    InvKept(s, t, s');
    RegistryKept(s, t, s');
    forall x: Id | x != t ensures Aside(s, s', x) && Work(PcAt(s', x)) == 0 {
      OthersStay(s, t, s', x);
      StepUser(s, t, s', x);
      assert Work(PcAt(s, x)) == 0;
    }
  }

  lemma WentOn(s: State, t: Id, m: State, s': State)
    requires Went(s, t, m) && Went(m, t, s')
    ensures Went(s, t, s')
  {
    GoFirst(s, t, m, s');
    forall x: Id | x != t ensures Aside(s, s', x) {
      assert Aside(s, m, x) && Aside(m, s', x);
    }
  }

  /** With the locks to itself a thread waits for nothing. */
  lemma NotWaiting(s: State, t: Id)
    requires Inv(s) && Clear(s, t)
    ensures !Waits(s, t)
  {
    if Waits(s, t) {
      NoDeadlock(s, t);
      assert false;
    }
  }

  lemma NextStep(s: State, t: Id) returns (m: State)
    requires Inv(s) && Clear(s, t) && !PcAt(s, t).Gone?
    ensures Step(s, t, m) && Went(s, t, m)
  {
    NotWaiting(s, t);
    OnlyLocksStop(s, t);
    m :| Step(s, t, m);
    WentStep(s, t, m);
  }

  predicate InCasting(pc: Pc) { pc.Casting? || pc.Enq? || pc.CastUnlock? }

  /** What user `x` still gets from a broadcast that is at `pc`, and has got in `s'`. */
  predicate Gets(pc: Pc, user: User, user': User, x: Id) {
    && user'.deque == user.deque + Due(pc, x)
    && user'.avail == user.avail + |Due(pc, x)| + PostDue(pc, x)
  }

  /** The values behind one step of a broadcast. */
  lemma GetsMove(t: Id, pc: Pc, pc': Pc, user: User, user': User, x: Id)
    requires pc.Casting? || (pc.Enq? && pc.to !in pc.todo)
    requires UserEffect(t, pc, pc', x, user, user')
    requires pc.Casting? ==> (pc' == CastUnlock(pc.room) && pc.todo == {})
                             || (pc'.Enq? && pc'.to in pc.todo
                                 && pc' == Enq(pc.room, pc.msg, pc.todo - {pc'.to}, pc'.to, NeedLock))
    requires pc.Enq? ==> pc' == if pc.stage.Post? then Casting(pc.room, pc.msg, pc.todo)
                                else pc.(stage := AfterStage(pc.stage))
    ensures user'.deque + Due(pc', x) == user.deque + Due(pc, x)
    ensures user'.avail + |Due(pc', x)| + PostDue(pc', x) == user.avail + |Due(pc, x)| + PostDue(pc, x)
  {
  }

  lemma GetsStep(s: State, t: Id, m: State, x: Id)
    requires Step(s, t, m) && CastAt(s, t) && (PcAt(s, t).Casting? || PcAt(s, t).Enq?)
    ensures InCasting(PcAt(m, t))
    ensures UserAt(m, x).deque + Due(PcAt(m, t), x) == UserAt(s, x).deque + Due(PcAt(s, t), x)
    ensures UserAt(m, x).avail + |Due(PcAt(m, t), x)| + PostDue(PcAt(m, t), x)
            == UserAt(s, x).avail + |Due(PcAt(s, t), x)| + PostDue(PcAt(s, t), x)
  {
    StepUser(s, t, m, x);
    if PcAt(s, t).Casting? {
      CastStepGoes(s, t, m);
    } else {
      ChatUndisturbed.EnqStep(s, t, m, x);
    }
    GetsMove(t, PcAt(s, t), PcAt(m, t), UserAt(s, x), UserAt(m, x), x);
  }

  /** A broadcast on its way can be brought to its end: everyone it still owes the message
      gets it once. */
  lemma {:induction false} CanFinishCast(s: State, t: Id) returns (s': State)
    requires Inv(s) && Clear(s, t) && InCasting(PcAt(s, t))
    ensures Went(s, t, s') && PcAt(s', t) == Reply(true, false)
    ensures forall x: Id :: Gets(PcAt(s, t), UserAt(s, x), UserAt(s', x), x)
    decreases Work(PcAt(s, t))
  {
    var m := NextStep(s, t);
    if PcAt(s, t).CastUnlock? {
      s' := m;
      CastStepGoes(s, t, m);
      forall x: Id ensures Gets(PcAt(s, t), UserAt(s, x), UserAt(s', x), x) {
        StepUser(s, t, m, x);
      }
    } else {
      WorkFalls(s, t, m);
      assert CastAt(s, t);
      GetsStep(s, t, m, t);
      s' := CanFinishCast(m, t);
      WentOn(s, t, m, s');
      forall x: Id ensures Gets(PcAt(s, t), UserAt(s, x), UserAt(s', x), x) {
        GetsStep(s, t, m, x);
        assert Gets(PcAt(m, t), UserAt(m, x), UserAt(s', x), x);
      }
    }
  }

  /** Every queue, every room's members, the name of thread `t` and what it sent are as they were. */
  ghost predicate Quietly(s: State, t: Id, s': State) {
    && (forall x: Id :: Grown(s, s', x, []))
    && (forall r: Id :: 0 <= r < s.nextRoom ==> RoomAt(s', r).members == RoomAt(s, r).members)
    && s.nextRoom <= s'.nextRoom
    && ThreadAt(s', t).username == ThreadAt(s, t).username && ThreadAt(s', t).sender == ThreadAt(s, t).sender
    && UserAt(s', t).sent == UserAt(s, t).sent
  }

  lemma QuietlyOn(s: State, t: Id, m: State, s': State)
    requires Quietly(s, t, m) && Quietly(m, t, s')
    ensures Quietly(s, t, s')
  {
    forall x: Id ensures Grown(s, s', x, []) {
      assert Grown(s, m, x, []) && Grown(m, s', x, []);
    }
  }

  predicate Searching(pc: Pc) { pc.FindLock? || pc.Finding? || pc.FindUnlock? || pc.CastLock? || pc.Reply? }

  lemma QuietQueue(s: State, t: Id, m: State, x: Id)
    requires Step(s, t, m) && Searching(PcAt(s, t)) && !PcAt(m, t).PopLock?
    ensures Grown(s, m, x, []) && UserAt(m, x).sent == UserAt(s, x).sent
  {
    StepUser(s, t, m, x);
  }

  lemma QuietRoom(s: State, t: Id, m: State, r: Id)
    requires Step(s, t, m) && Searching(PcAt(s, t)) && 0 <= r < s.nextRoom
    ensures RoomAt(m, r).members == RoomAt(s, r).members
  {
    StepRoom(s, t, m, r);
  }

  lemma QuietStep(s: State, t: Id, m: State)
    requires Step(s, t, m) && Searching(PcAt(s, t))
    ensures Quietly(s, t, m) && AskSees(s, t, m)
  {
    AskStep(s, t, m);
    StepServer(s, t, m);
    QuietQueue(s, t, m, t);
    forall x: Id ensures Grown(s, m, x, []) {
      QuietQueue(s, t, m, x);
    }
    forall r: Id | 0 <= r < s.nextRoom ensures RoomAt(m, r).members == RoomAt(s, r).members {
      QuietRoom(s, t, m, r);
    }
  }

  lemma QuietHandle(s: State, t: Id, q: Request)
    requires PcAt(s, t).Ready?
    ensures Quietly(s, t, Handle(s, t, q))
  {
    forall x: Id ensures Grown(s, Handle(s, t, q), x, []) {
    }
  }

  /** A search that has begun can find its room. */
  lemma CanFind(s: State, t: Id) returns (m: State)
    requires Inv(s) && Clear(s, t) && PcAt(s, t).FindLock?
    ensures Went(s, t, m) && Quietly(s, t, m) && UserAt(m, t).roomName == UserAt(s, t).roomName
    ensures var pc, pc' := PcAt(s, t), PcAt(m, t);
            pc'.FindUnlock? && pc'.name == pc.name && pc'.why == pc.why && Registered(m.registry, pc.name, pc'.room)
  {
    var inside := NextStep(s, t);
    QuietStep(s, t, inside);
    m := NextStep(inside, t);
    QuietStep(inside, t, m);
    WentOn(s, t, inside, m);
    QuietlyOn(s, t, inside, m);
    FoundIsRegistered(inside, t, m);
  }

  /** A thread that looks for a room can take the step after the search. */
  lemma CanLook(s: State, t: Id) returns (m: State)
    requires Inv(s) && Clear(s, t) && PcAt(s, t).FindLock?
    ensures Went(s, t, m) && Quietly(s, t, m)
    ensures var name := PcAt(s, t).name;
            && name in m.registry
            && match PcAt(s, t).why
               case JoinAsSender => PcAt(m, t) == Reply(true, false) && UserAt(m, t).roomName == name
               case SendAll(text) => PcAt(m, t) == CastLock(m.registry[name], text)
               case JoinAsReceiver => PcAt(m, t) == AddLock(m.registry[name])
  {
    var found := CanFind(s, t);
    m := NextStep(found, t);
    QuietStep(found, t, m);
    WentOn(s, t, found, m);
    QuietlyOn(s, t, found, m);
    RegistryKept(found, t, m);
  }

  /** A sender's text can be brought to every member of the room it goes to. */
  lemma CanCast(s: State, t: Id) returns (s': State)
    requires Inv(s) && Clear(s, t) && PcAt(s, t).CastLock?
    ensures Went(s, t, s') && PcAt(s', t) == Reply(true, false)
    ensures var pc := PcAt(s, t);
            var room := RoomAt(s, pc.room);
            var entry := room.name + ":" + ThreadAt(s, t).username + ":" + pc.text;
            forall x: Id :: Grown(s, s', x, if x in room.members then [entry] else [])
  {
    var m := NextStep(s, t);
    QuietStep(s, t, m);
    CastStepGoes(s, t, m);
    s' := CanFinishCast(m, t);
    WentOn(s, t, m, s');
    forall x: Id
      ensures Grown(s, s', x, if x in RoomAt(s, PcAt(s, t).room).members then [PcAt(m, t).msg] else [])
    {
      assert Grown(s, m, x, []);
      assert Gets(PcAt(m, t), UserAt(m, x), UserAt(s', x), x);
    }
  }

  /** The message a sender's text becomes. */
  function Entry(s: State, t: Id, text: string): string {
    UserAt(s, t).roomName + ":" + ThreadAt(s, t).username + ":" + text
  }

  lemma CanAsk(s: State, t: Id, q: Request)
    requires Inv(s) && Clear(s, t) && PcAt(s, t).Ready? && ThreadAt(s, t).sender
    ensures Step(s, t, Handle(s, t, q)) && Went(s, t, Handle(s, t, q)) && Quietly(s, t, Handle(s, t, q))
  {
    assert Step(s, t, Handle(s, t, q));
    WentStep(s, t, Handle(s, t, q));
    QuietHandle(s, t, q);
  }

  lemma SearchCanBeAnswered(s: State, t: Id)
    requires Inv(s) && Clear(s, t) && PcAt(s, t).FindLock? && !PcAt(s, t).why.JoinAsReceiver?
    ensures exists s' :: CanGo(s, t, s') && PcAt(s', t) == Reply(true, false)
  {
    var m := CanLook(s, t);
    if PcAt(m, t).CastLock? {
      var said := CanCast(m, t);
      GoFirst(s, t, m, said);
    }
  }

  /** A sender can ask for anything, and while no other thread holds a lock its own thread
      can bring every request to its answer; ChatRequests says which answer that is. */
  lemma EveryRequestCanBeAnswered(s: State, t: Id, q: Request)
    requires Inv(s) && Clear(s, t) && PcAt(s, t).Ready? && ThreadAt(s, t).sender
    ensures Step(s, t, Handle(s, t, q))
    ensures exists s' :: CanGo(Handle(s, t, q), t, s') && PcAt(s', t).Reply? && PcAt(s', t).last == q.Quit?
  {
    CanAsk(s, t, q);
    if PcAt(Handle(s, t, q), t).FindLock? {
      SearchCanBeAnswered(Handle(s, t, q), t);
    } else {
      CanStay(Handle(s, t, q), t);
    }
  }

  lemma ReadyAgain(s: State, t: Id) returns (m: State)
    requires PcAt(s, t).Reply? && !PcAt(s, t).last
    ensures Step(s, t, m) && PcAt(m, t).Ready? && UserAt(m, t) == UserAt(s, t)
    ensures ThreadAt(m, t).sender == ThreadAt(s, t).sender && ThreadAt(m, t).username == ThreadAt(s, t).username
    ensures m.registry == s.registry
  {
    m := Go(s, t, Ready);
  }

  /** After any request but quitting, granted or refused, the sender can ask again. */
  lemma CanAskAgain(s: State, t: Id, q: Request)
    requires Inv(s) && Clear(s, t) && PcAt(s, t).Ready? && ThreadAt(s, t).sender && !q.Quit?
    ensures exists s' :: CanGo(Handle(s, t, q), t, s') && PcAt(s', t).Ready?
  {
    EveryRequestCanBeAnswered(s, t, q);
    var answered :| CanGo(Handle(s, t, q), t, answered) && PcAt(answered, t).Reply? && !PcAt(answered, t).last;
    var m := ReadyAgain(answered, t);
    OneStep(answered, t, m);
    GoFirst(Handle(s, t, q), t, answered, m);
  }

  lemma CanReachRoom(s: State, t: Id, text: string) returns (m: State)
    requires Inv(s) && Clear(s, t) && PcAt(s, t).Ready? && ThreadAt(s, t).sender
    requires UserAt(s, t).roomName != "" && UserAt(s, t).roomName in s.registry
    ensures Went(s, t, m) && Quietly(s, t, m)
    ensures var r := s.registry[UserAt(s, t).roomName];
            0 <= r < s.nextRoom && PcAt(m, t) == CastLock(r, text) && RoomAt(m, r).name == UserAt(s, t).roomName
  {
    var asked := Handle(s, t, Say(text));
    CanAsk(s, t, Say(text));
    m := CanLook(asked, t);
    QuietlyOn(s, t, asked, m);
    WentOn(s, t, asked, m);
  }

  /** What a sender says can be queued for every member of its room. */
  lemma CanSay(s: State, t: Id, text: string) returns (s': State)
    requires Inv(s) && Clear(s, t) && PcAt(s, t).Ready? && ThreadAt(s, t).sender
    requires UserAt(s, t).roomName != "" && UserAt(s, t).roomName in s.registry
    ensures Went(s, t, s') && PcAt(s', t) == Reply(true, false)
    ensures var members := RoomAt(s, s.registry[UserAt(s, t).roomName]).members;
            forall x: Id :: Grown(s, s', x, if x in members then [Entry(s, t, text)] else [])
  {
    var m := CanReachRoom(s, t, text);
    s' := CanCast(m, t);
    WentOn(s, t, m, s');
    var r := s.registry[UserAt(s, t).roomName];
    forall x: Id ensures Grown(s, s', x, if x in RoomAt(s, r).members then [Entry(s, t, text)] else []) {
      assert Grown(s, m, x, []);
    }
  }

  /** From saying to hearing: while nobody holds a lock, a sender's text can be brought by
      the sender's own thread to the queue of a listening member of its room, and from there
      by the member's thread to its client, after everything queued before it. */
  lemma SaidCanBeHeard(s: State, a: Id, b: Id, text: string)
    requires Inv(s) && AllClear(s) && a != b
    requires PcAt(s, a).Ready? && ThreadAt(s, a).sender && UserAt(s, a).roomName != ""
    requires UserAt(s, a).roomName in s.registry
    requires PcAt(s, b) == Listen(s.registry[UserAt(s, a).roomName]) && ThreadAt(s, b).open
    ensures exists m, s' ::
              && CanGo(s, a, m) && PcAt(m, a) == Reply(true, false)
              && CanGo(m, b, s') && PcAt(s', b) == PcAt(s, b) && UserAt(s', b).deque == []
              && UserAt(s', b).sent == UserAt(s, b).sent + UserAt(s, b).deque + [Entry(s, a, text)]
  {
    var r := s.registry[UserAt(s, a).roomName];
    ListeningMember(s, b, r);
    var m := CanSay(s, a, text);
    assert Grown(s, m, b, [Entry(s, a, text)]);
    assert Aside(s, m, b);
    QueueFree(m, b);
    QueueCanBeEmptied(m, b, r);
  }

  /** With no lock held a listening receiver is a member and all its messages are announced. */
  lemma ListeningMember(s: State, t: Id, r: Id)
    requires Inv(s) && AllClear(s) && PcAt(s, t) == Listen(r)
    ensures 0 <= r < s.nextRoom && t in RoomAt(s, r).members && UserAt(s, t).avail == |UserAt(s, t).deque|
  {
    assert UserOk(s, t) && PointerOk(s, t);
    assert t in RoomAt(s, r).members <==> Subscribed(UserAt(s, t), r);
    if RoomAt(s, r).lock.Some? {
      assert Work(PcAt(s, RoomAt(s, r).lock.value)) == 0;
    }
  }

  lemma QueueFree(s: State, t: Id)
    requires Inv(s) && AllClear(s)
    ensures UserAt(s, t).qlock == None
  {
    var lock := UserAt(s, t).qlock;
    forall x: Id ensures lock != Some(x) {
      assert Work(PcAt(s, x)) == 0;
      assert lock == Some(x) <==> HoldsQueue(PcAt(s, x), x, t);
    }
  }

  /** What a thread that adds itself to a room keeps of its user. */
  lemma JoinStep(s: State, t: Id, m: State)
    requires Step(s, t, m) && Joining(PcAt(s, t))
    ensures PcAt(m, t) == MemberGoes(PcAt(s, t)) && Grown(s, m, t, []) && UserAt(m, t).sent == UserAt(s, t).sent
    ensures ThreadAt(m, t).sender == ThreadAt(s, t).sender
  {
    MemberStepGoes(s, t, m);
    StepUser(s, t, m, t);
  }

  lemma CanBeAdded(s: State, t: Id) returns (m: State)
    requires Inv(s) && Clear(s, t) && PcAt(s, t).AddLock?
    ensures Went(s, t, m) && PcAt(m, t) == Greet(PcAt(s, t).room)
    ensures Grown(s, m, t, []) && UserAt(m, t).sent == UserAt(s, t).sent
  {
    var inside := NextStep(s, t);
    JoinStep(s, t, inside);
    var added := NextStep(inside, t);
    JoinStep(inside, t, added);
    m := NextStep(added, t);
    JoinStep(added, t, m);
    WentOn(s, t, inside, added);
    WentOn(s, t, added, m);
  }

  /** The answer to a receiver's join can reach its client, or find the connection closed. */
  lemma GreetingEitherWay(s: State, t: Id, open: bool) returns (m: State)
    requires PcAt(s, t).Greet?
    ensures Step(s, t, m) && PcAt(m, t) == Listen(PcAt(s, t).room) && ThreadAt(m, t).open == open
    ensures UserAt(m, t) == UserAt(s, t)
  {
    m := GoOpen(s, t, Listen(PcAt(s, t).room), open);
  }

  lemma NothingBeforeJoining(s: State, t: Id)
    requires Inv(s) && PcAt(s, t).Ready?
    ensures UserAt(s, t).sent == [] && UserAt(s, t).deque == []
  {
    assert UserOk(s, t);
  }

  lemma CanAskToListen(s: State, t: Id, name: string) returns (m: State)
    requires Inv(s) && Clear(s, t) && PcAt(s, t).Ready? && !ThreadAt(s, t).sender
    ensures Went(s, t, m) && name in m.registry && PcAt(m, t) == AddLock(m.registry[name])
    ensures Grown(s, m, t, []) && UserAt(m, t).sent == UserAt(s, t).sent
  {
    var asked := Go(s, t, FindLock(name, JoinAsReceiver));
    assert Step(s, t, asked);
    WentStep(s, t, asked);
    m := CanLook(asked, t);
    assert Grown(asked, m, t, []);
    WentOn(s, t, asked, m);
  }

  lemma CanBeGreeted(s: State, t: Id) returns (m: State)
    requires Inv(s) && Clear(s, t) && PcAt(s, t).Greet?
    ensures Went(s, t, m) && PcAt(m, t) == Listen(PcAt(s, t).room) && ThreadAt(m, t).open
    ensures UserAt(m, t) == UserAt(s, t)
  {
    m := GreetingEitherWay(s, t, true);
    WentStep(s, t, m);
  }

  /** A receiver can join any room by name and come to listen for its messages. */
  lemma CanJoinAsReceiver(s: State, t: Id, name: string) returns (s': State)
    requires Inv(s) && Clear(s, t) && PcAt(s, t).Ready? && !ThreadAt(s, t).sender
    ensures Went(s, t, s') && name in s'.registry && PcAt(s', t) == Listen(s'.registry[name])
    ensures ThreadAt(s', t).open && UserAt(s', t).sent == [] && UserAt(s', t).deque == []
  {
    NothingBeforeJoining(s, t);
    var m := CanAskToListen(s, t, name);
    var added := CanBeAdded(m, t);
    WentOn(s, t, m, added);
    s' := CanBeGreeted(added, t);
    WentOn(s, t, added, s');
  }

  /** A sender can join any room by name and wait for its client again. */
  lemma CanJoinAsSender(s: State, t: Id, name: string) returns (s': State)
    requires Inv(s) && Clear(s, t) && PcAt(s, t).Ready? && ThreadAt(s, t).sender
    ensures Went(s, t, s') && name in s'.registry && PcAt(s', t).Ready? && ThreadAt(s', t).sender
    ensures UserAt(s', t).roomName == name && ThreadAt(s', t).username == ThreadAt(s, t).username
  {
    CanAsk(s, t, Join(name));
    var m := CanLook(Handle(s, t, Join(name)), t);
    WentOn(s, t, Handle(s, t, Join(name)), m);
    s' := ReadyAgain(m, t);
    WentStep(m, t, s');
    WentOn(s, t, m, s');
  }

  lemma LeaveStep(s: State, t: Id, m: State)
    requires Step(s, t, m) && (PcAt(s, t).RemLock? || PcAt(s, t).Removing? || PcAt(s, t).RemUnlock?)
    ensures PcAt(m, t) == MemberGoes(PcAt(s, t)) && UserAt(m, t).lost == UserAt(s, t).lost
  {
    MemberStepGoes(s, t, m);
    StepUser(s, t, m, t);
  }

  lemma CanLeave(s: State, t: Id) returns (s': State)
    requires Inv(s) && Clear(s, t) && PcAt(s, t).RemLock?
    ensures Went(s, t, s') && PcAt(s', t).Gone? && UserAt(s', t).lost == UserAt(s, t).lost
  {
    var inside := NextStep(s, t);
    LeaveStep(s, t, inside);
    var removed := NextStep(inside, t);
    LeaveStep(inside, t, removed);
    s' := NextStep(removed, t);
    LeaveStep(removed, t, s');
    WentOn(s, t, inside, removed);
    WentOn(s, t, removed, s');
  }

  lemma GoneIsNoMember(s: State, t: Id)
    requires Inv(s) && PcAt(s, t).Gone?
    ensures forall r: Id :: 0 <= r < s.nextRoom ==> t !in RoomAt(s, r).members
  {
    assert UserOk(s, t);
    forall r: Id | 0 <= r < s.nextRoom ensures t !in RoomAt(s, r).members {
      assert t in RoomAt(s, r).members <==> Subscribed(UserAt(s, t), r);
    }
  }

  /** A failed send can end its receiver's stay: the thread leaves the room it was in, and
      the one message in hand is lost. */
  lemma FailedSendCanLeave(s: State, t: Id)
    requires Inv(s) && Clear(s, t) && PcAt(s, t).Deliver?
    ensures exists s' :: && CanGo(s, t, s') && PcAt(s', t).Gone? && UserAt(s', t).lost == [PcAt(s, t).msg]
                         && forall r: Id :: 0 <= r < s'.nextRoom ==> t !in RoomAt(s', r).members
  {
    var m := LoseFirst(s, t);
    WentStep(s, t, m);
    var s' := CanLeave(m, t);
    WentOn(s, t, m, s');
    GoneIsNoMember(s', t);
  }

  /** A client can connect at any time, as either kind and under any name. */
  lemma CanConnect(s: State, t: Id, sender: bool, username: string) returns (s': State)
    requires Inv(s) && Clear(s, t) && PcAt(s, t).Unborn?
    ensures Went(s, t, s') && PcAt(s', t).Ready?
    ensures ThreadAt(s', t).sender == sender && ThreadAt(s', t).username == username
  {
    s' := s.(threads := s.threads[t := Thread(sender, username, true, Ready)]);
    assert Connect(s, t, s');
    assert Step(s, t, s');
    WentStep(s, t, s');
  }

  /** The run can go on to `s'`. */
  ghost predicate CanEndAt(run: seq<State>, s': State) {
    exists more: seq<State> :: Execution(more) && run <= more && more[|more| - 1] == s'
  }

  lemma GoesOn(run: seq<State>, s: State, t: Id, s': State)
    requires CanEndAt(run, s) && CanGo(s, t, s')
    ensures CanEndAt(run, s')
  {
    var begun: seq<State> :| Execution(begun) && run <= begun && begun[|begun| - 1] == s;
    var tail: seq<State> :| Leads(tail, s, t, s');
    var more := begun + tail[1..];
    forall i: nat ensures Continues(more, i) {
      if i + 1 < |begun| {
        assert Continues(begun, i);
      } else if i + 1 < |more| {
        assert StepAt(tail, t, i + 1 - |begun|);
      }
    }
    assert Execution(more);
  }

  lemma CanConnectAndJoin(s: State, t: Id, username: string, name: string) returns (s': State)
    requires Inv(s) && AllClear(s) && PcAt(s, t).Unborn?
    ensures Went(s, t, s') && name in s'.registry && PcAt(s', t).Ready? && ThreadAt(s', t).sender
    ensures UserAt(s', t).roomName == name && ThreadAt(s', t).username == username
  {
    var m := CanConnect(s, t, true, username);
    s' := CanJoinAsSender(m, t, name);
    WentOn(s, t, m, s');
  }

  lemma CanConnectAndListen(s: State, t: Id, username: string, name: string) returns (s': State)
    requires Inv(s) && AllClear(s) && PcAt(s, t).Unborn?
    ensures Went(s, t, s') && name in s'.registry && PcAt(s', t) == Listen(s'.registry[name])
    ensures ThreadAt(s', t).open && UserAt(s', t).sent == [] && UserAt(s', t).deque == []
  {
    var m := CanConnect(s, t, false, username);
    s' := CanJoinAsReceiver(m, t, name);
    WentOn(s, t, m, s');
  }

  lemma StillClear(s: State, t: Id)
    requires Clear(s, t) && Work(PcAt(s, t)) == 0
    ensures AllClear(s)
  {
    forall x: Id ensures Work(PcAt(s, x)) == 0 {
      if x != t {
        assert Work(PcAt(s, x)) == 0;
      }
    }
  }

  /** The server serves: from every reachable state with no lock held, two new clients can
      join any room by name, one say any text and the other be sent exactly that message. */
  lemma ConversationIsPossible(run: seq<State>, a: Id, b: Id, alice: string, bob: string, name: string, text: string)
    requires Execution(run) && AllClear(run[|run| - 1]) && a != b && name != ""
    requires PcAt(run[|run| - 1], a).Unborn? && PcAt(run[|run| - 1], b).Unborn?
    ensures exists s' :: CanEndAt(run, s') && UserAt(s', b).sent == [name + ":" + alice + ":" + text]
  {
    var s := run[|run| - 1];
    ReachableOk(run, |run| - 1);
    var joined := CanConnectAndJoin(s, a, alice, name);
    StillClear(joined, a);
    assert Aside(s, joined, b);
    var both := CanConnectAndListen(joined, b, bob, name);
    StillClear(both, b);
    assert Aside(joined, both, a);
    SaidCanBeHeard(both, a, b, text);
    var said, s' :| && CanGo(both, a, said) && CanGo(said, b, s')
                    && UserAt(s', b).sent == UserAt(both, b).sent + UserAt(both, b).deque + [Entry(both, a, text)];
    assert CanEndAt(run, s);
    GoesOn(run, s, a, joined);
    GoesOn(run, joined, b, both);
    GoesOn(run, both, a, said);
    GoesOn(run, said, b, s');
  }
}