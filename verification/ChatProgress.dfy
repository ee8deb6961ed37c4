/** No deadlock: a thread is stopped only by a lock, whoever holds that lock can go on or
    waits for a queue whose holder can go on, and every holder lets go after finitely many
    steps of its own. */
module ChatProgress {
  import opened Options
  import opened ChatModel
  import opened ChatEffects
  import opened ChatLocks
  import opened ChatInvariant

  ghost predicate CanStep(s: State, t: Id) { exists s' :: Step(s, t, s') }

  predicate WaitsForServer(s: State, t: Id) { PcAt(s, t).FindLock? && s.serverLock != None }

  predicate WaitsForRoom(s: State, t: Id) {
    var pc := PcAt(s, t);
    (pc.CastLock? || pc.AddLock? || pc.RemLock?) && RoomAt(s, pc.room).lock != None
  }

  /** The user whose queue thread `t` is about to lock. */
  function QueueWanted(pc: Pc, t: Id): Option<Id> {
    match pc
    case Enq(_, _, _, to, NeedLock) => Some(to)
    case PopLock(_) => Some(t)
    case _ => None
  }

  predicate WaitsForQueue(s: State, t: Id) {
    var wanted := QueueWanted(PcAt(s, t), t);
    wanted.Some? && UserAt(s, wanted.value).qlock != None
  }

  predicate Waits(s: State, t: Id) { WaitsForServer(s, t) || WaitsForRoom(s, t) || WaitsForQueue(s, t) }

  lemma FindCanStep(s: State, t: Id)
    requires PcAt(s, t).FindLock? || PcAt(s, t).Finding? || PcAt(s, t).FindUnlock?
    requires !WaitsForServer(s, t)
    ensures CanStep(s, t)
  {
    match PcAt(s, t)
    case FindLock(name, why) =>
      assert Step(s, t, Go(s, t, Finding(name, why)).(serverLock := Some(t)));
    case Finding(name, why) =>
      if name in s.registry {
        assert Step(s, t, Go(s, t, FindUnlock(name, why, s.registry[name])));
      } else {
        assert Step(s, t, Go(PutRoom(s, s.nextRoom, Room(name, None, {}, [])), t, FindUnlock(name, why, s.nextRoom))
                          .(registry := s.registry[name := s.nextRoom], nextRoom := s.nextRoom + 1));
      }
    case FindUnlock(name, why, room) =>
      var went := match why
        case JoinAsSender => Go(Named(s, t, name), t, Reply(true, false))
        case SendAll(text) => Go(s, t, CastLock(room, text))
        case JoinAsReceiver => Go(s, t, AddLock(room));
      assert Step(s, t, went.(serverLock := None));
  }

  lemma SomeMember<T>(todo: set<T>) returns (u: T)
    requires todo != {}
    ensures u in todo
  {
    u :| u in todo;
  }

  lemma CastCanStep(s: State, t: Id)
    requires PcAt(s, t).CastLock? || PcAt(s, t).Casting? || PcAt(s, t).CastUnlock?
    requires !WaitsForRoom(s, t)
    ensures CanStep(s, t)
  {
    match PcAt(s, t)
    case CastLock(r, text) =>
      var room := RoomAt(s, r);
      var msg := DeliveryText(room, ThreadAt(s, t).username, text);
      var logged := PutRoom(s, r, room.(lock := Some(t), log := room.log + [msg]));
      assert Step(s, t, Go(logged, t, Casting(r, msg, room.members)));
    case Casting(r, msg, todo) =>
      if todo == {} {
        assert Step(s, t, Go(s, t, CastUnlock(r)));
      } else {
        var u := SomeMember(todo);
        assert Step(s, t, Go(s, t, Enq(r, msg, todo - {u}, u, NeedLock)));
      }
    case CastUnlock(r) =>
      assert Step(s, t, Go(PutRoom(s, r, RoomAt(s, r).(lock := None)), t, Reply(true, false)));
  }

  lemma EnqCanStep(s: State, t: Id)
    requires PcAt(s, t).Enq? && !WaitsForQueue(s, t)
    ensures CanStep(s, t)
  {
    var Enq(r, msg, todo, u, stage) := PcAt(s, t);
    var user := UserAt(s, u);
    match stage
    case NeedLock => assert Step(s, t, Go(PutUser(s, u, user.(qlock := Some(t))), t, Enq(r, msg, todo, u, Push)));
    case Push =>
      var pushed := PutUser(s, u, user.(deque := user.deque + [msg]));
      assert Step(s, t, Go(pushed, t, Enq(r, msg, todo, u, Unlock)));
    case Unlock => assert Step(s, t, Go(PutUser(s, u, user.(qlock := None)), t, Enq(r, msg, todo, u, Post)));
    case Post => assert Step(s, t, Go(PutUser(s, u, user.(avail := user.avail + 1)), t, Casting(r, msg, todo)));
  }

  predicate InMemberCode(pc: Pc) {
    pc.AddLock? || pc.Adding? || pc.AddUnlock? || pc.RemLock? || pc.Removing? || pc.RemUnlock?
  }

  lemma LockRoomCanStep(s: State, t: Id)
    requires var pc := PcAt(s, t); pc.AddLock? || pc.AddUnlock? || pc.RemLock? || pc.RemUnlock?
    requires !WaitsForRoom(s, t)
    ensures CanStep(s, t)
  {
    var r := PcAt(s, t).room;
    var room := RoomAt(s, r);
    var taken, freed := PutRoom(s, r, room.(lock := Some(t))), PutRoom(s, r, room.(lock := None));
    match PcAt(s, t)
    case AddLock(_) => assert Step(s, t, Go(taken, t, Adding(r)));
    case AddUnlock(_) => assert Step(s, t, Go(freed, t, Greet(r)));
    case RemLock(_) => assert Step(s, t, Go(taken, t, Removing(r)));
    case RemUnlock(_) => assert Step(s, t, Go(freed, t, Gone));
  }

  lemma AddingCanStep(s: State, t: Id)
    requires PcAt(s, t).Adding?
    ensures CanStep(s, t)
  {
    var r, user := PcAt(s, t).room, UserAt(s, t);
    var room := RoomAt(s, r);
    var joined := PutRoom(s, r, room.(members := room.members + {t}));
    assert Step(s, t, Go(PutUser(joined, t, user.(roomName := room.name, sub := In(r, |room.log|))), t, AddUnlock(r)));
  }

  lemma RemovingCanStep(s: State, t: Id)
    requires PcAt(s, t).Removing?
    ensures CanStep(s, t)
  {
    var r, user := PcAt(s, t).room, UserAt(s, t);
    var room := RoomAt(s, r);
    var left := PutRoom(s, r, room.(members := room.members - {t}));
    var sub := if user.sub.In? then Out(r, user.sub.start, |room.log|) else user.sub;
    assert Step(s, t, Go(PutUser(left, t, user.(roomName := "", sub := sub)), t, RemUnlock(r)));
  }

  lemma MemberCanStep(s: State, t: Id)
    requires InMemberCode(PcAt(s, t)) && !WaitsForRoom(s, t)
    ensures CanStep(s, t)
  {
    if PcAt(s, t).Adding? {
      AddingCanStep(s, t);
    } else if PcAt(s, t).Removing? {
      RemovingCanStep(s, t);
    } else {
      LockRoomCanStep(s, t);
    }
  }

  lemma GreetCanStep(s: State, t: Id)
    requires PcAt(s, t).Greet?
    ensures CanStep(s, t)
  {
    assert Step(s, t, GoOpen(s, t, Listen(PcAt(s, t).room), true));
  }

  lemma ListenCanStep(s: State, t: Id)
    requires PcAt(s, t).Listen?
    ensures CanStep(s, t)
  {
    var r := PcAt(s, t).room;
    assert Step(s, t, Go(s, t, if ThreadAt(s, t).open then Wait(r) else RemLock(r)));
  }

  lemma WaitCanStep(s: State, t: Id)
    requires PcAt(s, t).Wait?
    ensures CanStep(s, t)
  {
    assert Step(s, t, Go(s, t, Listen(PcAt(s, t).room)));
  }

  lemma PopLockCanStep(s: State, t: Id)
    requires PcAt(s, t).PopLock? && !WaitsForQueue(s, t)
    ensures CanStep(s, t)
  {
    assert Step(s, t, Go(PutUser(s, t, UserAt(s, t).(qlock := Some(t))), t, Pop(PcAt(s, t).room)));
  }

  lemma PopCanStep(s: State, t: Id)
    requires PcAt(s, t).Pop? && UserAt(s, t).deque != []
    ensures CanStep(s, t)
  {
    var r, user := PcAt(s, t).room, UserAt(s, t);
    var popped := PutUser(s, t, user.(deque := user.deque[1..]));
    assert Step(s, t, Go(popped, t, PopUnlock(r, user.deque[0])));
  }

  lemma PopUnlockCanStep(s: State, t: Id)
    requires PcAt(s, t).PopUnlock?
    ensures CanStep(s, t)
  {
    var pc := PcAt(s, t);
    assert Step(s, t, Go(PutUser(s, t, UserAt(s, t).(qlock := None)), t, Deliver(pc.room, pc.msg)));
  }

  lemma DeliverCanStep(s: State, t: Id)
    requires PcAt(s, t).Deliver?
    ensures CanStep(s, t)
  {
    var pc, user := PcAt(s, t), UserAt(s, t);
    var sent := PutUser(s, t, user.(sent := user.sent + [pc.msg]));
    assert Step(s, t, GoOpen(sent, t, Listen(pc.room), true));
  }

  predicate InReceiveCode(pc: Pc) {
    pc.Greet? || pc.Listen? || pc.Wait? || pc.PopLock? || pc.Pop? || pc.PopUnlock? || pc.Deliver?
  }

  lemma ReceiveCanStep(s: State, t: Id)
    requires InReceiveCode(PcAt(s, t))
    requires !WaitsForQueue(s, t) && (PcAt(s, t).Pop? ==> UserAt(s, t).deque != [])
    ensures CanStep(s, t)
  {
    match PcAt(s, t)
    case Greet(_) => GreetCanStep(s, t);
    case Listen(_) => ListenCanStep(s, t);
    case Wait(_) => WaitCanStep(s, t);
    case PopLock(_) => PopLockCanStep(s, t);
    case Pop(_) => PopCanStep(s, t);
    case PopUnlock(_, _) => PopUnlockCanStep(s, t);
    case Deliver(_, _) => DeliverCanStep(s, t);
  }

  lemma OutsideCanStep(s: State, t: Id)
    requires PcAt(s, t).Unborn? || PcAt(s, t).Ready? || PcAt(s, t).Reply?
    ensures CanStep(s, t)
  {
    if PcAt(s, t).Unborn? {
      var s' := s.(threads := s.threads[t := Thread(true, "", true, Ready)]);
      assert Connect(s, t, s');
      assert Step(s, t, s');
    } else {
      assert Step(s, t, Go(s, t, Gone));
    }
  }

  lemma WaitingCannotStep(s: State, t: Id)
    requires Waits(s, t)
    ensures !CanStep(s, t)
  {
  }

  /** Nothing but a lock ever stops a thread: in a reachable state one can step exactly
      when it has not ended and is not waiting for a lock. */
  lemma OnlyLocksStop(s: State, t: Id)
    requires Inv(s)
    ensures CanStep(s, t) <==> !PcAt(s, t).Gone? && !Waits(s, t)
  {
    var pc := PcAt(s, t);
    if Waits(s, t) {
      WaitingCannotStep(s, t);
    } else if pc.Unborn? || pc.Ready? || pc.Reply? {
      OutsideCanStep(s, t);
    } else if pc.FindLock? || pc.Finding? || pc.FindUnlock? {
      FindCanStep(s, t);
    } else if pc.Enq? {
      EnqCanStep(s, t);
    } else if pc.CastLock? || pc.Casting? || pc.CastUnlock? {
      CastCanStep(s, t);
    } else if InMemberCode(pc) {
      MemberCanStep(s, t);
    } else if !pc.Gone? {
      assert UserOk(s, t);
      ReceiveCanStep(s, t);
    }
  }

  /** The thread that holds the lock `t` waits for. */
  function Blocker(s: State, t: Id): (x: Id)
    requires Waits(s, t)
  {
    if WaitsForServer(s, t) then s.serverLock.value
    else if WaitsForRoom(s, t) then RoomAt(s, PcAt(s, t).room).lock.value
    else UserAt(s, QueueWanted(PcAt(s, t), t).value).qlock.value
  }

  /** The holder of a queue's lock waits for nothing. */
  lemma QueueBlockerGoesOn(s: State, t: Id)
    requires Inv(s) && WaitsForQueue(s, t)
    ensures HoldsQueue(PcAt(s, Blocker(s, t)), Blocker(s, t), QueueWanted(PcAt(s, t), t).value)
    ensures CanStep(s, Blocker(s, t))
  {
    OnlyLocksStop(s, Blocker(s, t));
  }

  /** Deadlock freedom: the thread that holds the lock another one waits for can step,
      unless it is broadcasting and waits for a member's queue, whose holder can step. */
  lemma NoDeadlock(s: State, t: Id)
    requires Inv(s) && Waits(s, t)
    ensures Blocker(s, t) != t && Work(PcAt(s, Blocker(s, t))) > 0
    ensures var x := Blocker(s, t);
            CanStep(s, x) || (PcAt(s, x).Enq? && Waits(s, x) && CanStep(s, Blocker(s, x)) && Blocker(s, x) != t)
  {
    assert PointerOk(s, t);
    var x := Blocker(s, t);
    if WaitsForServer(s, t) {
      assert HoldsServer(PcAt(s, x));
      OnlyLocksStop(s, x);
    } else if WaitsForRoom(s, t) {
      assert HoldsRoom(PcAt(s, x), PcAt(s, t).room);
      OnlyLocksStop(s, x);
      if WaitsForQueue(s, x) {
        QueueBlockerGoesOn(s, x);
      }
    } else {
      QueueBlockerGoesOn(s, t);
    }
  }

  /** How many steps of its own a thread needs at most before it holds no lock; a
      broadcast needs five for every member still to be served. */
  function Work(pc: Pc): nat {
    match pc
    case Finding(_, _) => 2
    case FindUnlock(_, _, _) => 1
    case Casting(_, _, todo) => 2 + 5 * |todo|
    case Enq(_, _, todo, _, stage) =>
      2 + 5 * |todo| + (match stage case NeedLock => 4 case Push => 3 case Unlock => 2 case Post => 1)
    case CastUnlock(_) => 1
    case Adding(_) => 2
    case AddUnlock(_) => 1
    case Removing(_) => 2
    case RemUnlock(_) => 1
    case Pop(_) => 2
    case PopUnlock(_, _) => 1
    case _ => 0
  }

  lemma WorkMeansLocks(pc: Pc, t: Id)
    ensures Work(pc) > 0
            <==> HoldsServer(pc) || (exists r: Id :: HoldsRoom(pc, r)) || exists u: Id :: HoldsQueue(pc, t, u)
  {
    if RoomOf(pc).Some? {
      var r := RoomOf(pc).value;
      assert HoldsRoom(pc, r) || !HoldsRoom(pc, r);
    }
    assert HoldsQueue(pc, t, t) || !HoldsQueue(pc, t, t);
  }

  /** The locks are ordered: server and queue locks are never held while taking a room's
      lock, the server's lock is held alone, and a queue's lock is the last one taken. */
  lemma LockOrder(s: State, t: Id, u: Id, r: Id)
    requires Waits(s, t) || HoldsServer(PcAt(s, t))
    ensures HoldsServer(PcAt(s, t)) ==> !Waits(s, t) && !HoldsRoom(PcAt(s, t), r) && !HoldsQueue(PcAt(s, t), t, u)
    ensures Waits(s, t) ==> !HoldsQueue(PcAt(s, t), t, u)
    ensures WaitsForRoom(s, t) || WaitsForServer(s, t) ==> Work(PcAt(s, t)) == 0
  {
  }

  lemma FindWork(s: State, t: Id, s': State)
    requires FindStep(s, t, s') && Work(PcAt(s, t)) > 0
    ensures Work(PcAt(s', t)) < Work(PcAt(s, t))
  {
  }

  lemma CastWork(s: State, t: Id, s': State)
    requires CastStep(s, t, s') && !PcAt(s, t).Enq? && Work(PcAt(s, t)) > 0
    ensures Work(PcAt(s', t)) < Work(PcAt(s, t))
  {
    var pc, pc' := PcAt(s, t), PcAt(s', t);
    if pc.Casting? && pc.todo != {} {
      assert |pc.todo - {pc'.to}| == |pc.todo| - 1;
    }
  }

  lemma EnqWork(s: State, t: Id, s': State)
    requires CastStep(s, t, s') && PcAt(s, t).Enq?
    ensures Work(PcAt(s', t)) < Work(PcAt(s, t))
  {
  }

  lemma MemberWork(s: State, t: Id, s': State)
    requires MemberStep(s, t, s') && Work(PcAt(s, t)) > 0
    ensures Work(PcAt(s', t)) < Work(PcAt(s, t))
  {
  }

  lemma ReceiveWork(s: State, t: Id, s': State)
    requires ReceiveStep(s, t, s') && Work(PcAt(s, t)) > 0
    ensures Work(PcAt(s', t)) < Work(PcAt(s, t))
  {
  }

  /** Each step of a lock holder brings it closer to letting go. */
  lemma WorkFalls(s: State, t: Id, s': State)
    requires Step(s, t, s') && Work(PcAt(s, t)) > 0
    ensures Work(PcAt(s', t)) < Work(PcAt(s, t))
  {
    var pc := PcAt(s, t);
    if pc.Finding? || pc.FindUnlock? {
      FindWork(s, t, s');
    } else if pc.Enq? {
      EnqWork(s, t, s');
    } else if pc.Casting? || pc.CastUnlock? {
      CastWork(s, t, s');
    } else if InMemberCode(pc) {
      MemberWork(s, t, s');
    } else {
      ReceiveWork(s, t, s');
    }
  }

  ghost predicate TakesStep(run: seq<State>, who: seq<Id>, i: nat) {
    i + 1 < |run| && i < |who| ==> Step(run[i], who[i], run[i + 1])
  }

  /** A run together with the thread that takes each of its steps. */
  ghost predicate Schedule(run: seq<State>, who: seq<Id>) {
    && |run| == |who| + 1 && Init(run[0])
    && forall i: nat :: TakesStep(run, who, i)
  }

  /** How many of the steps from `i` to `j` thread `t` takes. */
  function Turns(who: seq<Id>, t: Id, i: nat, j: nat): nat
    requires i <= j <= |who|
    decreases j
  {
    if i == j then 0 else Turns(who, t, i, j - 1) + if who[j - 1] == t then 1 else 0
  }

  lemma OneTurn(s: State, x: Id, s': State, t: Id)
    requires Step(s, x, s') && Work(PcAt(s, t)) > 0
    ensures Work(PcAt(s', t)) + (if x == t then 1 else 0) <= Work(PcAt(s, t))
  {
    if x == t {
      WorkFalls(s, t, s');
    } else {
      OthersStay(s, x, s', t);
    }
  }

  /** However the others are scheduled, a thread that still holds a lock has taken fewer
      steps of its own than its work said when it was `Work` steps from letting go. */
  lemma {:induction false} HolderLetsGo(run: seq<State>, who: seq<Id>, t: Id, i: nat, j: nat)
    requires Schedule(run, who) && i <= j <= |who|
    requires forall k :: i <= k < j ==> Work(PcAt(run[k], t)) > 0
    ensures Turns(who, t, i, j) + Work(PcAt(run[j], t)) <= Work(PcAt(run[i], t))
    decreases j
  {
    if i < j {
      HolderLetsGo(run, who, t, i, j - 1);
      assert TakesStep(run, who, j - 1);
      OneTurn(run[j - 1], who[j - 1], run[j], t);
    }
  }
}
