/** What the operations of ChatObjects come to in the transition system: the calls that one
    thread makes while no other thread takes a step. */
module ChatUndisturbed {
  import opened Options
  import opened ChatModel
  import opened ChatEffects

  ghost predicate StepAt(run: seq<State>, t: Id, k: nat) {
    k + 1 < |run| && Step(run[k], t, run[k + 1])
  }

  /** From `i` to `j` only thread `t` takes steps. */
  ghost predicate Alone(run: seq<State>, t: Id, i: nat, j: nat) {
    i <= j < |run| && forall k: nat :: i <= k < j ==> StepAt(run, t, k)
  }

  /** The queue of user `x` gets the messages `more` at its end, all of them announced. */
  predicate Grown(s: State, s': State, x: Id, more: seq<string>) {
    && UserAt(s', x).deque == UserAt(s, x).deque + more
    && UserAt(s', x).avail == UserAt(s, x).avail + |more|
  }

  function AfterStage(stage: Stage): Stage
    requires !stage.Post?
  {
    match stage
    case NeedLock => Push
    case Push => Unlock
    case Unlock => Post
  }

  lemma EnqStep(s: State, t: Id, m: State, x: Id)
    requires PcAt(s, t).Enq? && Step(s, t, m)
    ensures var pc := PcAt(s, t);
            PcAt(m, t) == if pc.stage.Post? then Casting(pc.room, pc.msg, pc.todo)
                          else pc.(stage := AfterStage(pc.stage))
    ensures var pc, user, user' := PcAt(s, t), UserAt(s, x), UserAt(m, x);
            && user'.deque == user.deque + (if x == pc.to && pc.stage.Push? then [pc.msg] else [])
            && user'.avail == user.avail + (if x == pc.to && pc.stage.Post? then 1 else 0)
  {
    StepMoves(s, t, m, PcAt(s, t).room);
    StepUser(s, t, m, x);
  }

  lemma EnqStepAt(run: seq<State>, t: Id, i: nat, j: nat, k: nat, x: Id)
    requires Alone(run, t, i, j) && i <= k < j && PcAt(run[k], t).Enq?
    ensures var pc := PcAt(run[k], t);
            PcAt(run[k + 1], t) == if pc.stage.Post? then Casting(pc.room, pc.msg, pc.todo)
                                   else pc.(stage := AfterStage(pc.stage))
    ensures var pc, user, user' := PcAt(run[k], t), UserAt(run[k], x), UserAt(run[k + 1], x);
            && user'.deque == user.deque + (if x == pc.to && pc.stage.Push? then [pc.msg] else [])
            && user'.avail == user.avail + (if x == pc.to && pc.stage.Post? then 1 else 0)
  {
    assert StepAt(run, t, k);
    EnqStep(run[k], t, run[k + 1], x);
  }

  /** An enqueue call: the addressee's queue gets the message, as ChatObjects.Queue.Enqueue
      says, and no other queue changes. */
  lemma EnqueueAlone(run: seq<State>, t: Id, i: nat, x: Id)
    requires Alone(run, t, i, i + 4) && PcAt(run[i], t).Enq? && PcAt(run[i], t).stage.NeedLock?
    ensures var pc := PcAt(run[i], t);
            && PcAt(run[i + 4], t) == Casting(pc.room, pc.msg, pc.todo)
            && Grown(run[i], run[i + 4], x, if x == pc.to then [pc.msg] else [])
  {
    EnqStepAt(run, t, i, i + 4, i, x);
    EnqStepAt(run, t, i, i + 4, i + 1, x);
    EnqStepAt(run, t, i, i + 4, i + 2, x);
    EnqStepAt(run, t, i, i + 4, i + 3, x);
  }

  /** Where a broadcast goes on its own account, and that it touches no queue there. */
  predicate CastGoes(pc: Pc, pc': Pc, room: Room, username: string) {
    match pc
    case CastLock(r, text) => pc' == Casting(r, DeliveryText(room, username, text), room.members)
    case Casting(r, msg, todo) =>
      if todo == {} then pc' == CastUnlock(r)
      else pc'.Enq? && pc'.to in todo && pc' == Enq(r, msg, todo - {pc'.to}, pc'.to, NeedLock)
    case CastUnlock(r) => pc' == Reply(true, false)
    case _ => false
  }

  predicate InCast(pc: Pc) { pc.CastLock? || pc.Casting? || pc.CastUnlock? }

  lemma CastStepGoes(s: State, t: Id, m: State)
    requires InCast(PcAt(s, t)) && Step(s, t, m)
    ensures CastGoes(PcAt(s, t), PcAt(m, t), RoomAt(s, PcAt(s, t).room), ThreadAt(s, t).username)
  {
  }

  lemma CastStepAt(run: seq<State>, t: Id, i: nat, j: nat, k: nat, x: Id)
    requires Alone(run, t, i, j) && i <= k < j && InCast(PcAt(run[k], t))
    ensures var s := run[k];
            CastGoes(PcAt(s, t), PcAt(run[k + 1], t), RoomAt(s, PcAt(s, t).room), ThreadAt(s, t).username)
    ensures Grown(run[k], run[k + 1], x, [])
  {
    assert StepAt(run, t, k);
    CastStepGoes(run[k], t, run[k + 1]);
    StepUser(run[k], t, run[k + 1], x);
  }

  lemma AlonePart(run: seq<State>, t: Id, i: nat, j: nat, k: nat, l: nat)
    requires Alone(run, t, i, j) && i <= k <= l <= j
    ensures Alone(run, t, k, l)
  {
  }

  lemma LessOne(todo: set<Id>, u: Id)
    requires u in todo
    ensures |todo - {u}| == |todo| - 1
  {
  }

  /** One turn of the loop over the members. */
  lemma TurnAlone(run: seq<State>, t: Id, i: nat, x: Id)
    requires Alone(run, t, i, i + 5) && PcAt(run[i], t).Casting? && PcAt(run[i], t).todo != {}
    ensures var pc, pc' := PcAt(run[i], t), PcAt(run[i + 5], t);
            && pc'.Casting? && pc'.msg == pc.msg && |pc'.todo| == |pc.todo| - 1 && pc'.todo <= pc.todo
            && Grown(run[i], run[i + 5], x, if x in pc.todo && x !in pc'.todo then [pc.msg] else [])
  {
    CastStepAt(run, t, i, i + 5, i, x);
    LessOne(PcAt(run[i], t).todo, PcAt(run[i + 1], t).to);
    AlonePart(run, t, i, i + 5, i + 1, i + 5);
    EnqueueAlone(run, t, i + 1, x);
  }

  /** The loop over the members: everyone still to be served gets the message once. */
  lemma {:induction false} CastLoopAlone(run: seq<State>, t: Id, i: nat, j: nat, x: Id)
    requires Alone(run, t, i, j) && PcAt(run[i], t).Casting? && j == i + 5 * |PcAt(run[i], t).todo| + 2
    ensures PcAt(run[j], t) == Reply(true, false)
    ensures Grown(run[i], run[j], x, if x in PcAt(run[i], t).todo then [PcAt(run[i], t).msg] else [])
    decreases j - i
  {
    if PcAt(run[i], t).todo == {} {
      CastStepAt(run, t, i, j, i, x);
      CastStepAt(run, t, i, j, i + 1, x);
    } else {
      AlonePart(run, t, i, j, i, i + 5);
      TurnAlone(run, t, i, x);
      AlonePart(run, t, i, j, i + 5, j);
      CastLoopAlone(run, t, i + 5, j, x);
    }
  }

  /** A broadcast call: every member's queue gets the message once and no other queue
      changes, as ChatObjects.Room.BroadcastMessage says. */
  lemma BroadcastAlone(run: seq<State>, t: Id, i: nat, j: nat, x: Id)
    requires Alone(run, t, i, j) && PcAt(run[i], t).CastLock?
    requires j == i + 5 * |RoomAt(run[i], PcAt(run[i], t).room).members| + 3
    ensures PcAt(run[j], t) == Reply(true, false)
    ensures var room := RoomAt(run[i], PcAt(run[i], t).room);
            var message := room.name + ":" + ThreadAt(run[i], t).username + ":" + PcAt(run[i], t).text;
            Grown(run[i], run[j], x, if x in room.members then [message] else [])
  {
    CastStepAt(run, t, i, j, i, x);
    AlonePart(run, t, i, j, i + 1, j);
    CastLoopAlone(run, t, i + 1, j, x);
  }

  /** A receiver's way through dequeue, and what each step does to its queue. */
  predicate PopGoes(pc: Pc, pc': Pc, user: User, user': User) {
    match pc
    case Listen(_) => pc'.Wait? || pc'.RemLock?
    case Wait(_) => pc'.Listen? || (pc'.PopLock? && user'.deque == user.deque && user'.avail == user.avail - 1)
    case PopLock(_) => pc'.Pop? && user'.deque == user.deque && user'.avail == user.avail
    case Pop(r) => pc'.PopUnlock? && user.deque == [pc'.msg] + user'.deque && user'.avail == user.avail
    case PopUnlock(r, m) => pc' == Deliver(r, m) && user'.deque == user.deque && user'.avail == user.avail
    case RemLock(_) => pc'.Removing?
    case Removing(_) => pc'.RemUnlock?
    case _ => true
  }

  lemma PopStepGoes(s: State, t: Id, m: State)
    requires Step(s, t, m)
    ensures PopGoes(PcAt(s, t), PcAt(m, t), UserAt(s, t), UserAt(m, t))
  {
    StepMoves(s, t, m, 0);
    StepUser(s, t, m, t);
  }

  lemma PopStepAt(run: seq<State>, t: Id, i: nat, j: nat, k: nat)
    requires Alone(run, t, i, j) && i <= k < j
    ensures PopGoes(PcAt(run[k], t), PcAt(run[k + 1], t), UserAt(run[k], t), UserAt(run[k + 1], t))
  {
    assert StepAt(run, t, k);
    PopStepGoes(run[k], t, run[k + 1]);
  }

  /** A dequeue call that succeeds: the first message leaves the queue, as
      ChatObjects.Queue.Dequeue says. */
  lemma DequeueAlone(run: seq<State>, t: Id, i: nat)
    requires Alone(run, t, i, i + 4) && PcAt(run[i], t).Wait? && PcAt(run[i + 4], t).Deliver?
    ensures UserAt(run[i], t).deque == [PcAt(run[i + 4], t).msg] + UserAt(run[i + 4], t).deque
    ensures UserAt(run[i + 4], t).avail == UserAt(run[i], t).avail - 1
  {
    PopStepAt(run, t, i, i + 4, i);
    PopStepAt(run, t, i, i + 4, i + 1);
    PopStepAt(run, t, i, i + 4, i + 2);
    PopStepAt(run, t, i, i + 4, i + 3);
  }

  function MemberGoes(pc: Pc): Pc {
    match pc
    case AddLock(r) => Adding(r)
    case Adding(r) => AddUnlock(r)
    case AddUnlock(r) => Greet(r)
    case RemLock(r) => Removing(r)
    case Removing(r) => RemUnlock(r)
    case _ => Gone
  }

  predicate InMember(pc: Pc) { Joining(pc) || pc.RemLock? || pc.Removing? || pc.RemUnlock? }

  lemma MemberStepGoes(s: State, t: Id, m: State)
    requires MemberStep(s, t, m)
    ensures PcAt(m, t) == MemberGoes(PcAt(s, t)) && m.nextRoom == s.nextRoom
    ensures var pc := PcAt(s, t);
            UserAt(m, t).roomName == if pc.Adding? then RoomAt(s, pc.room).name
                                     else if pc.Removing? then "" else UserAt(s, t).roomName
  {
  }

  /** What a step of add_member or remove_member on room `r` does to it. */
  predicate MemberDoes(pc: Pc, t: Id, room: Room, room': Room) {
    && room'.members == (if pc.Adding? then room.members + {t}
                         else if pc.Removing? then room.members - {t} else room.members)
    && (pc.AddUnlock? || pc.RemUnlock? ==> room'.lock == None)
    && room'.name == room.name
  }

  lemma MemberEffect(t: Id, pc: Pc, r: Id, room: Room, room': Room)
    requires InMember(pc) && pc.room == r && RoomEffect(t, pc, MemberGoes(pc), r, room, room')
    ensures MemberDoes(pc, t, room, room')
  {
  }

  lemma MemberStepAt(run: seq<State>, t: Id, i: nat, j: nat, k: nat, r: Id)
    requires Alone(run, t, i, j) && i <= k < j && InMember(PcAt(run[k], t))
    requires PcAt(run[k], t).room == r < run[k].nextRoom
    ensures PcAt(run[k + 1], t) == MemberGoes(PcAt(run[k], t)) && run[k + 1].nextRoom == run[k].nextRoom
    ensures MemberDoes(PcAt(run[k], t), t, RoomAt(run[k], r), RoomAt(run[k + 1], r))
    ensures var pc := PcAt(run[k], t);
            UserAt(run[k + 1], t).roomName == if pc.Adding? then RoomAt(run[k], pc.room).name
                                              else if pc.Removing? then "" else UserAt(run[k], t).roomName
  {
    assert StepAt(run, t, k);
    StepRoom(run[k], t, run[k + 1], r);
    MemberStepGoes(run[k], t, run[k + 1]);
    MemberEffect(t, PcAt(run[k], t), r, RoomAt(run[k], r), RoomAt(run[k + 1], r));
  }

  /** The critical section itself, and the unlock after it. */
  lemma InsideAdd(run: seq<State>, t: Id, i: nat, r: Id)
    requires Alone(run, t, i, i + 2) && PcAt(run[i], t) == Adding(r) && r < run[i].nextRoom
    ensures PcAt(run[i + 2], t) == Greet(r) && RoomAt(run[i + 2], r).lock == None
    ensures RoomAt(run[i + 2], r).members == RoomAt(run[i], r).members + {t}
    ensures UserAt(run[i + 2], t).roomName == RoomAt(run[i], r).name
  {
    MemberStepAt(run, t, i, i + 2, i, r);
    MemberStepAt(run, t, i, i + 2, i + 1, r);
  }

  lemma InsideRemove(run: seq<State>, t: Id, i: nat, r: Id)
    requires Alone(run, t, i, i + 2) && PcAt(run[i], t) == Removing(r) && r < run[i].nextRoom
    ensures PcAt(run[i + 2], t) == Gone && RoomAt(run[i + 2], r).lock == None
    ensures RoomAt(run[i + 2], r).members == RoomAt(run[i], r).members - {t}
    ensures UserAt(run[i + 2], t).roomName == ""
  {
    MemberStepAt(run, t, i, i + 2, i, r);
    MemberStepAt(run, t, i, i + 2, i + 1, r);
  }

  /** An add_member call, as ChatObjects.Room.AddMember says; the lock is free again. */
  lemma AddMemberAlone(run: seq<State>, t: Id, i: nat, r: Id)
    requires Alone(run, t, i, i + 3) && PcAt(run[i], t) == AddLock(r) && r < run[i].nextRoom
    ensures var s, s' := run[i], run[i + 3];
            && PcAt(s', t) == Greet(r) && RoomAt(s', r).lock == None
            && RoomAt(s', r).members == RoomAt(s, r).members + {t} && UserAt(s', t).roomName == RoomAt(s, r).name
  {
    MemberStepAt(run, t, i, i + 3, i, r);
    AlonePart(run, t, i, i + 3, i + 1, i + 3);
    InsideAdd(run, t, i + 1, r);
  }

  /** A remove_member call, as ChatObjects.Room.RemoveMember says. */
  lemma RemoveMemberAlone(run: seq<State>, t: Id, i: nat, r: Id)
    requires Alone(run, t, i, i + 3) && PcAt(run[i], t) == RemLock(r) && r < run[i].nextRoom
    ensures var s, s' := run[i], run[i + 3];
            && PcAt(s', t) == Gone && RoomAt(s', r).lock == None
            && RoomAt(s', r).members == RoomAt(s, r).members - {t} && UserAt(s', t).roomName == ""
  {
    MemberStepAt(run, t, i, i + 3, i, r);
    AlonePart(run, t, i, i + 3, i + 1, i + 3);
    InsideRemove(run, t, i + 1, r);
  }

  lemma FindStepAt(run: seq<State>, t: Id, i: nat, j: nat, k: nat)
    requires Alone(run, t, i, j) && i <= k < j && (PcAt(run[k], t).FindLock? || PcAt(run[k], t).Finding?)
    ensures FindStep(run[k], t, run[k + 1])
  {
    assert StepAt(run, t, k);
  }

  /** A find_or_create_room call, as ChatObjects.Server.FindOrCreateRoom says: the registered
      room of the name, or a new and empty one that is registered now. */
  lemma FindOrCreateAlone(run: seq<State>, t: Id, i: nat)
    requires Alone(run, t, i, i + 2) && PcAt(run[i], t).FindLock?
    ensures var s, s', name := run[i], run[i + 2], PcAt(run[i], t).name;
            && PcAt(s', t).FindUnlock? && name in s'.registry && s'.registry[name] == PcAt(s', t).room
            && (if name in s.registry then s'.registry == s.registry
                else
                  && s'.registry == s.registry[name := PcAt(s', t).room]
                  && PcAt(s', t).room == s.nextRoom && RoomAt(s', s.nextRoom) == Room(name, None, {}, []))
  {
    FindStepAt(run, t, i, i + 2, i);
    FindStepAt(run, t, i, i + 2, i + 1);
    FindServer(run[i], t, run[i + 1]);
    FindServer(run[i + 1], t, run[i + 2]);
  }
}
