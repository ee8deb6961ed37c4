/** What one step does to one room, one user and one thread. */
module ChatEffects {
  import opened Options
  import opened ChatModel

  predicate HoldsServer(pc: Pc) { pc.Finding? || pc.FindUnlock? }

  predicate HoldsRoom(pc: Pc, r: Id) {
    match pc
    case Casting(room, _, _) => room == r
    case Enq(room, _, _, _, _) => room == r
    case CastUnlock(room) => room == r
    case Adding(room) => room == r
    case AddUnlock(room) => room == r
    case Removing(room) => room == r
    case RemUnlock(room) => room == r
    case _ => false
  }

  /** Does a thread `t` at `pc` hold the mutex of user `u`'s queue? */
  predicate HoldsQueue(pc: Pc, t: Id, u: Id) {
    match pc
    case Enq(_, _, _, to, stage) => to == u && (stage.Push? || stage.Unlock?)
    case Pop(_) => t == u
    case PopUnlock(_, _) => t == u
    case _ => false
  }

  /** A mutex after a move that enters or leaves it: entering needs it free. */
  predicate LockEffect(t: Id, before: bool, after: bool, lock: Option<Id>, lock': Option<Id>) {
    if after && !before then lock == None && lock' == Some(t)
    else if before && !after then lock' == None
    else lock' == lock
  }

  predicate RoomEffect(t: Id, pc: Pc, pc': Pc, r: Id, room: Room, room': Room) {
    && room'.name == room.name
    && LockEffect(t, HoldsRoom(pc, r), HoldsRoom(pc', r), room.lock, room'.lock)
    && room'.members == (if pc == Adding(r) then room.members + {t}
                         else if pc == Removing(r) then room.members - {t} else room.members)
    && room'.log == room.log + (if pc.CastLock? && pc.room == r && pc'.Casting? then [pc'.msg] else [])
  }

  /** On the way from a sender's line to the end of its broadcast. */
  predicate InSay(pc: Pc) {
    match pc
    case FindLock(_, why) => why.SendAll?
    case Finding(_, why) => why.SendAll?
    case FindUnlock(_, why, _) => why.SendAll?
    case CastLock(_, _) => true
    case Casting(_, _, _) => true
    case Enq(_, _, _, _, _) => true
    case CastUnlock(_) => true
    case _ => false
  }

  predicate UserEffect(t: Id, pc: Pc, pc': Pc, u: Id, user: User, user': User) {
    && LockEffect(t, HoldsQueue(pc, t, u), HoldsQueue(pc', t, u), user.qlock, user'.qlock)
    && (if pc.Enq? && pc.to == u && pc.stage.Push? then user'.deque == user.deque + [pc.msg]
        else if pc.Pop? && u == t then user.deque != [] && user'.deque == user.deque[1..]
        else user'.deque == user.deque)
    && user'.avail == user.avail + (if pc.Enq? && pc.to == u && pc.stage.Post? then 1 else 0)
                      - (if pc'.PopLock? && u == t then 1 else 0)
    && (u != t || !(pc.Adding? || pc.Removing?) ==> user'.sub == user.sub)
    && (u != t || InSay(pc) ==> user'.roomName == user.roomName)
    && user'.sent == user.sent + (if u == t && pc.Deliver? && pc'.Listen? then [pc.msg] else [])
    && user'.lost == (if u == t && pc.Deliver? && pc'.RemLock? then [pc.msg] else user.lost)
  }

  /** One step seen from the room `r`, the user `u` and the thread `x`. */
  ghost predicate RoomSees(s: State, t: Id, s': State, r: Id) {
    RoomEffect(t, PcAt(s, t), PcAt(s', t), r, RoomAt(s, r), RoomAt(s', r))
  }

  ghost predicate UserSees(s: State, t: Id, s': State, u: Id) {
    UserEffect(t, PcAt(s, t), PcAt(s', t), u, UserAt(s, u), UserAt(s', u))
  }

  lemma HandleRoom(s: State, t: Id, q: Request, r: Id)
    requires PcAt(s, t).Ready?
    ensures RoomSees(s, t, Handle(s, t, q), r)
  {
  }

  lemma ReadyRoom(s: State, t: Id, s': State, r: Id)
    requires PcAt(s, t).Ready? && ReadyStep(s, t, s') && r < s.nextRoom
    ensures RoomSees(s, t, s', r)
  {
    if ThreadAt(s, t).sender && s' != s && s' != Go(s, t, Gone) {
      var q :| s' == Handle(s, t, q);
      HandleRoom(s, t, q, r);
    }
  }

  lemma HandleUser(s: State, t: Id, q: Request, u: Id)
    requires PcAt(s, t).Ready?
    ensures UserSees(s, t, Handle(s, t, q), u)
  {
  }

  lemma ReadyUser(s: State, t: Id, s': State, u: Id)
    requires PcAt(s, t).Ready? && ReadyStep(s, t, s')
    ensures UserSees(s, t, s', u)
  {
    if ThreadAt(s, t).sender && s' != s && s' != Go(s, t, Gone) {
      var q :| s' == Handle(s, t, q);
      HandleUser(s, t, q, u);
    }
  }

  lemma FindRoom(s: State, t: Id, s': State, r: Id)
    requires FindStep(s, t, s') && r < s.nextRoom
    ensures RoomSees(s, t, s', r)
  {
  }

  lemma FindUser(s: State, t: Id, s': State, u: Id)
    requires FindStep(s, t, s')
    ensures UserSees(s, t, s', u)
  {
  }

  lemma CastRoom(s: State, t: Id, s': State, r: Id)
    requires CastStep(s, t, s') && !PcAt(s, t).Enq? && r < s.nextRoom
    ensures RoomSees(s, t, s', r)
  {
  }

  lemma CastUser(s: State, t: Id, s': State, u: Id)
    requires CastStep(s, t, s') && !PcAt(s, t).Enq?
    ensures UserSees(s, t, s', u)
  {
  }

  lemma EnqRoom(s: State, t: Id, s': State, r: Id)
    requires CastStep(s, t, s') && PcAt(s, t).Enq? && r < s.nextRoom
    ensures RoomSees(s, t, s', r)
  {
  }

  lemma PushUser(s: State, t: Id, s': State, u: Id)
    requires CastStep(s, t, s') && PcAt(s, t).Enq? && (PcAt(s, t).stage.NeedLock? || PcAt(s, t).stage.Push?)
    ensures UserSees(s, t, s', u)
  {
  }

  lemma PostUser(s: State, t: Id, s': State, u: Id)
    requires CastStep(s, t, s') && PcAt(s, t).Enq? && (PcAt(s, t).stage.Unlock? || PcAt(s, t).stage.Post?)
    ensures UserSees(s, t, s', u)
  {
  }

  predicate Joining(pc: Pc) { pc.AddLock? || pc.Adding? || pc.AddUnlock? }

  lemma JoinRoom(s: State, t: Id, s': State, r: Id)
    requires MemberStep(s, t, s') && Joining(PcAt(s, t)) && r < s.nextRoom
    ensures RoomSees(s, t, s', r)
  {
  }

  lemma LeaveRoom(s: State, t: Id, s': State, r: Id)
    requires MemberStep(s, t, s') && !Joining(PcAt(s, t)) && r < s.nextRoom
    ensures RoomSees(s, t, s', r)
  {
  }

  lemma JoinUser(s: State, t: Id, s': State, u: Id)
    requires MemberStep(s, t, s') && Joining(PcAt(s, t))
    ensures UserSees(s, t, s', u)
  {
  }

  lemma LeaveUser(s: State, t: Id, s': State, u: Id)
    requires MemberStep(s, t, s') && !Joining(PcAt(s, t))
    ensures UserSees(s, t, s', u)
  {
  }

  /** Greeting the client, and looking whether it is still there. */
  predicate Looking(pc: Pc) { pc.Greet? || pc.Listen? }

  lemma DeliverRoom(s: State, t: Id, s': State, r: Id)
    requires ReceiveStep(s, t, s') && PcAt(s, t).Deliver? && r < s.nextRoom
    ensures RoomSees(s, t, s', r)
  {
  }

  lemma LookRoom(s: State, t: Id, s': State, r: Id)
    requires ReceiveStep(s, t, s') && Looking(PcAt(s, t)) && r < s.nextRoom
    ensures RoomSees(s, t, s', r)
  {
  }

  lemma DequeueRoom(s: State, t: Id, s': State, r: Id)
    requires ReceiveStep(s, t, s') && !PcAt(s, t).Deliver? && !Looking(PcAt(s, t)) && r < s.nextRoom
    ensures RoomSees(s, t, s', r)
  {
  }

  lemma DeliverUser(s: State, t: Id, s': State, u: Id)
    requires ReceiveStep(s, t, s') && PcAt(s, t).Deliver?
    ensures UserSees(s, t, s', u)
  {
  }

  lemma LookUser(s: State, t: Id, s': State, u: Id)
    requires ReceiveStep(s, t, s') && Looking(PcAt(s, t))
    ensures UserSees(s, t, s', u)
  {
  }

  lemma WaitUser(s: State, t: Id, s': State, u: Id)
    requires ReceiveStep(s, t, s') && (PcAt(s, t).Wait? || PcAt(s, t).PopLock?)
    ensures UserSees(s, t, s', u)
  {
  }

  lemma PopUser(s: State, t: Id, s': State, u: Id)
    requires ReceiveStep(s, t, s') && (PcAt(s, t).Pop? || PcAt(s, t).PopUnlock?)
    ensures UserSees(s, t, s', u)
  {
  }

  lemma StepRoom(s: State, t: Id, s': State, r: Id)
    requires Step(s, t, s') && r < s.nextRoom
    ensures RoomSees(s, t, s', r)
  {
    var pc := PcAt(s, t);
    if pc.Ready? {
      ReadyRoom(s, t, s', r);
    } else if pc.FindLock? || pc.Finding? || pc.FindUnlock? {
      FindRoom(s, t, s', r);
    } else if pc.Enq? {
      EnqRoom(s, t, s', r);
    } else if pc.CastLock? || pc.Casting? || pc.CastUnlock? {
      CastRoom(s, t, s', r);
    } else if Joining(pc) {
      JoinRoom(s, t, s', r);
    } else if pc.RemLock? || pc.Removing? || pc.RemUnlock? {
      LeaveRoom(s, t, s', r);
    } else if pc.Deliver? {
      DeliverRoom(s, t, s', r);
    } else if Looking(pc) {
      LookRoom(s, t, s', r);
    } else if !pc.Unborn? && !pc.Reply? {
      DequeueRoom(s, t, s', r);
    }
  }

  lemma StepUser(s: State, t: Id, s': State, u: Id)
    requires Step(s, t, s')
    ensures UserSees(s, t, s', u)
  {
    var pc := PcAt(s, t);
    if pc.Ready? {
      ReadyUser(s, t, s', u);
    } else if pc.FindLock? || pc.Finding? || pc.FindUnlock? {
      FindUser(s, t, s', u);
    } else if pc.Enq? {
      if pc.stage.NeedLock? || pc.stage.Push? {
        PushUser(s, t, s', u);
      } else {
        PostUser(s, t, s', u);
      }
    } else if pc.CastLock? || pc.Casting? || pc.CastUnlock? {
      CastUser(s, t, s', u);
    } else if Joining(pc) {
      JoinUser(s, t, s', u);
    } else if pc.RemLock? || pc.Removing? || pc.RemUnlock? {
      LeaveUser(s, t, s', u);
    } else if pc.Deliver? {
      DeliverUser(s, t, s', u);
    } else if Looking(pc) {
      LookUser(s, t, s', u);
    } else if pc.Wait? || pc.PopLock? {
      WaitUser(s, t, s', u);
    } else if pc.Pop? || pc.PopUnlock? {
      PopUser(s, t, s', u);
    }
  }

  lemma FindOthers(s: State, t: Id, s': State, x: Id)
    requires x != t && FindStep(s, t, s')
    ensures ThreadAt(s', x) == ThreadAt(s, x)
  {
  }

  lemma CastOthers(s: State, t: Id, s': State, x: Id)
    requires x != t && CastStep(s, t, s') && !PcAt(s, t).Enq?
    ensures ThreadAt(s', x) == ThreadAt(s, x)
  {
  }

  lemma EnqOthers(s: State, t: Id, s': State, x: Id)
    requires x != t && CastStep(s, t, s') && PcAt(s, t).Enq?
    ensures ThreadAt(s', x) == ThreadAt(s, x)
  {
  }

  lemma MemberOthers(s: State, t: Id, s': State, x: Id)
    requires x != t && MemberStep(s, t, s')
    ensures ThreadAt(s', x) == ThreadAt(s, x)
  {
  }

  lemma DeliverOthers(s: State, t: Id, s': State, x: Id)
    requires x != t && ReceiveStep(s, t, s') && PcAt(s, t).Deliver?
    ensures ThreadAt(s', x) == ThreadAt(s, x)
  {
  }

  lemma LookOthers(s: State, t: Id, s': State, x: Id)
    requires x != t && ReceiveStep(s, t, s') && Looking(PcAt(s, t))
    ensures ThreadAt(s', x) == ThreadAt(s, x)
  {
  }

  lemma DequeueOthers(s: State, t: Id, s': State, x: Id)
    requires x != t && ReceiveStep(s, t, s') && !PcAt(s, t).Deliver? && !Looking(PcAt(s, t))
    ensures ThreadAt(s', x) == ThreadAt(s, x)
  {
  }

  predicate InRoomCode(pc: Pc) {
    || pc.FindLock? || pc.Finding? || pc.FindUnlock?
    || pc.CastLock? || pc.Casting? || pc.Enq? || pc.CastUnlock?
    || pc.AddLock? || pc.Adding? || pc.AddUnlock? || pc.RemLock? || pc.Removing? || pc.RemUnlock?
  }

  lemma ReadyOthers(s: State, t: Id, s': State, x: Id)
    requires x != t && PcAt(s, t).Ready? && ReadyStep(s, t, s')
    ensures ThreadAt(s', x) == ThreadAt(s, x)
  {
  }

  /** Threads other than the one that steps stay where they are. */
  lemma OthersStay(s: State, t: Id, s': State, x: Id)
    requires Step(s, t, s') && x != t
    ensures ThreadAt(s', x) == ThreadAt(s, x)
  {
    var pc := PcAt(s, t);
    if pc.FindLock? || pc.Finding? || pc.FindUnlock? {
      FindOthers(s, t, s', x);
    } else if pc.Enq? {
      EnqOthers(s, t, s', x);
    } else if pc.CastLock? || pc.Casting? || pc.CastUnlock? {
      CastOthers(s, t, s', x);
    } else if InRoomCode(pc) {
      MemberOthers(s, t, s', x);
    } else if pc.Deliver? {
      DeliverOthers(s, t, s', x);
    } else if Looking(pc) {
      LookOthers(s, t, s', x);
    } else if pc.Ready? {
      ReadyOthers(s, t, s', x);
    } else if !pc.Unborn? && !pc.Reply? {
      DequeueOthers(s, t, s', x);
    }
  }

  lemma FindServer(s: State, t: Id, s': State)
    requires FindStep(s, t, s')
    ensures LockEffect(t, HoldsServer(PcAt(s, t)), HoldsServer(PcAt(s', t)), s.serverLock, s'.serverLock)
    ensures var pc := PcAt(s, t);
            if pc.Finding? && pc.name !in s.registry then
              && s'.nextRoom == s.nextRoom + 1 && s'.registry == s.registry[pc.name := s.nextRoom]
              && RoomAt(s', s.nextRoom) == Room(pc.name, None, {}, [])
            else s'.nextRoom == s.nextRoom && s'.registry == s.registry
  {
  }

  lemma CastServer(s: State, t: Id, s': State)
    requires CastStep(s, t, s') && !PcAt(s, t).Enq?
    ensures s'.serverLock == s.serverLock && s'.nextRoom == s.nextRoom && s'.registry == s.registry
    ensures !HoldsServer(PcAt(s, t)) && !HoldsServer(PcAt(s', t))
  {
  }

  lemma EnqServer(s: State, t: Id, s': State)
    requires CastStep(s, t, s') && PcAt(s, t).Enq?
    ensures s'.serverLock == s.serverLock && s'.nextRoom == s.nextRoom && s'.registry == s.registry
    ensures !HoldsServer(PcAt(s, t)) && !HoldsServer(PcAt(s', t))
  {
  }

  lemma MemberServer(s: State, t: Id, s': State)
    requires MemberStep(s, t, s')
    ensures s'.serverLock == s.serverLock && s'.nextRoom == s.nextRoom && s'.registry == s.registry
    ensures !HoldsServer(PcAt(s, t)) && !HoldsServer(PcAt(s', t))
  {
  }

  lemma DeliverServer(s: State, t: Id, s': State)
    requires ReceiveStep(s, t, s') && PcAt(s, t).Deliver?
    ensures s'.serverLock == s.serverLock && s'.nextRoom == s.nextRoom && s'.registry == s.registry
    ensures !HoldsServer(PcAt(s, t)) && !HoldsServer(PcAt(s', t))
  {
  }

  lemma LookServer(s: State, t: Id, s': State)
    requires ReceiveStep(s, t, s') && Looking(PcAt(s, t))
    ensures s'.serverLock == s.serverLock && s'.nextRoom == s.nextRoom && s'.registry == s.registry
    ensures !HoldsServer(PcAt(s, t)) && !HoldsServer(PcAt(s', t))
  {
  }

  lemma DequeueServer(s: State, t: Id, s': State)
    requires ReceiveStep(s, t, s') && !PcAt(s, t).Deliver? && !Looking(PcAt(s, t))
    ensures s'.serverLock == s.serverLock && s'.nextRoom == s.nextRoom && s'.registry == s.registry
    ensures !HoldsServer(PcAt(s, t)) && !HoldsServer(PcAt(s', t))
  {
  }

  lemma HandleServer(s: State, t: Id, q: Request)
    requires PcAt(s, t).Ready?
    ensures var s' := Handle(s, t, q);
            && s'.serverLock == s.serverLock && s'.nextRoom == s.nextRoom && s'.registry == s.registry
            && !HoldsServer(PcAt(s', t))
  {
  }

  lemma ReadyServer(s: State, t: Id, s': State)
    requires PcAt(s, t).Ready? && ReadyStep(s, t, s')
    ensures s'.serverLock == s.serverLock && s'.nextRoom == s.nextRoom && s'.registry == s.registry
    ensures !HoldsServer(PcAt(s, t)) && !HoldsServer(PcAt(s', t))
  {
    if ThreadAt(s, t).sender && s' != s && s' != Go(s, t, Gone) {
      var q :| s' == Handle(s, t, q);
      HandleServer(s, t, q);
    }
  }

  /** Only the search for a name nobody used yet changes the registry. */
  lemma StepServer(s: State, t: Id, s': State)
    requires Step(s, t, s')
    ensures LockEffect(t, HoldsServer(PcAt(s, t)), HoldsServer(PcAt(s', t)), s.serverLock, s'.serverLock)
    ensures var pc := PcAt(s, t);
            if pc.Finding? && pc.name !in s.registry then
              && s'.nextRoom == s.nextRoom + 1 && s'.registry == s.registry[pc.name := s.nextRoom]
              && RoomAt(s', s.nextRoom) == Room(pc.name, None, {}, [])
            else s'.nextRoom == s.nextRoom && s'.registry == s.registry
  {
    var pc := PcAt(s, t);
    if pc.Ready? {
      ReadyServer(s, t, s');
    } else if !InRoomCode(pc) {
      if pc.Deliver? {
        DeliverServer(s, t, s');
      } else if Looking(pc) {
        LookServer(s, t, s');
      } else if !pc.Unborn? && !pc.Reply? {
        DequeueServer(s, t, s');
      }
    } else if pc.FindLock? || pc.Finding? || pc.FindUnlock? {
      FindServer(s, t, s');
    } else if pc.Enq? {
      EnqServer(s, t, s');
    } else if pc.CastLock? || pc.Casting? || pc.CastUnlock? {
      CastServer(s, t, s');
    } else {
      MemberServer(s, t, s');
    }
  }

  /** The room a thread points to, if any. */
  function RoomOf(pc: Pc): Option<Id> {
    match pc
    case FindUnlock(_, _, room) => Some(room)
    case CastLock(room, _) => Some(room)
    case Casting(room, _, _) => Some(room)
    case Enq(room, _, _, _, _) => Some(room)
    case CastUnlock(room) => Some(room)
    case AddLock(room) => Some(room)
    case Adding(room) => Some(room)
    case AddUnlock(room) => Some(room)
    case Greet(room) => Some(room)
    case Listen(room) => Some(room)
    case Wait(room) => Some(room)
    case PopLock(room) => Some(room)
    case Pop(room) => Some(room)
    case PopUnlock(room, _) => Some(room)
    case Deliver(room, _) => Some(room)
    case RemLock(room) => Some(room)
    case Removing(room) => Some(room)
    case RemUnlock(room) => Some(room)
    case _ => None
  }

  /** A thread's room pointer comes from the registry and then stays with it. */
  predicate PointerMove(pc: Pc, pc': Pc, registry: map<string, Id>, next: Id) {
    if pc.Finding? then
      && pc'.FindUnlock? && pc'.name == pc.name
      && pc'.room == (if pc.name in registry then registry[pc.name] else next)
    else !pc'.FindUnlock? && (RoomOf(pc') == None || RoomOf(pc') == RoomOf(pc))
  }

  /** The course of a broadcast: all members are visited once each, with one message. */
  predicate CastMove(pc: Pc, pc': Pc, members: set<Id>) {
    match pc'
    case Casting(r, msg, todo) =>
      if pc.CastLock? then r == pc.room && todo == members
      else pc.Enq? && pc.stage.Post? && pc.room == r && pc.msg == msg && pc.todo == todo
    case Enq(r, msg, todo, to, stage) =>
      if pc.Casting? then pc.room == r && pc.msg == msg && to in pc.todo && todo == pc.todo - {to} && stage.NeedLock?
      else
        && pc.Enq? && pc.room == r && pc.msg == msg && pc.todo == todo && pc.to == to
        && NextStage(pc.stage, stage)
    case CastUnlock(r) => pc.Casting? && pc.room == r && pc.todo == {}
    case _ => !pc.Casting? && !pc.Enq?
  }

  predicate NextStage(stage: Stage, stage': Stage) {
    match stage
    case NeedLock => stage'.Push?
    case Push => stage'.Unlock?
    case Unlock => stage'.Post?
    case Post => false
  }

  /** A sender's text stays with the room name it had when the line came. */
  predicate SayMove(pc: Pc, pc': Pc, roomName: string) {
    match pc'
    case FindLock(name, why) => pc.Ready? && (why.SendAll? ==> name == roomName)
    case Finding(name, why) => pc == FindLock(name, why)
    case FindUnlock(name, why, _) => pc == Finding(name, why)
    case CastLock(room, text) => pc.FindUnlock? && pc.why == SendAll(text) && pc.room == room
    case _ => true
  }

  /** Where a receiver's thread can go from the codes that matter for its own queue. */
  predicate ReceiveMove(pc: Pc, pc': Pc, deque: seq<string>) {
    match pc
    case Adding(r) => pc' == AddUnlock(r)
    case AddUnlock(r) => pc' == Greet(r)
    case Greet(r) => pc' == Listen(r)
    case Listen(r) => pc' == Wait(r) || pc' == RemLock(r)
    case Wait(r) => pc' == Listen(r) || pc' == PopLock(r)
    case PopLock(r) => pc' == Pop(r)
    case Pop(r) => deque != [] && pc' == PopUnlock(r, deque[0])
    case PopUnlock(r, m) => pc' == Deliver(r, m)
    case Deliver(r, m) => pc' == Listen(r) || pc' == RemLock(r)
    case RemLock(r) => pc' == Removing(r)
    case Removing(r) => pc' == RemUnlock(r)
    case RemUnlock(r) => pc' == Gone
    case Gone => false
    case _ => Before(pc) && Before(pc')
  }

  ghost predicate Moves(s: State, t: Id, s': State, r: Id) {
    && PointerMove(PcAt(s, t), PcAt(s', t), s.registry, s.nextRoom)
    && ReceiveMove(PcAt(s, t), PcAt(s', t), UserAt(s, t).deque)
    && SayMove(PcAt(s, t), PcAt(s', t), UserAt(s', t).roomName)
    && (RoomOf(PcAt(s, t)) == Some(r) ==> CastMove(PcAt(s, t), PcAt(s', t), RoomAt(s, r).members))
  }

  lemma FindMoves(s: State, t: Id, s': State, r: Id)
    requires FindStep(s, t, s')
    ensures Moves(s, t, s', r)
  {
  }

  lemma CastMoves(s: State, t: Id, s': State, r: Id)
    requires CastStep(s, t, s') && !PcAt(s, t).Enq?
    ensures Moves(s, t, s', r)
  {
  }

  lemma EnqMoves(s: State, t: Id, s': State, r: Id)
    requires CastStep(s, t, s') && PcAt(s, t).Enq?
    ensures Moves(s, t, s', r)
  {
  }

  lemma MemberMoves(s: State, t: Id, s': State, r: Id)
    requires MemberStep(s, t, s')
    ensures Moves(s, t, s', r)
  {
  }

  lemma DeliverMoves(s: State, t: Id, s': State, r: Id)
    requires ReceiveStep(s, t, s') && PcAt(s, t).Deliver?
    ensures Moves(s, t, s', r)
  {
  }

  lemma LookMoves(s: State, t: Id, s': State, r: Id)
    requires ReceiveStep(s, t, s') && Looking(PcAt(s, t))
    ensures Moves(s, t, s', r)
  {
  }

  lemma DequeueMoves(s: State, t: Id, s': State, r: Id)
    requires ReceiveStep(s, t, s') && !PcAt(s, t).Deliver? && !Looking(PcAt(s, t))
    ensures Moves(s, t, s', r)
  {
  }

  lemma ReadyMoves(s: State, t: Id, s': State, r: Id)
    requires PcAt(s, t).Ready? && ReadyStep(s, t, s')
    ensures Moves(s, t, s', r)
  {
  }

  lemma StepMoves(s: State, t: Id, s': State, r: Id)
    requires Step(s, t, s')
    ensures Moves(s, t, s', r)
  {
    var pc := PcAt(s, t);
    if pc.Ready? {
      ReadyMoves(s, t, s', r);
    } else if pc.FindLock? || pc.Finding? || pc.FindUnlock? {
      FindMoves(s, t, s', r);
    } else if pc.Enq? {
      EnqMoves(s, t, s', r);
    } else if pc.CastLock? || pc.Casting? || pc.CastUnlock? {
      CastMoves(s, t, s', r);
    } else if pc.AddLock? || pc.Adding? || pc.AddUnlock? || pc.RemLock? || pc.Removing? || pc.RemUnlock? {
      MemberMoves(s, t, s', r);
    } else if pc.Deliver? {
      DeliverMoves(s, t, s', r);
    } else if Looking(pc) {
      LookMoves(s, t, s', r);
    } else if !pc.Unborn? && !pc.Reply? {
      DequeueMoves(s, t, s', r);
    }
  }

  lemma StepPointer(s: State, t: Id, s': State)
    requires Step(s, t, s')
    ensures PointerMove(PcAt(s, t), PcAt(s', t), s.registry, s.nextRoom)
  {
    StepMoves(s, t, s', 0);
  }

  /** Joining and leaving note the length of the room's log. */
  predicate SubMove(pc: Pc, r: Id, log: seq<string>, sub: Sub, sub': Sub) {
    if pc.Adding? then pc.room == r ==> sub' == In(r, |log|)
    else if pc.Removing? && sub.In? then pc.room == r ==> sub' == Out(r, sub.start, |log|)
    else sub' == sub
  }

  ghost predicate SubSees(s: State, t: Id, s': State, r: Id) {
    SubMove(PcAt(s, t), r, RoomAt(s, r).log, UserAt(s, t).sub, UserAt(s', t).sub)
  }

  lemma MemberSub(s: State, t: Id, s': State, r: Id)
    requires MemberStep(s, t, s')
    ensures SubSees(s, t, s', r)
  {
  }

  lemma StepSub(s: State, t: Id, s': State, r: Id)
    requires Step(s, t, s')
    ensures SubSees(s, t, s', r)
  {
    if PcAt(s, t).Adding? || PcAt(s, t).Removing? {
      MemberSub(s, t, s', r);
    } else {
      StepUser(s, t, s', t);
    }
  }

  /** The codes of a thread that is not, or not yet, a member of a room. */
  predicate Before(pc: Pc) {
    match pc
    case AddUnlock(_) => false
    case Greet(_) => false
    case Listen(_) => false
    case Wait(_) => false
    case PopLock(_) => false
    case Pop(_) => false
    case PopUnlock(_, _) => false
    case Deliver(_, _) => false
    case RemLock(_) => false
    case Removing(_) => false
    case RemUnlock(_) => false
    case _ => true
  }
}
