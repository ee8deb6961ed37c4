/** The invariant behind delivery: what every user was sent, holds in hand and has queued
    is the part of its room's log since it joined, up to the broadcast in progress. */
module ChatInvariant {
  import opened Options
  import opened ChatModel
  import opened ChatEffects
  import opened ChatLocks

  /** The thread inside the critical section of room `r`, by its place in the code. */
  function Caster(s: State, r: Id): Pc {
    match RoomAt(s, r).lock
    case Some(t) => PcAt(s, t)
    case None => Unborn
  }

  /** A broadcast in progress works on the newest message and on members only. */
  predicate CastOk(pc: Pc, room: Room) {
    match pc
    case Casting(_, msg, todo) => room.log != [] && room.log[|room.log| - 1] == msg && todo <= room.members
    case Enq(_, msg, todo, to, _) =>
      && room.log != [] && room.log[|room.log| - 1] == msg
      && todo <= room.members && to in room.members && to !in todo
    case _ => true
  }

  ghost predicate CastsOk(s: State) {
    forall t: Id :: CastAt(s, t)
  }

  predicate Subscribed(user: User, r: Id) { user.sub.In? && user.sub.room == r }

  ghost predicate MembersOk(s: State) {
    forall u: Id, r: Id :: 0 <= r < s.nextRoom ==> (u in RoomAt(s, r).members <==> Subscribed(UserAt(s, u), r))
  }

  /** A message of the broadcast in progress that has not reached the queue of `u` yet. */
  function Due(caster: Pc, u: Id): seq<string> {
    match caster
    case Casting(_, msg, todo) => if u in todo then [msg] else []
    case Enq(_, msg, todo, to, stage) =>
      if u in todo || (to == u && (stage.NeedLock? || stage.Push?)) then [msg] else []
    case _ => []
  }

  /** A message pushed to the queue of `u` and not announced by sem_post yet. */
  function PostDue(caster: Pc, u: Id): nat {
    if caster.Enq? && caster.to == u && (caster.stage.Unlock? || caster.stage.Post?) then 1 else 0
  }

  /** A successful wait whose pop is still to come. */
  function Token(pc: Pc): nat { if pc.PopLock? || pc.Pop? then 1 else 0 }

  function Hand(pc: Pc): seq<string> {
    match pc
    case PopUnlock(_, m) => [m]
    case Deliver(_, m) => [m]
    case _ => []
  }

  /** Everything that ever left the log for this user, oldest first. */
  function Flow(pc: Pc, user: User): seq<string> {
    user.sent + user.lost + Hand(pc) + user.deque
  }

  /** A member's history follows its thread: never in, in the room it works for, out. */
  predicate PhaseOk(pc: Pc, user: User) {
    && (if pc.Gone? then !user.sub.In?
        else if pc.RemUnlock? then user.sub.Out?
        else if Before(pc) then user.sub.Never?
        else RoomOf(pc).Some? && Subscribed(user, RoomOf(pc).value))
    && (pc.RemLock? || pc.Removing? || pc.RemUnlock? || pc.Gone? || user.lost == [])
  }

  predicate CountOk(pc: Pc, user: User, caster: Pc, u: Id) {
    |user.deque| == user.avail + PostDue(caster, u) + Token(pc)
  }

  predicate FlowOk(pc: Pc, user: User, caster: Pc, log: seq<string>, u: Id) {
    match user.sub
    case Never => Flow(pc, user) == []
    case In(_, start) => 0 <= start <= |log| && log[start..] == Flow(pc, user) + Due(caster, u)
    case Out(_, start, end) => 0 <= start <= end <= |log| && log[start..end] == Flow(pc, user)
  }

  /** The room a user is or was in; of no interest before it joins. */
  function SubRoom(user: User): Id { if user.sub.Never? then -1 else user.sub.room }

  /** The broadcast that concerns user `u`, if any. */
  function CasterFor(s: State, u: Id): Pc {
    if UserAt(s, u).sub.In? then Caster(s, UserAt(s, u).sub.room) else Unborn
  }

  ghost predicate UserOk(s: State, u: Id) {
    var user := UserAt(s, u);
    && SubRoom(user) < s.nextRoom
    && (user.sub.Never? || 0 <= user.sub.room)
    && Follows(s, u)
  }

  ghost predicate Inv(s: State) {
    && LocksOk(s) && CastsOk(s) && MembersOk(s)
    && forall u: Id :: UserOk(s, u)
  }

  /** One step seen from the critical section of room `r`. */
  predicate CasterMove(pc: Pc, pc': Pc, r: Id, caster: Pc, caster': Pc) {
    if HoldsRoom(pc, r) then caster == pc && caster' == if HoldsRoom(pc', r) then pc' else Unborn
    else if HoldsRoom(pc', r) then caster == Unborn && caster' == pc'
    else caster' == caster
  }

  lemma StepCaster(s: State, t: Id, s': State, r: Id)
    requires RoomLockOk(s) && Step(s, t, s') && 0 <= r < s.nextRoom
    ensures CasterMove(PcAt(s, t), PcAt(s', t), r, Caster(s, r), Caster(s', r))
  {
    StepRoom(s, t, s', r);
    assert RoomAt(s, r).lock == Some(t) <==> HoldsRoom(PcAt(s, t), r);
    match RoomAt(s', r).lock {
      case Some(x) => if x != t { OthersStay(s, t, s', x); }
      case None =>
    }
  }

  lemma CastLockHolds(pc: Pc, pc': Pc, r: Id, members: set<Id>)
    requires RoomOf(pc) == Some(r) && CastMove(pc, pc', members)
    ensures pc.CastLock? && pc'.Casting? ==> HoldsRoom(pc', r) && !HoldsRoom(pc, r)
  {
  }

  lemma LockedByOther(pc: Pc, pc': Pc, t: Id, x: Id, r: Id, room: Room, room': Room)
    requires RoomEffect(t, pc, pc', r, room, room') && room.lock == Some(x) && !HoldsRoom(pc, r)
    requires pc.CastLock? && pc.room == r && pc'.Casting? ==> HoldsRoom(pc', r)
    ensures room'.members == room.members && room'.log == room.log
  {
  }

  /** Nobody touches the members or the log of a room another thread has locked. */
  lemma LockedRoomStays(s: State, t: Id, s': State, x: Id, r: Id)
    requires RoomLockOk(s) && Step(s, t, s') && x != t && 0 <= r < s.nextRoom && HoldsRoom(PcAt(s, x), r)
    ensures RoomAt(s', r).members == RoomAt(s, r).members && RoomAt(s', r).log == RoomAt(s, r).log
  {
    StepRoom(s, t, s', r);
    StepMoves(s, t, s', r);
    assert RoomAt(s, r).lock == Some(x) <==> HoldsRoom(PcAt(s, x), r);
    assert RoomAt(s, r).lock == Some(t) <==> HoldsRoom(PcAt(s, t), r);
    if RoomOf(PcAt(s, t)) == Some(r) {
      CastLockHolds(PcAt(s, t), PcAt(s', t), r, RoomAt(s, r).members);
    }
    LockedByOther(PcAt(s, t), PcAt(s', t), t, x, r, RoomAt(s, r), RoomAt(s', r));
  }

  lemma CastKept(pc: Pc, pc': Pc, t: Id, r: Id, room: Room, room': Room)
    requires RoomOf(pc) == Some(r) && RoomOf(pc') == Some(r)
    requires CastOk(pc, room) && CastMove(pc, pc', room.members) && RoomEffect(t, pc, pc', r, room, room')
    ensures CastOk(pc', room')
  {
  }

  /** The broadcast of thread `x`, if it is at one, is in order. */
  ghost predicate CastAt(s: State, x: Id) {
    var pc := PcAt(s, x);
    RoomOf(pc).Some? ==> CastOk(pc, RoomAt(s, RoomOf(pc).value))
  }

  lemma OwnCastKept(s: State, t: Id, s': State)
    requires CastAt(s, t) && PointerOk(s, t) && Step(s, t, s')
    ensures CastAt(s', t)
  {
    var pc' := PcAt(s', t);
    if RoomOf(pc').Some? && !pc'.FindUnlock? {
      var r := RoomOf(pc').value;
      StepMoves(s, t, s', r);
      StepRoom(s, t, s', r);
      CastKept(PcAt(s, t), pc', t, r, RoomAt(s, r), RoomAt(s', r));
    }
  }

  lemma OtherCastKept(s: State, t: Id, s': State, x: Id)
    requires CastAt(s, x) && PointerOk(s, x) && RoomLockOk(s) && Step(s, t, s') && x != t
    ensures CastAt(s', x)
  {
    OthersStay(s, t, s', x);
    var pc := PcAt(s, x);
    if pc.Casting? || pc.Enq? {
      LockedRoomStays(s, t, s', x, pc.room);
    }
  }

  lemma CastsKept(s: State, t: Id, s': State)
    requires RoomLockOk(s) && PointersOk(s) && CastsOk(s) && Step(s, t, s')
    ensures CastsOk(s')
  {
    forall x: Id ensures CastAt(s', x) {
      assert CastAt(s, x) && PointerOk(s, x);
      if x == t {
        OwnCastKept(s, t, s');
      } else {
        OtherCastKept(s, t, s', x);
      }
    }
  }

  /** Joining and leaving change the members and the user's own record together. */
  lemma OwnEdge(u: Id, pc: Pc, pc': Pc, r: Id, room: Room, room': Room, user: User, user': User)
    requires RoomEffect(u, pc, pc', r, room, room') && PhaseOk(pc, user)
    requires RoomOf(pc) == Some(r) || RoomOf(pc) == None
    requires SubMove(pc, r, room.log, user.sub, user'.sub)
    requires u in room.members <==> Subscribed(user, r)
    ensures u in room'.members <==> Subscribed(user', r)
  {
  }

  lemma OwnMemberKept(s: State, t: Id, s': State, r: Id)
    requires PhaseOk(PcAt(s, t), UserAt(s, t)) && Step(s, t, s') && 0 <= r < s.nextRoom
    requires t in RoomAt(s, r).members <==> Subscribed(UserAt(s, t), r)
    ensures t in RoomAt(s', r).members <==> Subscribed(UserAt(s', t), r)
  {
    var pc := PcAt(s, t);
    var p := if RoomOf(pc).Some? then RoomOf(pc).value else r;
    StepRoom(s, t, s', r);
    StepSub(s, t, s', p);
    if p == r {
      OwnEdge(t, pc, PcAt(s', t), r, RoomAt(s, r), RoomAt(s', r), UserAt(s, t), UserAt(s', t));
    }
  }

  lemma MemberKept(s: State, t: Id, s': State, u: Id, r: Id)
    requires Inv(s) && Step(s, t, s') && 0 <= r < s.nextRoom
    ensures u in RoomAt(s', r).members <==> Subscribed(UserAt(s', u), r)
  {
    assert u in RoomAt(s, r).members <==> Subscribed(UserAt(s, u), r);
    if u == t {
      assert UserOk(s, t);
      OwnMemberKept(s, t, s', r);
    } else {
      OtherMemberKept(s, t, s', u, r);
    }
  }

  lemma OtherMemberKept(s: State, t: Id, s': State, u: Id, r: Id)
    requires Step(s, t, s') && 0 <= r < s.nextRoom && u != t
    requires u in RoomAt(s, r).members <==> Subscribed(UserAt(s, u), r)
    ensures u in RoomAt(s', r).members <==> Subscribed(UserAt(s', u), r)
  {
    StepRoom(s, t, s', r);
    StepUser(s, t, s', u);
  }

  lemma SubKnown(s: State, t: Id, s': State, u: Id)
    requires Inv(s) && Step(s, t, s')
    ensures SubRoom(UserAt(s', u)) < s.nextRoom <= s'.nextRoom
    ensures UserAt(s', u).sub.Never? || 0 <= UserAt(s', u).sub.room
  {
    assert UserOk(s, u) && PointerOk(s, t);
    StepServer(s, t, s');
    if u == t {
      var pc := PcAt(s, t);
      StepSub(s, t, s', if RoomOf(pc).Some? then RoomOf(pc).value else -1);
    } else {
      StepUser(s, t, s', u);
    }
  }

  lemma MembersKept(s: State, t: Id, s': State)
    requires Inv(s) && Step(s, t, s')
    ensures MembersOk(s')
  {
    StepServer(s, t, s');
    forall u: Id, r: Id | 0 <= r < s'.nextRoom
      ensures u in RoomAt(s', r).members <==> Subscribed(UserAt(s', u), r)
    {
      if r < s.nextRoom {
        MemberKept(s, t, s', u, r);
      } else {
        SubKnown(s, t, s', u);
      }
    }
  }

  /** What thread `t` just added to the log of room `r`, and to the queue of `u`. */
  function Added(pc: Pc, pc': Pc, r: Id): seq<string> {
    if pc.CastLock? && pc.room == r && pc'.Casting? then [pc'.msg] else []
  }

  function Pushed(pc: Pc, u: Id): seq<string> {
    if pc.Enq? && pc.to == u && pc.stage.Push? then [pc.msg] else []
  }

  /** A message becomes due to a member when it enters the log, and stops being due when
      it is pushed to the member's queue. */
  lemma DueMoves(u: Id, t: Id, pc: Pc, pc': Pc, r: Id, room: Room, caster: Pc, caster': Pc)
    requires u in room.members && CasterMove(pc, pc', r, caster, caster')
    requires pc.Enq? && pc.to == u ==> pc.room == r
    requires RoomOf(pc) == Some(r) ==> CastOk(pc, room) && CastMove(pc, pc', room.members)
    requires RoomOf(pc') == Some(r) ==> RoomOf(pc) == Some(r) || pc'.FindUnlock?
    ensures Pushed(pc, u) + Due(caster', u) == Due(caster, u) + Added(pc, pc', r)
  {
    if RoomOf(pc) == Some(r) {
      if pc.CastLock? || pc.Casting? {
        CastingDue(u, pc, pc', r, room, caster, caster');
      } else if pc.Enq? {
        EnqDue(u, pc, pc', r, room, caster, caster');
      }
    }
  }

  lemma CastingDue(u: Id, pc: Pc, pc': Pc, r: Id, room: Room, caster: Pc, caster': Pc)
    requires u in room.members && CasterMove(pc, pc', r, caster, caster') && (pc.CastLock? || pc.Casting?)
    requires RoomOf(pc) == Some(r) && CastOk(pc, room) && CastMove(pc, pc', room.members)
    requires RoomOf(pc') == Some(r) ==> RoomOf(pc) == Some(r) || pc'.FindUnlock?
    ensures Due(caster', u) == Due(caster, u) + Added(pc, pc', r)
  {
  }

  lemma EnqDue(u: Id, pc: Pc, pc': Pc, r: Id, room: Room, caster: Pc, caster': Pc)
    requires u in room.members && CasterMove(pc, pc', r, caster, caster') && pc.Enq?
    requires RoomOf(pc) == Some(r) && CastOk(pc, room) && CastMove(pc, pc', room.members)
    ensures Pushed(pc, u) + Due(caster', u) == Due(caster, u)
  {
  }

  lemma SameFlow(log: seq<string>, start: int, flow: seq<string>, pushed: seq<string>, due: seq<string>,
                 due': seq<string>, added: seq<string>)
    requires 0 <= start <= |log| && log[start..] == flow + due && pushed + due' == due + added
    ensures (log + added)[start..] == flow + pushed + due'
  {
    assert flow + pushed + due' == flow + (pushed + due');
    assert flow + (due + added) == flow + due + added;
  }

  lemma PushedFlow(own: Pc, user: User, user': User, pushed: seq<string>)
    requires user'.sent == user.sent && user'.lost == user.lost && user'.deque == user.deque + pushed
    ensures Flow(own, user') == Flow(own, user) + pushed
  {
  }

  /** A step of another thread `t`, seen from the user `u`, a member of room `r`. */
  lemma OtherFlow(u: Id, t: Id, pc: Pc, pc': Pc, r: Id, room: Room, room': Room, own: Pc,
                  user: User, user': User, caster: Pc, caster': Pc)
    requires u != t && Subscribed(user, r) && u in room.members
    requires CasterMove(pc, pc', r, caster, caster') && RoomEffect(t, pc, pc', r, room, room')
    requires UserEffect(t, pc, pc', u, user, user')
    requires pc.Enq? && pc.to == u ==> pc.room == r
    requires RoomOf(pc) == Some(r) ==> CastOk(pc, room) && CastMove(pc, pc', room.members)
    requires RoomOf(pc') == Some(r) ==> RoomOf(pc) == Some(r) || pc'.FindUnlock?
    requires FlowOk(own, user, caster, room.log, u)
    ensures FlowOk(own, user', caster', room'.log, u)
  {
    var pushed, added, flow := Pushed(pc, u), Added(pc, pc', r), Flow(own, user);
    var due, due' := Due(caster, u), Due(caster', u);
    assert pushed + due' == due + added by { DueMoves(u, t, pc, pc', r, room, caster, caster'); }
    assert room'.log == room.log + added;
    assert Flow(own, user') == flow + pushed by { PushedFlow(own, user, user', pushed); }
    SameFlow(room.log, user.sub.start, flow, pushed, due, due', added);
  }

  lemma OtherCount(u: Id, t: Id, pc: Pc, pc': Pc, r: Id, members: set<Id>, own: Pc,
                   user: User, user': User, caster: Pc, caster': Pc)
    requires u != t && Subscribed(user, r) && u in members
    requires CasterMove(pc, pc', r, caster, caster')
    requires UserEffect(t, pc, pc', u, user, user')
    requires pc.Enq? && pc.to == u ==> pc.room == r
    requires RoomOf(pc) == Some(r) ==> CastMove(pc, pc', members)
    requires RoomOf(pc') == Some(r) ==> RoomOf(pc) == Some(r) || pc'.FindUnlock?
    requires CountOk(own, user, caster, u)
    ensures CountOk(own, user', caster', u)
  {
  }

  /** Waiting, popping and sending move messages along without changing their order. */
  lemma SameOwnFlow(u: Id, pc: Pc, pc': Pc, user: User, user': User)
    requires !Before(pc) && ReceiveMove(pc, pc', user.deque) && UserEffect(u, pc, pc', u, user, user')
    requires pc.Deliver? ==> user.lost == []
    ensures Flow(pc', user') == Flow(pc, user)
  {
    if pc.Pop? {
      assert user.deque == [user.deque[0]] + user.deque[1..];
    }
  }

  /** A step of the user's own thread while it stays a member. */
  lemma OwnFlow(u: Id, pc: Pc, pc': Pc, r: Id, log: seq<string>, user: User, user': User, caster: Pc, caster': Pc)
    requires PhaseOk(pc, user) && Subscribed(user, r) && !pc.Removing? && user'.sub == user.sub
    requires ReceiveMove(pc, pc', user.deque) && UserEffect(u, pc, pc', u, user, user')
    requires CasterMove(pc, pc', r, caster, caster')
    requires FlowOk(pc, user, caster, log, u)
    ensures FlowOk(pc', user', caster', log, u)
  {
    SameOwnFlow(u, pc, pc', user, user');
    assert Due(caster', u) == Due(caster, u);
  }

  lemma OwnCount(u: Id, pc: Pc, pc': Pc, r: Id, user: User, user': User, caster: Pc, caster': Pc)
    requires PhaseOk(pc, user) && Subscribed(user, r) && !pc.Removing? && user'.sub == user.sub
    requires ReceiveMove(pc, pc', user.deque) && UserEffect(u, pc, pc', u, user, user')
    requires CasterMove(pc, pc', r, caster, caster')
    requires CountOk(pc, user, caster, u)
    ensures CountOk(pc', user', caster', u) && PhaseOk(pc', user')
  {
  }

  /** Joining: the receiver's part of the log begins, empty. */
  lemma JoinOk(u: Id, pc: Pc, pc': Pc, log: seq<string>, user: User, user': User, caster': Pc)
    requires PhaseOk(pc, user) && pc.Adding? && user'.sub == In(pc.room, |log|)
    requires ReceiveMove(pc, pc', user.deque) && UserEffect(u, pc, pc', u, user, user')
    requires CasterMove(pc, pc', pc.room, pc, caster')
    requires FlowOk(pc, user, Unborn, [], u) && CountOk(pc, user, Unborn, u)
    ensures FlowOk(pc', user', caster', log, u) && CountOk(pc', user', caster', u) && PhaseOk(pc', user')
  {
  }

  /** Leaving: the receiver's part of the log ends here. */
  lemma LeaveOk(u: Id, pc: Pc, pc': Pc, log: seq<string>, user: User, user': User)
    requires PhaseOk(pc, user) && pc.Removing? && user'.sub == Out(pc.room, user.sub.start, |log|)
    requires ReceiveMove(pc, pc', user.deque) && UserEffect(u, pc, pc', u, user, user')
    requires FlowOk(pc, user, pc, log, u) && CountOk(pc, user, pc, u)
    ensures FlowOk(pc', user', Unborn, log, u) && CountOk(pc', user', Unborn, u) && PhaseOk(pc', user')
  {
  }

  /** Outside a room nothing reaches a user's queue. */
  lemma AwayOk(u: Id, t: Id, pc: Pc, pc': Pc, own: Pc, own': Pc, log: seq<string>, log': seq<string>,
      user: User, user': User)
    requires PhaseOk(own, user) && !user.sub.In? && user'.sub == user.sub
    requires if t == u then own == pc && own' == pc' && ReceiveMove(pc, pc', user.deque) && !pc.Adding? else own' == own
    requires UserEffect(t, pc, pc', u, user, user') && !(pc.Enq? && pc.to == u)
    requires log <= log'
    requires FlowOk(own, user, Unborn, log, u) && CountOk(own, user, Unborn, u)
    ensures FlowOk(own', user', Unborn, log', u) && CountOk(own', user', Unborn, u) && PhaseOk(own', user')
  {
    if user.sub.Out? {
      var start, end := user.sub.start, user.sub.end;
      assert log'[start..end] == log[start..end];
    }
  }

  /** An enqueuer works for the room the addressee is in. */
  lemma EnqueuesToMember(s: State, t: Id)
    requires Inv(s) && PcAt(s, t).Enq?
    ensures Subscribed(UserAt(s, PcAt(s, t).to), PcAt(s, t).room)
    ensures 0 <= PcAt(s, t).room < s.nextRoom
  {
    assert PointerOk(s, t) && CastAt(s, t);
  }

  /** Everything one step means to the user `u` and a room `r`, the critical section of `r`
      included. */
  ghost predicate Seen(s: State, t: Id, s': State, u: Id, r: Id) {
    var pc, pc' := PcAt(s, t), PcAt(s', t);
    && RoomSees(s, t, s', r) && UserSees(s, t, s', u) && SubSees(s, t, s', r) && Moves(s, t, s', r)
    && (0 <= r ==> CasterMove(pc, pc', r, Caster(s, r), Caster(s', r)))
    && (u != t ==> PcAt(s', u) == PcAt(s, u))
    && (RoomOf(pc) == Some(r) ==> CastOk(pc, RoomAt(s, r)))
    && (0 <= r && u in RoomAt(s, r).members ==> Subscribed(UserAt(s, u), r))
    && (0 <= r && Subscribed(UserAt(s, u), r) ==> u in RoomAt(s, r).members)
    && (pc.Enq? ==> Subscribed(UserAt(s, pc.to), pc.room))
  }

  lemma SeenBy(s: State, t: Id, s': State, u: Id, r: Id)
    requires Inv(s) && Step(s, t, s') && r < s.nextRoom
    ensures Seen(s, t, s', u, r)
  {
    StepRoom(s, t, s', r);
    StepUser(s, t, s', u);
    StepSub(s, t, s', r);
    StepMoves(s, t, s', r);
    assert CastAt(s, t);
    if 0 <= r {
      StepCaster(s, t, s', r);
      assert u in RoomAt(s, r).members <==> Subscribed(UserAt(s, u), r);
    }
    if u != t {
      OthersStay(s, t, s', u);
    }
    if PcAt(s, t).Enq? {
      EnqueuesToMember(s, t);
    }
  }

  /** What the invariant says of a user besides the range of its room number. */
  ghost predicate Follows(s: State, u: Id) {
    var user, pc := UserAt(s, u), PcAt(s, u);
    && PhaseOk(pc, user) && CountOk(pc, user, CasterFor(s, u), u)
    && FlowOk(pc, user, CasterFor(s, u), RoomAt(s, SubRoom(user)).log, u)
  }

  lemma OtherKept(s: State, t: Id, s': State, u: Id, r: Id)
    requires Subscribed(UserAt(s, u), r) && 0 <= r && Follows(s, u) && Seen(s, t, s', u, r) && u != t
    ensures Follows(s', u)
  {
    OtherCount(u, t, PcAt(s, t), PcAt(s', t), r, RoomAt(s, r).members, PcAt(s, u),
               UserAt(s, u), UserAt(s', u), Caster(s, r), Caster(s', r));
    OtherFlow(u, t, PcAt(s, t), PcAt(s', t), r, RoomAt(s, r), RoomAt(s', r), PcAt(s, u),
              UserAt(s, u), UserAt(s', u), Caster(s, r), Caster(s', r));
  }

  lemma AwayKept(s: State, t: Id, s': State, u: Id)
    requires Follows(s, u) && Seen(s, t, s', u, SubRoom(UserAt(s, u)))
    requires !UserAt(s, u).sub.In? && !(u == t && PcAt(s, t).Adding?)
    ensures Follows(s', u)
  {
    var r := SubRoom(UserAt(s, u));
    AwayOk(u, t, PcAt(s, t), PcAt(s', t), PcAt(s, u), PcAt(s', u), RoomAt(s, r).log, RoomAt(s', r).log,
           UserAt(s, u), UserAt(s', u));
  }

  lemma JoinKept(s: State, t: Id, s': State, r: Id)
    requires PcAt(s, t) == Adding(r) && 0 <= r && Follows(s, t) && Seen(s, t, s', t, r)
    ensures Follows(s', t)
  {
    JoinOk(t, PcAt(s, t), PcAt(s', t), RoomAt(s, r).log, UserAt(s, t), UserAt(s', t), Caster(s', r));
  }

  lemma OwnKept(s: State, t: Id, s': State, r: Id)
    requires Subscribed(UserAt(s, t), r) && 0 <= r && Follows(s, t) && Seen(s, t, s', t, r)
    ensures Follows(s', t)
  {
    if PcAt(s, t).Removing? {
      LeaveOk(t, PcAt(s, t), PcAt(s', t), RoomAt(s, r).log, UserAt(s, t), UserAt(s', t));
    } else {
      OwnCount(t, PcAt(s, t), PcAt(s', t), r, UserAt(s, t), UserAt(s', t), Caster(s, r), Caster(s', r));
      OwnFlow(t, PcAt(s, t), PcAt(s', t), r, RoomAt(s, r).log, UserAt(s, t), UserAt(s', t), Caster(s, r),
          Caster(s', r));
    }
  }

  lemma UserKept(s: State, t: Id, s': State, u: Id)
    requires Inv(s) && Step(s, t, s')
    ensures UserOk(s', u)
  {
    assert UserOk(s, u) && PointerOk(s, t);
    SubKnown(s, t, s', u);
    var user, pc := UserAt(s, u), PcAt(s, t);
    if u == t && pc.Adding? {
      SeenBy(s, t, s', u, pc.room);
      JoinKept(s, t, s', pc.room);
    } else {
      SeenBy(s, t, s', u, SubRoom(user));
      if !user.sub.In? {
        AwayKept(s, t, s', u);
      } else if u == t {
        OwnKept(s, t, s', user.sub.room);
      } else {
        OtherKept(s, t, s', u, user.sub.room);
      }
    }
  }

  /** Every step keeps the invariant. */
  lemma InvKept(s: State, t: Id, s': State)
    requires Inv(s) && Step(s, t, s')
    ensures Inv(s')
  {
    LocksKept(s, t, s');
    CastsKept(s, t, s');
    MembersKept(s, t, s');
    forall u: Id ensures UserOk(s', u) {
      UserKept(s, t, s', u);
    }
  }

  lemma InitOk(s: State)
    requires Init(s)
    ensures Inv(s)
  {
  }

  lemma {:induction false} ReachableOk(run: seq<State>, i: nat)
    requires Execution(run) && i < |run|
    ensures Inv(run[i])
  {
    if i == 0 {
      InitOk(run[0]);
    } else {
      ReachableOk(run, i - 1);
      assert Continues(run, i - 1);
      var t: Id :| Step(run[i - 1], t, run[i]);
      InvKept(run[i - 1], t, run[i]);
    }
  }
}
