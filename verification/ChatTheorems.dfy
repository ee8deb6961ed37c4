/** What the clients of the chat server may rely on, in every state of every run. */
module ChatTheorems {
  import opened Options
  import opened ChatModel
  import opened ChatEffects
  import opened ChatLocks
  import opened ChatInvariant

  /** What has left the room's log for the user `u`: sent, lost, in hand and queued. */
  function FlowOf(s: State, u: Id): seq<string> { Flow(PcAt(s, u), UserAt(s, u)) }

  /** Is a broadcast going on in room `r` that has not come to member `u` yet? */
  predicate Awaits(s: State, r: Id, u: Id) { Due(Caster(s, r), u) != [] }

  /** Total-order delivery: everything a member was sent, holds in hand and has queued is
      the room's log from the moment it joined, each message once and in order; only the
      newest message can be missing, while its broadcast is still going on. */
  lemma TotalOrder(run: seq<State>, i: nat, u: Id)
    requires Execution(run) && i < |run| && UserAt(run[i], u).sub.In?
    ensures var s := run[i];
            var sub := UserAt(s, u).sub;
            var log := RoomAt(s, sub.room).log;
            && 0 <= sub.start <= |log| && u in RoomAt(s, sub.room).members
            && (Awaits(s, sub.room, u) ==> sub.start < |log|)
            && FlowOf(s, u) == (if Awaits(s, sub.room, u) then log[sub.start..|log| - 1] else log[sub.start..])
  {
    ReachableOk(run, i);
    var s := run[i];
    var sub := UserAt(s, u).sub;
    assert UserOk(s, u);
    assert u in RoomAt(s, sub.room).members <==> Subscribed(UserAt(s, u), sub.room);
    assert |Due(Caster(s, sub.room), u)| <= 1;
  }

  /** After it left, a receiver has been sent exactly the messages of its stay, up to those
      it never took from its queue; before it joined it has been sent nothing. */
  lemma SentIsAStay(run: seq<State>, i: nat, u: Id)
    requires Execution(run) && i < |run| && !UserAt(run[i], u).sub.In?
    ensures var s := run[i];
            var sub := UserAt(s, u).sub;
            if sub.Never? then FlowOf(s, u) == []
            else
              && 0 <= sub.start <= sub.end <= |RoomAt(s, sub.room).log|
              && FlowOf(s, u) == RoomAt(s, sub.room).log[sub.start..sub.end]
              && UserAt(s, u).sent <= RoomAt(s, sub.room).log[sub.start..sub.end]
  {
    ReachableOk(run, i);
    assert UserOk(run[i], u);
  }

  lemma SliceAt(log: seq<string>, start: int, end: int, place: int)
    requires 0 <= start <= place < end <= |log|
    ensures log[start..end][place - start] == log[place]
  {
  }

  /** Up to where in its room's log a receiver is certain to have everything: short of the
      newest message while it is in, up to its leaving once it is out. */
  function Certain(s: State, u: Id): int {
    match UserAt(s, u).sub
    case Never => 0
    case In(r, _) => |RoomAt(s, r).log| - 1
    case Out(_, _, end) => end
  }

  /** A receiver that has joined has, at its own distance from its join, each message of its
      stay but perhaps the newest. */
  lemma SeesPlace(run: seq<State>, i: nat, u: Id, place: int)
    requires Execution(run) && i < |run| && !UserAt(run[i], u).sub.Never?
    requires UserAt(run[i], u).sub.start <= place < Certain(run[i], u)
    ensures var s := run[i];
            var sub := UserAt(s, u).sub;
            && 0 <= sub.room < s.nextRoom && 0 <= sub.start
            && place - sub.start < |FlowOf(s, u)| && place < |RoomAt(s, sub.room).log|
            && FlowOf(s, u)[place - sub.start] == RoomAt(s, sub.room).log[place]
  {
    ReachableOk(run, i);
    var s := run[i];
    var sub := UserAt(s, u).sub;
    var log := RoomAt(s, sub.room).log;
    assert UserOk(s, u);
    if sub.In? {
      TotalOrder(run, i, u);
      SliceAt(log, sub.start, |log| - 1, place);
      SliceAt(log, sub.start, |log|, place);
    } else {
      SentIsAStay(run, i, u);
      SliceAt(log, sub.start, sub.end, place);
    }
  }

  /** How one state's history continues in a later one. */
  ghost predicate Extends(s: State, s': State, u: Id, r: Id) {
    && RoomAt(s, r).log <= RoomAt(s', r).log && RoomAt(s', r).name == RoomAt(s, r).name
    && UserAt(s, u).sent <= UserAt(s', u).sent
    && (UserAt(s, u).sub.Never? || UserAt(s', u).sub == UserAt(s, u).sub
        || (UserAt(s, u).sub.In? && UserAt(s', u).sub.Out?
            && UserAt(s', u).sub.room == UserAt(s, u).sub.room && UserAt(s', u).sub.start == UserAt(s, u).sub.start))
  }

  lemma StepExtends(s: State, t: Id, s': State, u: Id, r: Id)
    requires Inv(s) && Step(s, t, s') && 0 <= r < s.nextRoom
    ensures Extends(s, s', u, r) && s.nextRoom <= s'.nextRoom
  {
    StepRoom(s, t, s', r);
    StepUser(s, t, s', u);
    StepServer(s, t, s');
    assert UserOk(s, u);
    if u == t {
      StepSub(s, t, s', if RoomOf(PcAt(s, t)).Some? then RoomOf(PcAt(s, t)).value else r);
    }
  }

  /** The step that led to the state at `j`. */
  lemma LastStep(run: seq<State>, j: nat) returns (t: Id)
    requires Execution(run) && 0 < j < |run|
    ensures Step(run[j - 1], t, run[j]) && Inv(run[j - 1])
  {
    ReachableOk(run, j - 1);
    assert Continues(run, j - 1);
    t :| Step(run[j - 1], t, run[j]);
  }

  lemma LastExtends(run: seq<State>, j: nat, u: Id, r: Id)
    requires Execution(run) && 0 < j < |run| && 0 <= r < run[j - 1].nextRoom
    ensures Extends(run[j - 1], run[j], u, r) && run[j - 1].nextRoom <= run[j].nextRoom
  {
    var t := LastStep(run, j);
    StepExtends(run[j - 1], t, run[j], u, r);
  }

  lemma ExtendsOnward(a: State, b: State, c: State, u: Id, r: Id)
    requires Extends(a, b, u, r) && Extends(b, c, u, r)
    ensures Extends(a, c, u, r)
  {
  }

  /** What was broadcast or sent is never revised, and a receiver has one stay only. */
  lemma {:induction false} HistoryGrows(run: seq<State>, i: nat, j: nat, u: Id, r: Id)
    requires Execution(run) && i <= j < |run| && 0 <= r < run[i].nextRoom
    ensures Extends(run[i], run[j], u, r) && run[i].nextRoom <= run[j].nextRoom
  {
    if i < j {
      HistoryGrows(run, i, j - 1, u, r);
      LastExtends(run, j, u, r);
      ExtendsOnward(run[i], run[j - 1], run[j], u, r);
    }
  }

  /** Two receivers of one room, each still in or already out, have the same message for the
      same place of its log, whenever one looks at either: so never two messages in opposite
      orders, and neither skips what the other has. */
  lemma ReceiversAgree(run: seq<State>, i: nat, j: nat, u: Id, v: Id, place: int)
    requires Execution(run) && i <= j < |run|
    requires !UserAt(run[i], u).sub.Never? && !UserAt(run[j], v).sub.Never?
    requires UserAt(run[i], u).sub.room == UserAt(run[j], v).sub.room
    requires UserAt(run[i], u).sub.start <= place < Certain(run[i], u)
    requires UserAt(run[j], v).sub.start <= place < Certain(run[j], v)
    ensures var a, b := place - UserAt(run[i], u).sub.start, place - UserAt(run[j], v).sub.start;
            && 0 <= a < |FlowOf(run[i], u)| && 0 <= b < |FlowOf(run[j], v)|
            && FlowOf(run[i], u)[a] == FlowOf(run[j], v)[b]
  {
    SeesPlace(run, i, u, place);
    SeesPlace(run, j, v, place);
    HistoryGrows(run, i, j, u, UserAt(run[i], u).sub.room);
  }

  /** A dequeuer past its wait always finds a message, and the semaphore never counts more
      than the queue holds. */
  lemma PopIsSafe(run: seq<State>, i: nat, u: Id)
    requires Execution(run) && i < |run|
    ensures var s := run[i];
            |UserAt(s, u).deque| == UserAt(s, u).avail + PostDue(CasterFor(s, u), u) + Token(PcAt(s, u))
    ensures PcAt(run[i], u).Pop? ==> UserAt(run[i], u).deque != []
  {
    ReachableOk(run, i);
    assert UserOk(run[i], u);
  }

  /** At most one thread is inside each critical section. */
  lemma MutualExclusion(run: seq<State>, i: nat, t: Id, x: Id, r: Id, u: Id)
    requires Execution(run) && i < |run| && t != x && 0 <= r < run[i].nextRoom
    ensures var s := run[i];
            && !(HoldsServer(PcAt(s, t)) && HoldsServer(PcAt(s, x)))
            && !(HoldsRoom(PcAt(s, t), r) && HoldsRoom(PcAt(s, x), r))
            && !(HoldsQueue(PcAt(s, t), t, u) && HoldsQueue(PcAt(s, x), x, u))
  {
    ReachableOk(run, i);
    var s := run[i];
    assert s.serverLock == Some(t) <==> HoldsServer(PcAt(s, t));
    assert s.serverLock == Some(x) <==> HoldsServer(PcAt(s, x));
    assert RoomAt(s, r).lock == Some(t) <==> HoldsRoom(PcAt(s, t), r);
    assert RoomAt(s, r).lock == Some(x) <==> HoldsRoom(PcAt(s, x), r);
    assert UserAt(s, u).qlock == Some(t) <==> HoldsQueue(PcAt(s, t), t, u);
    assert UserAt(s, u).qlock == Some(x) <==> HoldsQueue(PcAt(s, x), x, u);
  }

  lemma LastRegistry(run: seq<State>, j: nat, name: string)
    requires Execution(run) && 0 < j < |run| && name in run[j - 1].registry
    ensures name in run[j].registry && run[j].registry[name] == run[j - 1].registry[name]
  {
    var t := LastStep(run, j);
    RegistryKept(run[j - 1], t, run[j]);
  }

  /** A name keeps its Room object for the whole run. */
  lemma {:induction false} OneRoomPerName(run: seq<State>, i: nat, j: nat, name: string)
    requires Execution(run) && i <= j < |run| && name in run[i].registry
    ensures name in run[j].registry && run[j].registry[name] == run[i].registry[name]
  {
    if i < j {
      OneRoomPerName(run, i, j - 1, name);
      LastRegistry(run, j, name);
    }
  }

  /** The registry is exactly the correspondence between rooms and their names. */
  lemma RegistryIsExact(run: seq<State>, i: nat, name: string, r: Id)
    requires Execution(run) && i < |run| && 0 <= r < run[i].nextRoom
    ensures RoomAt(run[i], r).name == name <==> name in run[i].registry && run[i].registry[name] == r
  {
    ReachableOk(run, i);
  }

  /** A sender's text is on its way to the room the sender joined last. */
  predicate SayOk(pc: Pc, roomName: string, room: Room) {
    match pc
    case FindLock(name, why) => why.SendAll? ==> name == roomName
    case Finding(name, why) => why.SendAll? ==> name == roomName
    case FindUnlock(name, why, _) => why.SendAll? ==> name == roomName && room.name == roomName
    case _ => InSay(pc) ==> room.name == roomName
  }

  function PointedRoom(s: State, t: Id): Room {
    if RoomOf(PcAt(s, t)).Some? then RoomAt(s, RoomOf(PcAt(s, t)).value) else NO_ROOM
  }

  ghost predicate SaysOk(s: State) {
    forall t: Id :: SayOk(PcAt(s, t), UserAt(s, t).roomName, PointedRoom(s, t))
  }

  lemma OtherSayKept(s: State, t: Id, s': State, x: Id)
    requires Inv(s) && SaysOk(s) && Step(s, t, s') && x != t
    ensures SayOk(PcAt(s', x), UserAt(s', x).roomName, PointedRoom(s', x))
  {
    assert PointerOk(s, x);
    assert SayOk(PcAt(s, x), UserAt(s, x).roomName, PointedRoom(s, x));
    OthersStay(s, t, s', x);
    StepUser(s, t, s', x);
    if RoomOf(PcAt(s, x)).Some? {
      StepRoom(s, t, s', RoomOf(PcAt(s, x)).value);
    }
  }

  lemma OwnSay(pc: Pc, pc': Pc, roomName: string, roomName': string, room: Room, room': Room)
    requires SayOk(pc, roomName, room) && SayMove(pc, pc', roomName')
    requires InSay(pc) ==> roomName' == roomName
    requires pc'.FindUnlock? ==> room'.name == pc'.name
    requires RoomOf(pc').Some? && !pc'.FindUnlock? ==> room'.name == room.name
    requires pc'.Casting? || pc'.Enq? || pc'.CastUnlock? ==> pc.CastLock? || pc.Casting? || pc.Enq?
    ensures SayOk(pc', roomName', room')
  {
  }

  /** A step leads to the room of the name asked for, or leaves the room's name alone. */
  lemma PointedName(s: State, t: Id, s': State)
    requires RegistryOk(s) && PointersOk(s) && Step(s, t, s')
    ensures PcAt(s', t).FindUnlock? ==> PointedRoom(s', t).name == PcAt(s', t).name
    ensures RoomOf(PcAt(s', t)).Some? && !PcAt(s', t).FindUnlock? ==> PointedRoom(s', t).name == PointedRoom(s, t).name
  {
    PointersKept(s, t, s');
    RegistryKept(s, t, s');
    StepPointer(s, t, s');
    assert PointerOk(s, t) && PointerOk(s', t);
  }

  lemma OwnSayKept(s: State, t: Id, s': State)
    requires Step(s, t, s') && SayOk(PcAt(s, t), UserAt(s, t).roomName, PointedRoom(s, t))
    requires PcAt(s', t).FindUnlock? ==> PointedRoom(s', t).name == PcAt(s', t).name
    requires RoomOf(PcAt(s', t)).Some? && !PcAt(s', t).FindUnlock? ==> PointedRoom(s', t).name == PointedRoom(s, t).name
    ensures SayOk(PcAt(s', t), UserAt(s', t).roomName, PointedRoom(s', t))
  {
    var pc, pc' := PcAt(s, t), PcAt(s', t);
    StepMoves(s, t, s', if RoomOf(pc).Some? then RoomOf(pc).value else -1);
    StepUser(s, t, s', t);
    OwnSay(pc, pc', UserAt(s, t).roomName, UserAt(s', t).roomName, PointedRoom(s, t), PointedRoom(s', t));
  }

  lemma {:induction false} SaysReachable(run: seq<State>, i: nat)
    requires Execution(run) && i < |run|
    ensures SaysOk(run[i])
  {
    if i > 0 {
      SaysReachable(run, i - 1);
      var t := LastStep(run, i);
      var s, s' := run[i - 1], run[i];
      forall x: Id ensures SayOk(PcAt(s', x), UserAt(s', x).roomName, PointedRoom(s', x)) {
        assert SayOk(PcAt(s, x), UserAt(s, x).roomName, PointedRoom(s, x));
        if x == t {
          PointedName(s, t, s');
          OwnSayKept(s, t, s');
        } else {
          OtherSayKept(s, t, s', x);
        }
      }
    }
  }

  /** A room's log grows only by what a sender says: the one Room registered under the name
      of the room that sender joined last gets the room's name, the sender's and the text. */
  lemma LogIsWhatWasSaid(run: seq<State>, i: nat, t: Id, s': State, r: Id)
    requires Execution(run) && i < |run| && Step(run[i], t, s') && 0 <= r < run[i].nextRoom
    ensures var s := run[i];
            var roomName := UserAt(s, t).roomName;
            RoomAt(s', r).log == RoomAt(s, r).log
            || (&& PcAt(s, t).CastLock? && roomName in s.registry && s.registry[roomName] == r
                && RoomAt(s', r).log
                   == RoomAt(s, r).log + [roomName + ":" + ThreadAt(s, t).username + ":" + PcAt(s, t).text])
  {
    SaysReachable(run, i);
    ReachableOk(run, i);
    var s := run[i];
    StepRoom(s, t, s', r);
    assert SayOk(PcAt(s, t), UserAt(s, t).roomName, PointedRoom(s, t));
  }
}
