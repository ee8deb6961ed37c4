/** The chat server as a transition system over any number of client threads, rooms and
    users. One step of one thread is one lock or unlock, one deque operation, one
    semaphore operation, one network operation, or one critical section's own work. */
module ChatModel {
  import opened Options

  /** The identity of a thread, of the User it created, or of a Room object. */
  type Id = int

  /** Why a thread asks the server for a room. */
  datatype Why = JoinAsSender | SendAll(text: string) | JoinAsReceiver

  /** Inside MessageQueue::enqueue. */
  datatype Stage = NeedLock | Push | Unlock | Post

  /** Where a client thread is. `room` stands for the Room pointer it holds. */
  datatype Pc =
    | Unborn | Gone
    | Ready
    | Reply(ok: bool, last: bool)
    | FindLock(name: string, why: Why) | Finding(name: string, why: Why)
    | FindUnlock(name: string, why: Why, room: Id)
    | CastLock(room: Id, text: string)
    | Casting(room: Id, msg: string, todo: set<Id>)
    | Enq(room: Id, msg: string, todo: set<Id>, to: Id, stage: Stage)
    | CastUnlock(room: Id)
    | AddLock(room: Id) | Adding(room: Id) | AddUnlock(room: Id) | Greet(room: Id)
    | Listen(room: Id) | Wait(room: Id)
    | PopLock(room: Id) | Pop(room: Id) | PopUnlock(room: Id, msg: string)
    | Deliver(room: Id, msg: string)
    | RemLock(room: Id) | Removing(room: Id) | RemUnlock(room: Id)

  /** What a sender can ask for, its text already cut from the line. */
  datatype Request = Join(name: string) | Say(text: string) | Leave | Quit | Unknown

  datatype Thread = Thread(sender: bool, username: string, open: bool, pc: Pc)

  /** When a user was in a room: from which position of the room's log, and to which. */
  datatype Sub = Never | In(room: Id, start: int) | Out(room: Id, start: int, end: int)

  /** The User object of a thread with its message queue. `sub`, `sent` and `lost` are
      history: what the client was sent, and the message a failed send destroyed. */
  datatype User = User(roomName: string, deque: seq<string>, avail: nat, qlock: Option<Id>,
                       sub: Sub, sent: seq<string>, lost: seq<string>)

  /** `log` is history: every message broadcast in the room, in order. */
  datatype Room = Room(name: string, lock: Option<Id>, members: set<Id>, log: seq<string>)

  datatype State = State(serverLock: Option<Id>, registry: map<string, Id>, nextRoom: Id,
                         rooms: map<Id, Room>, users: map<Id, User>, threads: map<Id, Thread>)

  const NO_ROOM := Room("", None, {}, [])
  const NEW_USER := User("", [], 0, None, Never, [], [])
  const NO_THREAD := Thread(false, "", true, Unborn)

  function RoomAt(s: State, r: Id): Room { if r in s.rooms then s.rooms[r] else NO_ROOM }

  function UserAt(s: State, u: Id): User { if u in s.users then s.users[u] else NEW_USER }

  function ThreadAt(s: State, t: Id): Thread { if t in s.threads then s.threads[t] else NO_THREAD }

  function PcAt(s: State, t: Id): Pc { ThreadAt(s, t).pc }

  function Go(s: State, t: Id, pc: Pc): State {
    s.(threads := s.threads[t := ThreadAt(s, t).(pc := pc)])
  }

  function PutUser(s: State, u: Id, user: User): State { s.(users := s.users[u := user]) }

  function PutRoom(s: State, r: Id, room: Room): State { s.(rooms := s.rooms[r := room]) }

  function Named(s: State, t: Id, name: string): State {
    PutUser(s, t, UserAt(s, t).(roomName := name))
  }

  /** The connection was found open or closed on the way to `pc`. */
  function GoOpen(s: State, t: Id, pc: Pc, open: bool): State {
    s.(threads := s.threads[t := ThreadAt(s, t).(pc := pc, open := open)])
  }

  ghost predicate Init(s: State) {
    s == State(None, map[], 0, map[], map[], map[])
  }

  /** A new client connects and logs in. */
  ghost predicate Connect(s: State, t: Id, s': State) {
    exists sender: bool, username: string ::
      s' == s.(threads := s.threads[t := Thread(sender, username, true, Ready)])
  }

  /** A sender's request, once received. */
  function Handle(s: State, t: Id, q: Request): State {
    match q
    case Join(name) => Go(s, t, FindLock(name, JoinAsSender))
    case Say(text) =>
      if UserAt(s, t).roomName == "" then Go(s, t, Reply(false, false))
      else Go(s, t, FindLock(UserAt(s, t).roomName, SendAll(text)))
    case Leave =>
      if UserAt(s, t).roomName == "" then Go(s, t, Reply(false, false))
      else Go(Named(s, t, ""), t, Reply(true, false))
    case Quit => Go(Named(s, t, ""), t, Reply(true, true))
    case Unknown => Go(s, t, Reply(false, false))
  }

  /** Waiting for the client's next line. A receiver must begin with a join; a sender's
      line may be malformed, which gets no answer; either connection may be at its end. */
  ghost predicate ReadyStep(s: State, t: Id, s': State) {
    || s' == Go(s, t, Gone)
    || (ThreadAt(s, t).sender && (s' == s || exists q :: s' == Handle(s, t, q)))
    || (!ThreadAt(s, t).sender && exists name: string :: s' == Go(s, t, FindLock(name, JoinAsReceiver)))
  }

  /** find_or_create_room, under the server lock. */
  ghost predicate FindStep(s: State, t: Id, s': State) {
    match PcAt(s, t)
    case FindLock(name, why) =>
      s.serverLock == None && s' == Go(s, t, Finding(name, why)).(serverLock := Some(t))
    case Finding(name, why) =>
      if name in s.registry then s' == Go(s, t, FindUnlock(name, why, s.registry[name]))
      else s' == Go(PutRoom(s, s.nextRoom, Room(name, None, {}, [])), t, FindUnlock(name, why, s.nextRoom))
                 .(registry := s.registry[name := s.nextRoom], nextRoom := s.nextRoom + 1)
    case FindUnlock(name, why, room) =>
      s' == (match why
             case JoinAsSender => Go(Named(s, t, name), t, Reply(true, false))
             case SendAll(text) => Go(s, t, CastLock(room, text))
             case JoinAsReceiver => Go(s, t, AddLock(room))).(serverLock := None)
    case _ => false
  }

  function DeliveryText(room: Room, username: string, text: string): string {
    room.name + ":" + username + ":" + text
  }

  /** broadcast_message, under the room's lock, one member at a time. The members are
      visited in any order; the source visits them in the order of its set. */
  ghost predicate CastStep(s: State, t: Id, s': State) {
    match PcAt(s, t)
    case CastLock(r, text) =>
      var room := RoomAt(s, r);
      var msg := DeliveryText(room, ThreadAt(s, t).username, text);
      && room.lock == None
      && s' == Go(PutRoom(s, r, room.(lock := Some(t), log := room.log + [msg])), t, Casting(r, msg, room.members))
    case Casting(r, msg, todo) =>
      if todo == {} then s' == Go(s, t, CastUnlock(r))
      else exists u :: u in todo && s' == Go(s, t, Enq(r, msg, todo - {u}, u, NeedLock))
    case Enq(r, msg, todo, u, stage) => EnqStep(s, t, r, msg, todo, u, stage, s')
    case CastUnlock(r) => s' == Go(PutRoom(s, r, RoomAt(s, r).(lock := None)), t, Reply(true, false))
    case _ => false
  }

  /** MessageQueue::enqueue on the queue of `u`. */
  ghost predicate EnqStep(s: State, t: Id, r: Id, msg: string, todo: set<Id>, u: Id, stage: Stage, s': State) {
    var user := UserAt(s, u);
    match stage
    case NeedLock =>
      user.qlock == None && s' == Go(PutUser(s, u, user.(qlock := Some(t))), t, Enq(r, msg, todo, u, Push))
    case Push => s' == Go(PutUser(s, u, user.(deque := user.deque + [msg])), t, Enq(r, msg, todo, u, Unlock))
    case Unlock => s' == Go(PutUser(s, u, user.(qlock := None)), t, Enq(r, msg, todo, u, Post))
    case Post => s' == Go(PutUser(s, u, user.(avail := user.avail + 1)), t, Casting(r, msg, todo))
  }

  /** add_member and remove_member, under the room's lock. */
  ghost predicate MemberStep(s: State, t: Id, s': State) {
    var user := UserAt(s, t);
    match PcAt(s, t)
    case AddLock(r) =>
      RoomAt(s, r).lock == None && s' == Go(PutRoom(s, r, RoomAt(s, r).(lock := Some(t))), t, Adding(r))
    case Adding(r) =>
      var room := RoomAt(s, r);
      s' == Go(PutUser(PutRoom(s, r, room.(members := room.members + {t})), t,
                       user.(roomName := room.name, sub := In(r, |room.log|))), t, AddUnlock(r))
    case AddUnlock(r) => s' == Go(PutRoom(s, r, RoomAt(s, r).(lock := None)), t, Greet(r))
    case RemLock(r) =>
      RoomAt(s, r).lock == None && s' == Go(PutRoom(s, r, RoomAt(s, r).(lock := Some(t))), t, Removing(r))
    case Removing(r) =>
      var room := RoomAt(s, r);
      var sub := if user.sub.In? then Out(r, user.sub.start, |room.log|) else user.sub;
      s' == Go(PutUser(PutRoom(s, r, room.(members := room.members - {t})), t, user.(roomName := "", sub := sub)),
               t, RemUnlock(r))
    case RemUnlock(r) => s' == Go(PutRoom(s, r, RoomAt(s, r).(lock := None)), t, Gone)
    case _ => false
  }

  /** The receiver's loop: wait for a message, pop it, send it. A send may fail, which
      closes the connection and ends the loop; a timed wait may give up. */
  ghost predicate ReceiveStep(s: State, t: Id, s': State) {
    var user := UserAt(s, t);
    match PcAt(s, t)
    case Greet(r) => exists open: bool :: s' == GoOpen(s, t, Listen(r), open)
    case Listen(r) => s' == Go(s, t, if ThreadAt(s, t).open then Wait(r) else RemLock(r))
    case Wait(r) =>
      || s' == Go(s, t, Listen(r))
      || (user.avail > 0 && s' == Go(PutUser(s, t, user.(avail := user.avail - 1)), t, PopLock(r)))
    case PopLock(r) => user.qlock == None && s' == Go(PutUser(s, t, user.(qlock := Some(t))), t, Pop(r))
    case Pop(r) =>
      && user.deque != []
      && s' == Go(PutUser(s, t, user.(deque := user.deque[1..])), t, PopUnlock(r, user.deque[0]))
    case PopUnlock(r, m) => s' == Go(PutUser(s, t, user.(qlock := None)), t, Deliver(r, m))
    case Deliver(r, m) =>
      || s' == GoOpen(PutUser(s, t, user.(sent := user.sent + [m])), t, Listen(r), true)
      || s' == GoOpen(PutUser(s, t, user.(lost := [m])), t, RemLock(r), false)
    case _ => false
  }

  /** Everything thread `t` can do next. */
  ghost predicate Step(s: State, t: Id, s': State) {
    match PcAt(s, t)
    case Unborn => Connect(s, t, s')
    case Gone => false
    case Ready => ReadyStep(s, t, s')
    case Reply(ok, last) => s' == Go(s, t, Gone) || (!last && s' == Go(s, t, Ready))
    case FindLock(_, _) => FindStep(s, t, s')
    case Finding(_, _) => FindStep(s, t, s')
    case FindUnlock(_, _, _) => FindStep(s, t, s')
    case CastLock(_, _) => CastStep(s, t, s')
    case Casting(_, _, _) => CastStep(s, t, s')
    case Enq(_, _, _, _, _) => CastStep(s, t, s')
    case CastUnlock(_) => CastStep(s, t, s')
    case AddLock(_) => MemberStep(s, t, s')
    case Adding(_) => MemberStep(s, t, s')
    case AddUnlock(_) => MemberStep(s, t, s')
    case RemLock(_) => MemberStep(s, t, s')
    case Removing(_) => MemberStep(s, t, s')
    case RemUnlock(_) => MemberStep(s, t, s')
    case _ => ReceiveStep(s, t, s')
  }

  ghost predicate SomeStep(s: State, s': State) {
    exists t: Id :: Step(s, t, s')
  }

  ghost predicate Continues(run: seq<State>, i: nat) {
    i + 1 < |run| ==> SomeStep(run[i], run[i + 1])
  }

  /** A run of the server: threads taking steps in any order. */
  ghost predicate Execution(run: seq<State>) {
    && run != [] && Init(run[0])
    && forall i: nat :: Continues(run, i)
  }
}
