/** What a sender's request comes to, whatever the other threads do in the meantime: its
    answer, the room the sender is in afterwards, and what the request adds to which log. */
module ChatRequests {
  import opened Options
  import opened ChatModel
  import opened ChatEffects
  import opened ChatLocks
  import opened ChatInvariant
  import opened ChatTheorems
  import opened ChatProgress
  import opened ChatUndisturbed

  /** A request, the room name its sender had when it came, and the sender's own name. */
  datatype Job = Job(q: Request, before: string, username: string)

  predicate Speaks(job: Job) { job.q.Say? && job.before != "" }

  predicate Asks(job: Job) { job.q.Join? || Speaks(job) }

  /** The room that is looked for, and why. */
  function Wanted(job: Job): string { if job.q.Join? then job.q.name else job.before }

  function Reason(job: Job): Why { if job.q.Say? then SendAll(job.q.text) else JoinAsSender }

  /** The room name the request leaves the sender with. */
  function NameAfter(job: Job): string {
    match job.q
    case Join(name) => name
    case Leave => ""
    case Quit => ""
    case _ => job.before
  }

  /** Is the answer "ok"? Saying and leaving need a room. */
  predicate Succeeds(job: Job) {
    match job.q
    case Join(_) => true
    case Say(_) => job.before != ""
    case Leave => job.before != ""
    case Quit => true
    case Unknown => false
  }

  /** What the request adds to the log of room `r`. */
  function EntryIn(job: Job, registry: map<string, Id>, r: Id): seq<string> {
    if Speaks(job) && job.before in registry && registry[job.before] == r then
      [job.before + ":" + job.username + ":" + job.q.text]
    else []
  }

  predicate Registered(registry: map<string, Id>, name: string, room: Id) {
    name in registry && registry[name] == room
  }

  /** How far the request is, and what it has added to the log of room `r` so far. */
  predicate Serving(pc: Pc, job: Job, roomName: string, username: string, registry: map<string, Id>, r: Id,
                    added: seq<string>)
  {
    match pc
    case FindLock(name, why) =>
      && Asks(job) && name == Wanted(job) && why == Reason(job) && added == []
      && roomName == job.before && username == job.username
    case Finding(name, why) =>
      && Asks(job) && name == Wanted(job) && why == Reason(job) && added == []
      && roomName == job.before && username == job.username
    case FindUnlock(name, why, room) =>
      && Asks(job) && name == Wanted(job) && why == Reason(job) && added == []
      && roomName == job.before && username == job.username && Registered(registry, name, room)
    case CastLock(room, text) =>
      && Speaks(job) && text == job.q.text && added == []
      && roomName == job.before && username == job.username && Registered(registry, job.before, room)
    case Casting(room, _, _) => InBroadcast(job, roomName, registry, room, r, added)
    case Enq(room, _, _, _, _) => InBroadcast(job, roomName, registry, room, r, added)
    case CastUnlock(room) => InBroadcast(job, roomName, registry, room, r, added)
    case Reply(ok, last) =>
      && ok == Succeeds(job) && last == job.q.Quit? && roomName == NameAfter(job)
      && (Speaks(job) ==> job.before in registry) && added == EntryIn(job, registry, r)
    case Gone => true
    case _ => false
  }

  predicate InBroadcast(job: Job, roomName: string, registry: map<string, Id>, room: Id, r: Id, added: seq<string>) {
    && Speaks(job) && roomName == job.before && Registered(registry, job.before, room)
    && added == EntryIn(job, registry, r)
  }

  /** Where a request takes its thread, and the sender's room name with it. */
  predicate AskGoes(pc: Pc, pc': Pc, name: string, name': string) {
    match pc
    case FindLock(n, w) => pc' == Finding(n, w) && name' == name
    case Finding(n, w) => pc'.FindUnlock? && pc'.name == n && pc'.why == w && name' == name
    case FindUnlock(n, w, r) =>
      (match w
       case JoinAsSender => pc' == Reply(true, false) && name' == n
       case SendAll(text) => pc' == CastLock(r, text) && name' == name
       case JoinAsReceiver => pc' == AddLock(r) && name' == name)
    case CastLock(r, _) => pc'.Casting? && pc'.room == r && name' == name
    case Casting(r, _, _) => (pc'.Enq? || pc'.CastUnlock?) && pc'.room == r && name' == name
    case Enq(r, _, _, _, _) => (pc'.Enq? || pc'.Casting?) && pc'.room == r && name' == name
    case CastUnlock(_) => pc' == Reply(true, false) && name' == name
    case Reply(_, last) => (pc'.Gone? || (!last && pc'.Ready?)) && name' == name
    case Gone => false
    case _ => true
  }

  predicate InAsk(pc: Pc) {
    || pc.FindLock? || pc.Finding? || pc.FindUnlock?
    || pc.CastLock? || pc.Casting? || pc.Enq? || pc.CastUnlock? || pc.Reply? || pc.Gone?
  }

  ghost predicate AskSees(s: State, t: Id, s': State) {
    && AskGoes(PcAt(s, t), PcAt(s', t), UserAt(s, t).roomName, UserAt(s', t).roomName)
    && ThreadAt(s', t).username == ThreadAt(s, t).username && ThreadAt(s', t).sender == ThreadAt(s, t).sender
  }

  lemma FindAsk(s: State, t: Id, s': State)
    requires FindStep(s, t, s')
    ensures AskSees(s, t, s')
  {
  }

  lemma CastAsk(s: State, t: Id, s': State)
    requires CastStep(s, t, s') && !PcAt(s, t).Enq?
    ensures AskSees(s, t, s')
  {
  }

  lemma EnqAsk(s: State, t: Id, s': State)
    requires CastStep(s, t, s') && PcAt(s, t).Enq?
    ensures AskSees(s, t, s')
  {
  }

  lemma AskStep(s: State, t: Id, s': State)
    requires InAsk(PcAt(s, t)) && Step(s, t, s')
    ensures AskSees(s, t, s')
  {
    var pc := PcAt(s, t);
    if pc.FindLock? || pc.Finding? || pc.FindUnlock? {
      FindAsk(s, t, s');
    } else if pc.Enq? {
      EnqAsk(s, t, s');
    } else if !pc.Reply? {
      CastAsk(s, t, s');
    }
  }

  /** What one step adds to the log of room `r`. */
  function Growth(s: State, s': State, r: Id): seq<string> {
    var log, log' := RoomAt(s, r).log, RoomAt(s', r).log;
    if 0 <= r < s.nextRoom && |log| <= |log'| then log'[|log|..] else []
  }

  lemma GrowthIs(s: State, t: Id, s': State, r: Id)
    requires Step(s, t, s')
    ensures var pc, pc' := PcAt(s, t), PcAt(s', t);
            Growth(s, s', r) == if 0 <= r < s.nextRoom && pc.CastLock? && pc.room == r && pc'.Casting? then [pc'.msg]
                                else []
  {
    if 0 <= r < s.nextRoom {
      StepRoom(s, t, s', r);
    }
  }

  ghost predicate Served(s: State, t: Id, job: Job, r: Id, added: seq<string>) {
    Serving(PcAt(s, t), job, UserAt(s, t).roomName, ThreadAt(s, t).username, s.registry, r, added)
  }

  lemma RegistryGrows(pc: Pc, job: Job, roomName: string, username: string, registry: map<string, Id>,
                      registry': map<string, Id>, r: Id, added: seq<string>)
    requires Serving(pc, job, roomName, username, registry, r, added)
    requires forall n :: n in registry ==> n in registry' && registry'[n] == registry[n]
    ensures Serving(pc, job, roomName, username, registry', r, added)
  {
  }

  lemma OtherServed(s: State, x: Id, s': State, t: Id, job: Job, r: Id, added: seq<string>)
    requires Inv(s) && Step(s, x, s') && x != t && Served(s, t, job, r, added)
    ensures Served(s', t, job, r, added)
  {
    OthersStay(s, x, s', t);
    StepUser(s, x, s', t);
    RegistryKept(s, x, s');
    RegistryGrows(PcAt(s, t), job, UserAt(s, t).roomName, ThreadAt(s, t).username, s.registry, s'.registry, r, added);
  }

  /** The search for the room ends at the registered one. */
  lemma FoundIsRegistered(s: State, t: Id, s': State)
    requires Inv(s) && Step(s, t, s') && PcAt(s', t).FindUnlock?
    ensures Registered(s'.registry, PcAt(s', t).name, PcAt(s', t).room)
  {
    PointersKept(s, t, s');
    assert PointerOk(s', t);
  }

  /** The values before and after one step of the asking thread itself. */
  lemma ServingGoes(job: Job, pc: Pc, pc': Pc, name: string, name': string, username: string,
                    registry: map<string, Id>, r: Id, room: Room, added: seq<string>, growth: seq<string>)
    requires Serving(pc, job, name, username, registry, r, added) && AskGoes(pc, pc', name, name') && !pc'.Ready?
    requires pc.CastLock? ==> room.name == job.before
                              && pc'.msg == room.name + ":" + username + ":" + pc.text
    requires growth == if pc.CastLock? && pc.room == r && pc'.Casting? then [pc'.msg] else []
    requires pc'.FindUnlock? ==> Registered(registry, pc'.name, pc'.room)
    ensures Serving(pc', job, name', username, registry, r, added + growth)
  {
  }

  /** The room a text goes to has the name the sender's room had when it came. */
  lemma OwnEntry(s: State, t: Id, s': State, job: Job, r: Id, added: seq<string>)
    requires Inv(s) && Step(s, t, s') && Served(s, t, job, r, added) && PcAt(s, t).CastLock?
    ensures var pc, pc' := PcAt(s, t), PcAt(s', t);
            var room := RoomAt(s, pc.room);
            room.name == job.before && pc'.Casting? && pc'.msg == DeliveryText(room, ThreadAt(s, t).username, pc.text)
  {
    CastStepGoes(s, t, s');
    assert PointerOk(s, t);
  }

  /** What one step of the asking thread itself does to its own state and to the registry. */
  lemma OwnStep(s: State, t: Id, s': State, job: Job, r: Id, added: seq<string>)
    requires Inv(s) && Step(s, t, s') && Served(s, t, job, r, added)
    ensures AskSees(s, t, s')
    ensures Serving(PcAt(s, t), job, UserAt(s, t).roomName, ThreadAt(s, t).username, s'.registry, r, added)
  {
    AskStep(s, t, s');
    RegistryKept(s, t, s');
    RegistryGrows(PcAt(s, t), job, UserAt(s, t).roomName, ThreadAt(s, t).username, s.registry, s'.registry, r, added);
  }

  lemma OwnServed(s: State, t: Id, s': State, job: Job, r: Id, added: seq<string>)
    requires Inv(s) && Step(s, t, s') && Served(s, t, job, r, added) && !PcAt(s', t).Ready?
    ensures Served(s', t, job, r, added + Growth(s, s', r))
  {
    var pc, pc' := PcAt(s, t), PcAt(s', t);
    OwnStep(s, t, s', job, r, added);
    GrowthIs(s, t, s', r);
    if pc'.FindUnlock? {
      FoundIsRegistered(s, t, s');
    }
    var room := if pc.CastLock? then RoomAt(s, pc.room) else NO_ROOM;
    if pc.CastLock? {
      OwnEntry(s, t, s', job, r, added);
    }
    ServingGoes(job, pc, pc', UserAt(s, t).roomName, UserAt(s', t).roomName, ThreadAt(s, t).username,
                s'.registry, r, room, added, Growth(s, s', r));
  }

  /** What the steps of thread `t` from `i` to `j` add to the log of room `r`. */
  function AddedBy(run: seq<State>, who: seq<Id>, t: Id, r: Id, i: nat, j: nat): seq<string>
    requires i <= j <= |who| && |run| == |who| + 1
    decreases j
  {
    if i == j then []
    else AddedBy(run, who, t, r, i, j - 1) + if who[j - 1] == t then Growth(run[j - 1], run[j], r) else []
  }

  lemma ScheduleIsRun(run: seq<State>, who: seq<Id>)
    requires Schedule(run, who)
    ensures Execution(run)
  {
    forall i: nat ensures Continues(run, i) {
      if i + 1 < |run| {
        assert TakesStep(run, who, i);
      }
    }
  }

  lemma ScheduleRuns(run: seq<State>, who: seq<Id>, k: nat)
    requires Schedule(run, who) && k < |who|
    ensures Inv(run[k]) && Step(run[k], who[k], run[k + 1])
  {
    ScheduleIsRun(run, who);
    ReachableOk(run, k);
    assert TakesStep(run, who, k);
  }

  /** At time `i` thread `t` receives the request `q` from its client. */
  ghost predicate Receives(run: seq<State>, who: seq<Id>, t: Id, i: nat, q: Request) {
    && i < |who| && |run| == |who| + 1 && who[i] == t && PcAt(run[i], t).Ready? && ThreadAt(run[i], t).sender
    && run[i + 1] == Handle(run[i], t, q)
  }

  function JobAt(run: seq<State>, t: Id, i: nat, q: Request): Job
    requires i < |run|
  {
    Job(q, UserAt(run[i], t).roomName, ThreadAt(run[i], t).username)
  }

  /** A request on its arrival. */
  lemma HandledIsServed(s: State, t: Id, q: Request, r: Id)
    requires PcAt(s, t).Ready?
    ensures Served(Handle(s, t, q), t, Job(q, UserAt(s, t).roomName, ThreadAt(s, t).username), r, [])
    ensures Growth(s, Handle(s, t, q), r) == []
  {
  }

  /** Between `i` and `j` thread `t` does not wait for its client again. */
  ghost predicate Busy(run: seq<State>, t: Id, i: nat, j: nat) {
    forall k: nat :: i < k <= j && k < |run| ==> NotReady(run, t, k)
  }

  predicate NotReady(run: seq<State>, t: Id, k: nat) { k < |run| ==> !PcAt(run[k], t).Ready? }

  lemma ServedOnward(run: seq<State>, who: seq<Id>, t: Id, k: nat, job: Job, r: Id, added: seq<string>)
    requires Schedule(run, who) && k < |who| && Served(run[k], t, job, r, added) && !PcAt(run[k + 1], t).Ready?
    ensures Served(run[k + 1], t, job, r, added + if who[k] == t then Growth(run[k], run[k + 1], r) else [])
  {
    ScheduleRuns(run, who, k);
    if who[k] == t {
      OwnServed(run[k], t, run[k + 1], job, r, added);
    } else {
      OtherServed(run[k], who[k], run[k + 1], t, job, r, added);
      assert added + [] == added;
    }
  }

  lemma {:induction false} ServedAlong(run: seq<State>, who: seq<Id>, t: Id, i: nat, j: nat, q: Request, r: Id)
    requires Schedule(run, who) && Receives(run, who, t, i, q) && i < j < |run| && Busy(run, t, i, j)
    ensures Served(run[j], t, JobAt(run, t, i, q), r, AddedBy(run, who, t, r, i, j))
    decreases j
  {
    if j == i + 1 {
      HandledIsServed(run[i], t, q, r);
      assert AddedBy(run, who, t, r, i, i) == [];
    } else {
      assert NotReady(run, t, j);
      var k := j - 1;
      ServedAlong(run, who, t, i, k, q, r);
      ServedOnward(run, who, t, k, JobAt(run, t, i, q), r, AddedBy(run, who, t, r, i, k));
    }
  }

  /** A sender's request and its answer, however the other threads are scheduled. Saying a
      text in a room adds exactly one entry, made of the room's name, the sender's and that
      text, to the log of the room registered under the sender's room name, and nothing to
      any other log; nothing else a sender asks for adds anything. Joining leaves the sender
      with the room name it asked for, leaving and quitting with none, and the rest with the
      one it had. The answer is "ok" except to saying or leaving without a room and to what
      the server does not know. */
  lemma RequestAnswered(run: seq<State>, who: seq<Id>, t: Id, i: nat, j: nat, q: Request, r: Id)
    requires Schedule(run, who) && Receives(run, who, t, i, q) && i < j < |run| && Busy(run, t, i, j)
    requires PcAt(run[j], t).Reply?
    ensures var before, username := UserAt(run[i], t).roomName, ThreadAt(run[i], t).username;
            var after, answer, added := UserAt(run[j], t).roomName, PcAt(run[j], t).ok, AddedBy(run, who, t, r, i, j);
            match q
            case Join(name) => answer && after == name && added == []
            case Say(text) =>
              && after == before && answer == (before != "")
              && (before == "" ==> added == [])
              && (before != "" ==>
                    && before in run[j].registry
                    && added == if run[j].registry[before] == r then [before + ":" + username + ":" + text] else [])
            case Leave => answer == (before != "") && after == "" && added == []
            case Quit => answer && after == "" && added == []
            case Unknown => !answer && after == before && added == []
  {
    ServedAlong(run, who, t, i, j, q, r);
  }

  /** A sender without a room, between requests or gone. */
  predicate Outside(pc: Pc, thread: Thread, roomName: string) {
    thread.sender && roomName == "" && (pc.Ready? || pc.Reply? || pc.Gone?)
  }

  ghost predicate OutsideAt(s: State, t: Id) { Outside(PcAt(s, t), ThreadAt(s, t), UserAt(s, t).roomName) }

  lemma OutsideStep(s: State, t: Id, s': State, r: Id)
    requires Step(s, t, s') && OutsideAt(s, t)
    requires forall name: string :: PcAt(s, t).Ready? ==> s' != Handle(s, t, Join(name))
    ensures OutsideAt(s', t) && Growth(s, s', r) == []
  {
    GrowthIs(s, t, s', r);
    if PcAt(s, t).Ready? {
      if s' != s && s' != Go(s, t, Gone) {
        var q :| s' == Handle(s, t, q);
        OutsideHandle(s, t, q);
      }
    } else {
      AskStep(s, t, s');
    }
  }

  lemma OutsideHandle(s: State, t: Id, q: Request)
    requires OutsideAt(s, t) && PcAt(s, t).Ready? && !q.Join?
    ensures OutsideAt(Handle(s, t, q), t)
  {
  }

  /** From `i` to `j` the client of thread `t` does not ask to join a room. */
  ghost predicate NoJoin(run: seq<State>, who: seq<Id>, t: Id, i: nat, j: nat) {
    forall k: nat, name: string :: i <= k < j ==> !Receives(run, who, t, k, Join(name))
  }

  lemma OutsideOnward(run: seq<State>, who: seq<Id>, t: Id, k: nat, r: Id)
    requires Schedule(run, who) && k < |who| && OutsideAt(run[k], t)
    requires forall name: string :: !Receives(run, who, t, k, Join(name))
    ensures OutsideAt(run[k + 1], t) && (who[k] == t ==> Growth(run[k], run[k + 1], r) == [])
  {
    ScheduleRuns(run, who, k);
    if who[k] == t {
      forall name: string ensures PcAt(run[k], t).Ready? ==> run[k + 1] != Handle(run[k], t, Join(name)) {
        assert !Receives(run, who, t, k, Join(name));
      }
      OutsideStep(run[k], t, run[k + 1], r);
    } else {
      OthersStay(run[k], who[k], run[k + 1], t);
      StepUser(run[k], who[k], run[k + 1], t);
    }
  }

  /** A sender that has no room, be it new, gone out or quitting, stays without one and adds
      nothing to any log until it asks to join. */
  lemma {:induction false} QuietOutside(run: seq<State>, who: seq<Id>, t: Id, i: nat, j: nat, r: Id)
    requires Schedule(run, who) && i <= j < |run| && OutsideAt(run[i], t) && NoJoin(run, who, t, i, j)
    ensures OutsideAt(run[j], t) && AddedBy(run, who, t, r, i, j) == []
    decreases j
  {
    if i < j {
      var k := j - 1;
      QuietOutside(run, who, t, i, k, r);
      forall name: string ensures !Receives(run, who, t, k, Join(name)) {
      }
      OutsideOnward(run, who, t, k, r);
    }
  }

  predicate Quitting(pc: Pc) { pc == Reply(true, true) || pc.Gone? }

  lemma QuittingOnward(run: seq<State>, who: seq<Id>, t: Id, k: nat)
    requires Schedule(run, who) && k < |who| && Quitting(PcAt(run[k], t))
    ensures Quitting(PcAt(run[k + 1], t))
  {
    assert TakesStep(run, who, k);
    if who[k] == t {
      AskStep(run[k], t, run[k + 1]);
    } else {
      OthersStay(run[k], who[k], run[k + 1], t);
    }
  }

  /** Quitting ends the session: the sender is told "ok" at most once more and never served
      again. */
  lemma {:induction false} QuitIsFinal(run: seq<State>, who: seq<Id>, t: Id, i: nat, j: nat)
    requires Schedule(run, who) && Receives(run, who, t, i, Quit) && i < j < |run|
    ensures PcAt(run[j], t) == Reply(true, true) || PcAt(run[j], t).Gone?
    decreases j
  {
    if i + 1 < j {
      QuitIsFinal(run, who, t, i, j - 1);
      QuittingOnward(run, who, t, j - 1);
    }
  }

  /** How far a receiver that asked for `name` is: it looks for the room of that name, and from
      its joining until it leaves it is in the room registered under it. */
  predicate Coming(pc: Pc, roomName: string, registry: map<string, Id>, name: string) {
    match pc
    case FindLock(n, why) => n == name && why.JoinAsReceiver?
    case Finding(n, why) => n == name && why.JoinAsReceiver?
    case FindUnlock(n, why, r) => n == name && why.JoinAsReceiver? && Registered(registry, name, r)
    case AddLock(r) => Registered(registry, name, r)
    case Adding(r) => Registered(registry, name, r)
    case RemUnlock(_) => true
    case Gone => true
    case _ => (pc.AddUnlock? || InReceiveCode(pc) || pc.RemLock? || pc.Removing?)
              && Registered(registry, name, pc.room) && roomName == name
  }

  ghost predicate ComesTo(s: State, t: Id, name: string) {
    Coming(PcAt(s, t), UserAt(s, t).roomName, s.registry, name)
  }

  lemma DeliverKeepsName(s: State, t: Id, s': State)
    requires ReceiveStep(s, t, s') && (PcAt(s, t).Deliver? || PcAt(s, t).Greet? || PcAt(s, t).Listen?)
    ensures UserAt(s', t).roomName == UserAt(s, t).roomName
  {
  }

  lemma DequeueKeepsName(s: State, t: Id, s': State)
    requires ReceiveStep(s, t, s') && !PcAt(s, t).Deliver?
    ensures UserAt(s', t).roomName == UserAt(s, t).roomName
  {
  }

  /** The values before and after a step of the receiver itself. */
  lemma ComingGoes(pc: Pc, pc': Pc, roomName: string, roomName': string, registry: map<string, Id>, name: string,
                   room: Room, deque: seq<string>)
    requires Coming(pc, roomName, registry, name) && (pc'.FindUnlock? ==> Registered(registry, pc'.name, pc'.room))
    requires pc.FindLock? || pc.Finding? || pc.FindUnlock? ==> AskGoes(pc, pc', roomName, roomName')
    requires InMember(pc) ==> pc' == MemberGoes(pc)
                              && roomName' == if pc.Adding? then room.name else if pc.Removing? then "" else roomName
    requires InReceiveCode(pc) ==> ReceiveMove(pc, pc', deque) && roomName' == roomName
    requires pc.Adding? ==> room.name == name
    requires !pc.Gone?
    ensures Coming(pc', roomName', registry, name)
  {
  }

  lemma FindComing(s: State, t: Id, s': State, name: string)
    requires Inv(s) && FindStep(s, t, s') && ComesTo(s, t, name)
    ensures ComesTo(s', t, name)
  {
    assert Step(s, t, s');
    FindAsk(s, t, s');
    FindServer(s, t, s');
    if PcAt(s', t).FindUnlock? {
      FoundIsRegistered(s, t, s');
    }
    ComingGoes(PcAt(s, t), PcAt(s', t), UserAt(s, t).roomName, UserAt(s', t).roomName, s'.registry, name, NO_ROOM, []);
  }

  lemma MemberComing(s: State, t: Id, s': State, name: string)
    requires Inv(s) && MemberStep(s, t, s') && ComesTo(s, t, name)
    ensures ComesTo(s', t, name)
  {
    MemberStepGoes(s, t, s');
    MemberServer(s, t, s');
    var pc := PcAt(s, t);
    assert PointerOk(s, t);
    var room := if pc.Adding? then RoomAt(s, pc.room) else NO_ROOM;
    ComingGoes(pc, PcAt(s', t), UserAt(s, t).roomName, UserAt(s', t).roomName, s'.registry, name, room, []);
  }

  lemma ReceiveComing(s: State, t: Id, s': State, name: string)
    requires ReceiveStep(s, t, s') && Step(s, t, s') && InReceiveCode(PcAt(s, t)) && ComesTo(s, t, name)
    ensures ComesTo(s', t, name)
  {
    StepMoves(s, t, s', 0);
    StepServer(s, t, s');
    if PcAt(s, t).Deliver? {
      DeliverKeepsName(s, t, s');
    } else {
      DequeueKeepsName(s, t, s');
    }
    ComingGoes(PcAt(s, t), PcAt(s', t), UserAt(s, t).roomName, UserAt(s', t).roomName, s'.registry, name, NO_ROOM,
               UserAt(s, t).deque);
  }

  lemma OwnComing(s: State, t: Id, s': State, name: string)
    requires Inv(s) && Step(s, t, s') && ComesTo(s, t, name)
    ensures ComesTo(s', t, name)
  {
    var pc := PcAt(s, t);
    if pc.FindLock? || pc.Finding? || pc.FindUnlock? {
      FindComing(s, t, s', name);
    } else if InMember(pc) {
      MemberComing(s, t, s', name);
    } else {
      ReceiveComing(s, t, s', name);
    }
  }

  lemma ComingOnward(run: seq<State>, who: seq<Id>, t: Id, k: nat, name: string)
    requires Schedule(run, who) && k < |who| && ComesTo(run[k], t, name)
    ensures ComesTo(run[k + 1], t, name)
  {
    ScheduleRuns(run, who, k);
    if who[k] == t {
      OwnComing(run[k], t, run[k + 1], name);
    } else {
      OthersStay(run[k], who[k], run[k + 1], t);
      StepUser(run[k], who[k], run[k + 1], t);
      RegistryKept(run[k], who[k], run[k + 1]);
    }
  }

  lemma {:induction false} ComingAlong(run: seq<State>, who: seq<Id>, t: Id, i: nat, j: nat, name: string)
    requires Schedule(run, who) && i <= j < |run| && ComesTo(run[i], t, name)
    ensures ComesTo(run[j], t, name)
    decreases j
  {
    if i < j {
      ComingAlong(run, who, t, i, j - 1, name);
      ComingOnward(run, who, t, j - 1, name);
    }
  }

  /** A receiver gets the room it asked for: whenever it listens, waits or has a message in
      hand, it is a member, by its own record and the room's, of the one Room registered
      under the name it asked to join, and has that room name. */
  lemma ReceiverIsWhereItAsked(run: seq<State>, who: seq<Id>, t: Id, i: nat, j: nat, name: string)
    requires Schedule(run, who) && i <= j < |run| && PcAt(run[i], t) == FindLock(name, JoinAsReceiver)
    requires InReceiveCode(PcAt(run[j], t))
    ensures var s := run[j];
            && name in s.registry && UserAt(s, t).roomName == name && PcAt(s, t).room == s.registry[name]
            && Subscribed(UserAt(s, t), s.registry[name]) && t in RoomAt(s, s.registry[name]).members
  {
    ComingAlong(run, who, t, i, j, name);
    ScheduleIsRun(run, who);
    ReachableOk(run, j);
    var s := run[j];
    assert UserOk(s, t);
    assert t in RoomAt(s, s.registry[name]).members <==> Subscribed(UserAt(s, t), s.registry[name]);
  }
}
