/** Who holds which lock, and what the room pointers mean, in every reachable state. */
module ChatLocks {
  import opened Options
  import opened ChatModel
  import opened ChatEffects

  ghost predicate ServerLockOk(s: State) {
    forall t: Id :: s.serverLock == Some(t) <==> HoldsServer(PcAt(s, t))
  }

  ghost predicate RoomLockOk(s: State) {
    forall t: Id, r: Id :: 0 <= r < s.nextRoom ==> (RoomAt(s, r).lock == Some(t) <==> HoldsRoom(PcAt(s, t), r))
  }

  ghost predicate QueueLockOk(s: State) {
    forall t: Id, u: Id :: UserAt(s, u).qlock == Some(t) <==> HoldsQueue(PcAt(s, t), t, u)
  }

  /** Room names and Room objects correspond one to one. */
  ghost predicate RegistryOk(s: State) {
    && 0 <= s.nextRoom
    && (forall n :: n in s.registry ==> 0 <= s.registry[n] < s.nextRoom && RoomAt(s, s.registry[n]).name == n)
    && (forall r: Id :: 0 <= r < s.nextRoom ==> RoomAt(s, r).name in s.registry && s.registry[RoomAt(s, r).name] == r)
  }

  /** A thread's pointer leads to a registered room; one just found is the room of the name asked for. */
  ghost predicate PointerOk(s: State, t: Id) {
    var pc := PcAt(s, t);
    && (RoomOf(pc).Some? ==> 0 <= RoomOf(pc).value < s.nextRoom)
    && (pc.FindUnlock? ==> pc.name in s.registry && s.registry[pc.name] == pc.room)
  }

  ghost predicate PointersOk(s: State) {
    forall t: Id :: PointerOk(s, t)
  }

  ghost predicate LocksOk(s: State) {
    ServerLockOk(s) && RoomLockOk(s) && QueueLockOk(s) && RegistryOk(s) && PointersOk(s)
  }

  lemma ServerLockKept(s: State, t: Id, s': State)
    requires ServerLockOk(s) && Step(s, t, s')
    ensures ServerLockOk(s')
  {
    StepServer(s, t, s');
    forall x: Id ensures s'.serverLock == Some(x) <==> HoldsServer(PcAt(s', x)) {
      assert s.serverLock == Some(x) <==> HoldsServer(PcAt(s, x));
      assert s.serverLock == Some(t) <==> HoldsServer(PcAt(s, t));
      if x != t {
        OthersStay(s, t, s', x);
      }
    }
  }

  lemma RoomHolderHasPointer(pc: Pc, r: Id)
    requires HoldsRoom(pc, r)
    ensures RoomOf(pc) == Some(r)
  {
  }

  lemma RoomLockKept(s: State, t: Id, s': State)
    requires RoomLockOk(s) && PointersOk(s) && RegistryOk(s) && Step(s, t, s')
    ensures RoomLockOk(s')
  {
    StepServer(s, t, s');
    StepPointer(s, t, s');
    forall x: Id, r: Id | 0 <= r < s'.nextRoom
      ensures RoomAt(s', r).lock == Some(x) <==> HoldsRoom(PcAt(s', x), r)
    {
      if x != t {
        OthersStay(s, t, s', x);
      }
      if r < s.nextRoom {
        StepRoom(s, t, s', r);
        assert RoomAt(s, r).lock == Some(x) <==> HoldsRoom(PcAt(s, x), r);
        assert RoomAt(s, r).lock == Some(t) <==> HoldsRoom(PcAt(s, t), r);
      } else {
        assert PointerOk(s, x);
        if HoldsRoom(PcAt(s', x), r) {
          RoomHolderHasPointer(PcAt(s', x), r);
        }
      }
    }
  }

  lemma QueueLockKept(s: State, t: Id, s': State)
    requires QueueLockOk(s) && Step(s, t, s')
    ensures QueueLockOk(s')
  {
    forall x: Id, u: Id ensures UserAt(s', u).qlock == Some(x) <==> HoldsQueue(PcAt(s', x), x, u) {
      StepUser(s, t, s', u);
      assert UserAt(s, u).qlock == Some(x) <==> HoldsQueue(PcAt(s, x), x, u);
      assert UserAt(s, u).qlock == Some(t) <==> HoldsQueue(PcAt(s, t), t, u);
      if x != t {
        OthersStay(s, t, s', x);
      }
    }
  }

  /** Rooms keep their names, names keep their rooms. */
  lemma RegistryKept(s: State, t: Id, s': State)
    requires RegistryOk(s) && Step(s, t, s')
    ensures RegistryOk(s') && s.nextRoom <= s'.nextRoom
    ensures forall n :: n in s.registry ==> n in s'.registry && s'.registry[n] == s.registry[n]
    ensures forall r: Id :: 0 <= r < s.nextRoom ==> RoomAt(s', r).name == RoomAt(s, r).name
  {
    StepServer(s, t, s');
    forall r: Id | 0 <= r < s.nextRoom ensures RoomAt(s', r).name == RoomAt(s, r).name {
      StepRoom(s, t, s', r);
    }
  }

  lemma PointersKept(s: State, t: Id, s': State)
    requires RegistryOk(s) && PointersOk(s) && Step(s, t, s')
    ensures PointersOk(s')
  {
    StepServer(s, t, s');
    StepPointer(s, t, s');
    forall x: Id ensures PointerOk(s', x) {
      assert PointerOk(s, x);
      if x != t {
        OthersStay(s, t, s', x);
      }
    }
  }

  lemma LocksKept(s: State, t: Id, s': State)
    requires LocksOk(s) && Step(s, t, s')
    ensures LocksOk(s')
  {
    ServerLockKept(s, t, s');
    RoomLockKept(s, t, s');
    QueueLockKept(s, t, s');
    RegistryKept(s, t, s');
    PointersKept(s, t, s');
  }
}
