/** Which tags a cache holds, and which of them are dirty, said of the trace alone. */
module Residency {
  import opened Replacement
  import opened StackDistance

  /** The tags placed in set `s` by the first `n` accesses, latest first: each miss of a load
      places its tag, each miss of a store only under write-allocate. */
  function Placements(cfg: Config, c: CacheState, trace: seq<Access>, n: nat, s: nat): seq<nat>
    requires cfg.blocks >= 1 && InRange(trace, |c.sets|) && n <= |trace|
  {
    if n == 0 then []
    else
      var a, before := trace[n - 1], Placements(cfg, c, trace, n - 1, s);
      if a.index == s && !HitAt(cfg, c, trace, n - 1) && (a.op == Load || cfg.allocate) then [a.tag] + before
      else before
  }

  lemma InsertTake(p: seq<nat>, t: nat, blocks: nat)
    requires blocks >= 1
    ensures Insert(Take(p, blocks), t, blocks) == Take([t] + p, blocks)
  {
    if |p| >= blocks {
      assert ([t] + p)[..blocks] == [t] + p[..blocks - 1];
      assert p[..blocks][..blocks - 1] == p[..blocks - 1];
    }
  }

  /** What one access does to the list of a set under fifo. */
  lemma FifoStep(cfg: Config, c: CacheState, trace: seq<Access>, m: nat, n: nat, s: nat)
    requires !cfg.lru && cfg.blocks >= 1 && InRange(trace, |c.sets|) && m < |trace| && n == m + 1 && s < |c.sets|
    ensures var order, a := OrderAt(cfg, c, trace, m, s), trace[m];
            OrderAt(cfg, c, trace, n, s)
            == if a.index == s && a.tag !in order && (a.op == Load || cfg.allocate)
               then Insert(order, a.tag, cfg.blocks)
               else order
  {
    SetsStep(cfg, c, trace, m);
  }

  /** One access keeps a fifo set a queue of placements. */
  lemma FifoNext(cfg: Config, c: CacheState, trace: seq<Access>, m: nat, n: nat, s: nat)
    requires !cfg.lru && cfg.blocks >= 1 && InRange(trace, |c.sets|) && m < |trace| && n == m + 1 && s < |c.sets|
    requires OrderAt(cfg, c, trace, m, s) == Take(Placements(cfg, c, trace, m, s), cfg.blocks)
    ensures OrderAt(cfg, c, trace, n, s) == Take(Placements(cfg, c, trace, n, s), cfg.blocks)
  {
    FifoStep(cfg, c, trace, m, n, s);
    InsertTake(Placements(cfg, c, trace, m, s), trace[m].tag, cfg.blocks);
  }

  /** A fifo set is a queue of what was placed: it holds the tags of its latest placements,
      as many as it has blocks, and hits do not matter. */
  lemma {:induction false} FifoHoldsLatestPlacements(cfg: Config, sets: nat, trace: seq<Access>, n: nat, s: nat)
    requires !cfg.lru && cfg.blocks >= 1 && InRange(trace, sets) && n <= |trace| && s < sets
    ensures OrderAt(cfg, EmptyCache(sets), trace, n, s)
            == Take(Placements(cfg, EmptyCache(sets), trace, n, s), cfg.blocks)
  {
    if n > 0 {
      FifoHoldsLatestPlacements(cfg, sets, trace, n - 1, s);
      FifoNext(cfg, EmptyCache(sets), trace, n - 1, n, s);
    }
  }

  /** The tags used in set `s` by the first `n` accesses, the latest used first: an access uses
      its tag unless it is a store that misses under no-write-allocate. */
  function LastUses(cfg: Config, c: CacheState, trace: seq<Access>, n: nat, s: nat): seq<nat>
    requires cfg.blocks >= 1 && InRange(trace, |c.sets|) && n <= |trace|
  {
    if n == 0 then []
    else
      var a, before := trace[n - 1], LastUses(cfg, c, trace, n - 1, s);
      if a.index == s && (HitAt(cfg, c, trace, n - 1) || a.op == Load || cfg.allocate) then Use(before, a.tag)
      else before
  }

  lemma {:induction false} LastUsesDistinct(cfg: Config, c: CacheState, trace: seq<Access>, n: nat, s: nat)
    requires cfg.blocks >= 1 && InRange(trace, |c.sets|) && n <= |trace|
    ensures Distinct(LastUses(cfg, c, trace, n, s))
  {
    if n > 0 {
      LastUsesDistinct(cfg, c, trace, n - 1, s);
      UseMembers(LastUses(cfg, c, trace, n - 1, s), trace[n - 1].tag);
    }
  }

  /** What one access does to the list of a set under lru. */
  lemma LruStep(cfg: Config, c: CacheState, trace: seq<Access>, m: nat, n: nat, s: nat)
    requires cfg.lru && cfg.blocks >= 1 && InRange(trace, |c.sets|) && m < |trace| && n == m + 1 && s < |c.sets|
    ensures var order, a := OrderAt(cfg, c, trace, m, s), trace[m];
            && (a.index == s ==> (HitAt(cfg, c, trace, m) <==> a.tag in order))
            && OrderAt(cfg, c, trace, n, s)
               == if a.index != s then order
                  else if a.tag in order then Touch(order, a.tag)
                  else if a.op == Load || cfg.allocate then Insert(order, a.tag, cfg.blocks)
                  else order
  {
    SetsStep(cfg, c, trace, m);
  }

  /** Using a tag in the full list is touching or inserting it in the front part. */
  lemma UseTake(r: seq<nat>, t: nat, blocks: nat)
    requires blocks >= 1 && Distinct(r)
    ensures Take(Use(r, t), blocks) ==
            if t in Take(r, blocks) then Touch(Take(r, blocks), t) else Insert(Take(r, blocks), t, blocks)
  {
    if t in r {
      TouchTake(r, t, blocks);
    } else {
      InsertTake(r, t, blocks);
    }
  }

  /** One access keeps an lru set the front of the list of uses. */
  lemma LruNext(cfg: Config, c: CacheState, trace: seq<Access>, m: nat, n: nat, s: nat)
    requires cfg.lru && cfg.blocks >= 1 && InRange(trace, |c.sets|) && m < |trace| && n == m + 1 && s < |c.sets|
    requires Distinct(LastUses(cfg, c, trace, m, s))
    requires OrderAt(cfg, c, trace, m, s) == Take(LastUses(cfg, c, trace, m, s), cfg.blocks)
    ensures OrderAt(cfg, c, trace, n, s) == Take(LastUses(cfg, c, trace, n, s), cfg.blocks)
  {
    LruStep(cfg, c, trace, m, n, s);
    UseTake(LastUses(cfg, c, trace, m, s), trace[m].tag, cfg.blocks);
  }

  /** An lru set holds the tags of its latest uses, as many as it has blocks, the latest in
      front; with or without write-allocate. */
  lemma {:induction false} LruHoldsLatestUses(cfg: Config, sets: nat, trace: seq<Access>, n: nat, s: nat)
    requires cfg.lru && cfg.blocks >= 1 && InRange(trace, sets) && n <= |trace| && s < sets
    ensures OrderAt(cfg, EmptyCache(sets), trace, n, s)
            == Take(LastUses(cfg, EmptyCache(sets), trace, n, s), cfg.blocks)
  {
    if n > 0 {
      LruHoldsLatestUses(cfg, sets, trace, n - 1, s);
      LastUsesDistinct(cfg, EmptyCache(sets), trace, n - 1, s);
      LruNext(cfg, EmptyCache(sets), trace, n - 1, n, s);
    }
  }

  /** A tag that came in with access `m` is the one the access asked for. */
  lemma NewTag(cfg: Config, c: CacheState, trace: seq<Access>, m: nat, n: nat, s: nat, t: nat)
    requires WellFormed(cfg, c.sets) && InRange(trace, |c.sets|) && m < |trace| && n == m + 1 && s < |c.sets|
    requires t in OrderAt(cfg, c, trace, n, s) && t !in OrderAt(cfg, c, trace, m, s)
    ensures trace[m].index == s && trace[m].tag == t && (trace[m].op == Load || cfg.allocate)
  {
    SetsStep(cfg, c, trace, m);
    RunWellFormed(cfg, c, trace, m);
    var order, a := OrderAt(cfg, c, trace, m, s), trace[m];
    if a.index == s && a.tag in order && cfg.lru {
      TouchMembers(order, a.tag);
    }
  }

  lemma EmptyIsWellFormed(cfg: Config, sets: nat)
    requires cfg.blocks >= 1
    ensures WellFormed(cfg, EmptyCache(sets).sets)
  {
  }

  /** Under no-write-allocate only loads bring blocks in. */
  lemma {:induction false} ResidentWasLoaded(cfg: Config, sets: nat, trace: seq<Access>, n: nat, s: nat, t: nat)
    requires !cfg.allocate && cfg.blocks >= 1 && InRange(trace, sets) && n <= |trace| && s < sets
    requires t in OrderAt(cfg, EmptyCache(sets), trace, n, s)
    ensures exists k :: 0 <= k < n && trace[k] == Access(Load, s, t)
  {
    var c := EmptyCache(sets);
    assert n > 0;
    if t in OrderAt(cfg, c, trace, n - 1, s) {
      ResidentWasLoaded(cfg, sets, trace, n - 1, s, t);
    } else {
      EmptyIsWellFormed(cfg, sets);
      NewTag(cfg, c, trace, n - 1, n, s, t);
      assert trace[n - 1] == Access(Load, s, t);
    }
  }

  /** Access `k` is a store that finds tag `t` in set `s`. */
  predicate StoreHitOn(cfg: Config, c: CacheState, trace: seq<Access>, k: nat, s: nat, t: nat)
    requires cfg.blocks >= 1 && InRange(trace, |c.sets|) && k < |trace| && s < |c.sets|
  {
    trace[k] == Access(Store, s, t) && t in OrderAt(cfg, c, trace, k, s)
  }

  predicate ResidentAt(cfg: Config, c: CacheState, trace: seq<Access>, m: nat, s: nat, t: nat)
    requires cfg.blocks >= 1 && InRange(trace, |c.sets|) && m <= |trace| && s < |c.sets|
  {
    t in OrderAt(cfg, c, trace, m, s)
  }

  /** Since its last placement up to `n`, was resident tag `t` the object of a store? */
  ghost predicate StoredSincePlaced(cfg: Config, c: CacheState, trace: seq<Access>, n: nat, s: nat, t: nat)
    requires cfg.blocks >= 1 && InRange(trace, |c.sets|) && n <= |trace| && s < |c.sets|
  {
    exists k: nat :: k < n && StoreHitOn(cfg, c, trace, k, s, t) && StaysFrom(cfg, c, trace, k, n, s, t)
  }

  ghost predicate StaysFrom(cfg: Config, c: CacheState, trace: seq<Access>, k: nat, n: nat, s: nat, t: nat)
    requires cfg.blocks >= 1 && InRange(trace, |c.sets|) && k <= n <= |trace| && s < |c.sets|
  {
    forall m: nat :: k <= m <= n ==> ResidentAt(cfg, c, trace, m, s, t)
  }

  function DirtyAt(cfg: Config, c: CacheState, trace: seq<Access>, n: nat, s: nat): set<nat>
    requires cfg.blocks >= 1 && InRange(trace, |c.sets|) && n <= |trace| && s < |c.sets|
  {
    Run(cfg, c, trace, n).sets[s].dirty
  }

  /** One access and the dirtiness of one tag. */
  lemma DirtyNext(cfg: Config, c: CacheState, trace: seq<Access>, m: nat, n: nat, s: nat, t: nat)
    requires WellFormed(cfg, c.sets) && InRange(trace, |c.sets|) && m < |trace| && n == m + 1 && s < |c.sets|
    ensures t in DirtyAt(cfg, c, trace, n, s)
            <==> ResidentAt(cfg, c, trace, n, s, t)
                 && (t in DirtyAt(cfg, c, trace, m, s)
                     || (!cfg.writeThrough && StoreHitOn(cfg, c, trace, m, s, t)))
  {
    SetsStep(cfg, c, trace, m);
    RunWellFormed(cfg, c, trace, m);
    RunWellFormed(cfg, c, trace, n);
    DirtyNextSet(cfg, Run(cfg, c, trace, m).sets[s], trace[m], t);
  }

  lemma DirtyNextSet(cfg: Config, s: SetState, a: Access, t: nat)
    requires cfg.blocks >= 1 && WellFormedSet(cfg, s)
    ensures t in NextDirty(cfg, s, a)
            <==> t in NextOrder(cfg, s.order, a)
                 && (t in s.dirty || (!cfg.writeThrough && a.op.Store? && a.tag == t && t in s.order))
  {
    if a.tag in s.order {
      TouchMembers(s.order, a.tag);
    } else if Places(cfg, a) && |s.order| >= cfg.blocks {
      var last := cfg.blocks - 1;
      assert s.order == s.order[..last] + [s.order[last]];
    }
  }

  lemma StaysLonger(cfg: Config, c: CacheState, trace: seq<Access>, k: nat, m: nat, n: nat, s: nat, t: nat)
    requires cfg.blocks >= 1 && InRange(trace, |c.sets|) && k <= m < |trace| && n == m + 1 && s < |c.sets|
    requires StaysFrom(cfg, c, trace, k, m, s, t) && ResidentAt(cfg, c, trace, n, s, t)
    ensures StaysFrom(cfg, c, trace, k, n, s, t)
  {
    forall x: nat | k <= x <= n ensures ResidentAt(cfg, c, trace, x, s, t) {
      assert x <= m || x == n;
    }
  }

  lemma StaysOnce(cfg: Config, c: CacheState, trace: seq<Access>, m: nat, s: nat, t: nat)
    requires cfg.blocks >= 1 && InRange(trace, |c.sets|) && m <= |trace| && s < |c.sets|
    requires ResidentAt(cfg, c, trace, m, s, t)
    ensures StaysFrom(cfg, c, trace, m, m, s, t)
  {
    forall x: nat | m <= x <= m ensures ResidentAt(cfg, c, trace, x, s, t) {
      assert x == m;
    }
  }

  lemma StoredBefore(cfg: Config, c: CacheState, trace: seq<Access>, m: nat, n: nat, s: nat, t: nat)
    requires cfg.blocks >= 1 && InRange(trace, |c.sets|) && m < |trace| && n == m + 1 && s < |c.sets|
    requires StoredSincePlaced(cfg, c, trace, n, s, t)
    ensures ResidentAt(cfg, c, trace, n, s, t)
    ensures StoredSincePlaced(cfg, c, trace, m, s, t) || StoreHitOn(cfg, c, trace, m, s, t)
  {
    var k: nat :| k < n && StoreHitOn(cfg, c, trace, k, s, t) && StaysFrom(cfg, c, trace, k, n, s, t);
    assert ResidentAt(cfg, c, trace, n, s, t);
    if k < m {
      forall x: nat | k <= x <= m ensures ResidentAt(cfg, c, trace, x, s, t) {
        assert x <= n;
      }
    }
  }

  lemma StoredAfter(cfg: Config, c: CacheState, trace: seq<Access>, m: nat, n: nat, s: nat, t: nat)
    requires cfg.blocks >= 1 && InRange(trace, |c.sets|) && m < |trace| && n == m + 1 && s < |c.sets|
    requires ResidentAt(cfg, c, trace, n, s, t)
    requires StoredSincePlaced(cfg, c, trace, m, s, t) || StoreHitOn(cfg, c, trace, m, s, t)
    ensures StoredSincePlaced(cfg, c, trace, n, s, t)
  {
    var k: nat := m;
    if StoreHitOn(cfg, c, trace, m, s, t) {
      StaysOnce(cfg, c, trace, m, s, t);
    } else {
      k :| k < m && StoreHitOn(cfg, c, trace, k, s, t) && StaysFrom(cfg, c, trace, k, m, s, t);
    }
    StaysLonger(cfg, c, trace, k, m, n, s, t);
  }

  lemma DirtyExactlyNext(cfg: Config, c: CacheState, trace: seq<Access>, m: nat, n: nat, s: nat, t: nat)
    requires WellFormed(cfg, c.sets) && InRange(trace, |c.sets|) && m < |trace| && n == m + 1 && s < |c.sets|
    requires t in DirtyAt(cfg, c, trace, m, s) <==> !cfg.writeThrough && StoredSincePlaced(cfg, c, trace, m, s, t)
    ensures t in DirtyAt(cfg, c, trace, n, s) <==> !cfg.writeThrough && StoredSincePlaced(cfg, c, trace, n, s, t)
  {
    DirtyNext(cfg, c, trace, m, n, s, t);
    if StoredSincePlaced(cfg, c, trace, n, s, t) {
      StoredBefore(cfg, c, trace, m, n, s, t);
    } else if t in DirtyAt(cfg, c, trace, n, s) {
      StoredAfter(cfg, c, trace, m, n, s, t);
    }
  }

  /** A block is dirty if and only if the policy is write-back and a store hit it since it was
      last placed; the store that places a block leaves it clean. */
  lemma {:induction false} DirtyExactly(cfg: Config, sets: nat, trace: seq<Access>, n: nat, s: nat, t: nat)
    requires cfg.blocks >= 1 && InRange(trace, sets) && n <= |trace| && s < sets
    ensures t in DirtyAt(cfg, EmptyCache(sets), trace, n, s)
            <==> !cfg.writeThrough && StoredSincePlaced(cfg, EmptyCache(sets), trace, n, s, t)
  {
    if n > 0 {
      EmptyIsWellFormed(cfg, sets);
      DirtyExactly(cfg, sets, trace, n - 1, s, t);
      DirtyExactlyNext(cfg, EmptyCache(sets), trace, n - 1, n, s, t);
    }
  }
}
