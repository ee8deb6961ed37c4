/** A stretch of accesses that touches few distinct tags of a set misses at most once
    on each of them, whatever the set held before and whichever eviction policy runs. */
module FewTags {
  import opened Replacement
  import opened StackDistance

  /** Access `k` is to set `s` and misses. */
  predicate MissAt(cfg: Config, c: CacheState, trace: seq<Access>, k: nat, s: nat)
    requires cfg.blocks >= 1 && InRange(trace, |c.sets|) && k < |trace|
  {
    trace[k].index == s && !HitAt(cfg, c, trace, k)
  }

  /** The tags of set `s` that missed among the first `n` accesses. */
  function MissedTags(cfg: Config, c: CacheState, trace: seq<Access>, n: nat, s: nat): set<nat>
    requires cfg.blocks >= 1 && InRange(trace, |c.sets|) && n <= |trace|
  {
    if n == 0 then {}
    else
      MissedTags(cfg, c, trace, n - 1, s) + if MissAt(cfg, c, trace, n - 1, s) then {trace[n - 1].tag} else {}
  }

  /** How often set `s` missed among the first `n` accesses. */
  function Misses(cfg: Config, c: CacheState, trace: seq<Access>, n: nat, s: nat): nat
    requires cfg.blocks >= 1 && InRange(trace, |c.sets|) && n <= |trace|
  {
    if n == 0 then 0
    else Misses(cfg, c, trace, n - 1, s) + if MissAt(cfg, c, trace, n - 1, s) then 1 else 0
  }

  /** The tags that are certain to be resident: those used (LRU) or those placed (FIFO). */
  function Secured(cfg: Config, c: CacheState, trace: seq<Access>, n: nat, s: nat): set<nat>
    requires cfg.blocks >= 1 && InRange(trace, |c.sets|) && n <= |trace|
  {
    if cfg.lru then TagsIn(trace, 0, n, s) else MissedTags(cfg, c, trace, n, s)
  }

  lemma {:induction false} MissedAreUsed(cfg: Config, c: CacheState, trace: seq<Access>, n: nat, s: nat)
    requires cfg.blocks >= 1 && InRange(trace, |c.sets|) && n <= |trace|
    ensures MissedTags(cfg, c, trace, n, s) <= TagsIn(trace, 0, n, s)
  {
    if n > 0 {
      MissedAreUsed(cfg, c, trace, n - 1, s);
      TagsInStep(trace, 0, n - 1, s);
    }
  }

  lemma Subset(a: set<nat>, b: set<nat>)
    requires a <= b
    ensures |a| <= |b|
  {
    assert b == a + (b - a);
  }

  lemma InsertInFront(order: seq<nat>, t: nat, d: set<nat>, blocks: nat)
    requires blocks >= 1 && t !in order && InFront(order, d) && |d + {t}| <= blocks
    ensures InFront(Insert(order, t, blocks), d + {t})
  {
    PushFront(order, t, d);
    var m := |d + {t}|;
    assert Insert(order, t, blocks)[..m] == ([t] + order)[..m];
  }

  lemma SecuredStep(cfg: Config, c: CacheState, trace: seq<Access>, n: nat, s: nat)
    requires cfg.blocks >= 1 && InRange(trace, |c.sets|) && n < |trace| && s < |c.sets|
    ensures var d, a := Secured(cfg, c, trace, n, s), trace[n];
            Secured(cfg, c, trace, n + 1, s) ==
            if a.index == s && (cfg.lru || a.tag !in OrderAt(cfg, c, trace, n, s)) then d + {a.tag} else d
  {
    TagsInStep(trace, 0, n, s);
  }

  lemma OrderStep(cfg: Config, c: CacheState, trace: seq<Access>, n: nat, s: nat)
    requires cfg.blocks >= 1 && InRange(trace, |c.sets|) && n < |trace| && s < |c.sets|
    ensures var order, a := OrderAt(cfg, c, trace, n, s), trace[n];
            OrderAt(cfg, c, trace, n + 1, s) == if a.index == s then NextOrder(cfg, order, a) else order
  {
  }

  lemma SecuredBound(cfg: Config, c: CacheState, trace: seq<Access>, n: nat, s: nat)
    requires cfg.blocks >= 1 && InRange(trace, |c.sets|) && n <= |trace| && s < |c.sets|
    ensures |Secured(cfg, c, trace, n, s)| <= |TagsIn(trace, 0, n, s)|
  {
    MissedAreUsed(cfg, c, trace, n, s);
    Subset(Secured(cfg, c, trace, n, s), TagsIn(trace, 0, n, s));
  }

  /** While at most `blocks` tags are in use, the secured ones sit in front of the list. */
  lemma {:induction false} SecuredInFront(cfg: Config, c: CacheState, trace: seq<Access>, n: nat, s: nat)
    requires cfg.allocate && WellFormed(cfg, c.sets) && InRange(trace, |c.sets|) && n <= |trace| && s < |c.sets|
    requires |TagsIn(trace, 0, n, s)| <= cfg.blocks
    ensures InFront(OrderAt(cfg, c, trace, n, s), Secured(cfg, c, trace, n, s))
  {
    if n > 0 {
      var a, order := trace[n - 1], OrderAt(cfg, c, trace, n - 1, s);
      TagsInStep(trace, 0, n - 1, s);
      Subset(TagsIn(trace, 0, n - 1, s), TagsIn(trace, 0, n, s));
      SecuredInFront(cfg, c, trace, n - 1, s);
      RunWellFormed(cfg, c, trace, n - 1);
      SecuredBound(cfg, c, trace, n, s);
      SecuredStep(cfg, c, trace, n - 1, s);
      OrderStep(cfg, c, trace, n - 1, s);
      if a.index == s {
        if a.tag !in order {
          InsertInFront(order, a.tag, Secured(cfg, c, trace, n - 1, s), cfg.blocks);
        } else if cfg.lru {
          TouchFront(order, a.tag, Secured(cfg, c, trace, n - 1, s));
        }
      }
    }
  }

  /** A tag that missed once stays resident to the end of the stretch. */
  lemma MissedIsResident(cfg: Config, c: CacheState, trace: seq<Access>, n: nat, s: nat, t: nat)
    requires cfg.allocate && WellFormed(cfg, c.sets) && InRange(trace, |c.sets|) && n <= |trace| && s < |c.sets|
    requires |TagsIn(trace, 0, n, s)| <= cfg.blocks
    requires t in MissedTags(cfg, c, trace, n, s)
    ensures t in OrderAt(cfg, c, trace, n, s)
  {
    SecuredInFront(cfg, c, trace, n, s);
    MissedAreUsed(cfg, c, trace, n, s);
    var order, d := OrderAt(cfg, c, trace, n, s), Secured(cfg, c, trace, n, s);
    assert t in order[..|d|];
  }

  lemma {:induction false} MissesAreDistinct(cfg: Config, c: CacheState, trace: seq<Access>, n: nat, s: nat)
    requires cfg.allocate && WellFormed(cfg, c.sets) && InRange(trace, |c.sets|) && n <= |trace| && s < |c.sets|
    requires |TagsIn(trace, 0, n, s)| <= cfg.blocks
    ensures Misses(cfg, c, trace, n, s) == |MissedTags(cfg, c, trace, n, s)|
  {
    if n > 0 {
      TagsInStep(trace, 0, n - 1, s);
      Subset(TagsIn(trace, 0, n - 1, s), TagsIn(trace, 0, n, s));
      MissesAreDistinct(cfg, c, trace, n - 1, s);
      if MissAt(cfg, c, trace, n - 1, s) && trace[n - 1].tag in MissedTags(cfg, c, trace, n - 1, s) {
        MissedIsResident(cfg, c, trace, n - 1, s, trace[n - 1].tag);
        assert false;
      }
    }
  }

  lemma {:induction false} MissIsRecorded(cfg: Config, c: CacheState, trace: seq<Access>, i: nat, n: nat, s: nat)
    requires cfg.blocks >= 1 && InRange(trace, |c.sets|) && i < n <= |trace| && MissAt(cfg, c, trace, i, s)
    ensures trace[i].tag in MissedTags(cfg, c, trace, n, s)
  {
    if i + 1 < n {
      MissIsRecorded(cfg, c, trace, i, n - 1, s);
    }
  }

  lemma {:induction false} TagsInGrow(trace: seq<Access>, i: nat, n: nat, s: nat)
    requires i <= n <= |trace|
    ensures TagsIn(trace, 0, i, s) <= TagsIn(trace, 0, n, s)
  {
    if i < n {
      TagsInGrow(trace, i, n - 1, s);
      TagsInStep(trace, 0, n - 1, s);
    }
  }

  /** From any starting contents, a stretch that uses at most `blocks` distinct tags of
      set `s` misses at most once on each, so at most as often as it has tags. */
  lemma FewTagsFewMisses(cfg: Config, c: CacheState, trace: seq<Access>, s: nat)
    requires cfg.allocate && WellFormed(cfg, c.sets) && InRange(trace, |c.sets|) && s < |c.sets|
    requires |TagsIn(trace, 0, |trace|, s)| <= cfg.blocks
    ensures Misses(cfg, c, trace, |trace|, s) <= |TagsIn(trace, 0, |trace|, s)|
    ensures forall i: nat, j: nat :: i < j < |trace| && MissAt(cfg, c, trace, i, s) && MissAt(cfg, c, trace, j, s)
              ==> trace[i].tag != trace[j].tag
  {
    var n := |trace|;
    MissesAreDistinct(cfg, c, trace, n, s);
    MissedAreUsed(cfg, c, trace, n, s);
    Subset(MissedTags(cfg, c, trace, n, s), TagsIn(trace, 0, n, s));
    forall i: nat, j: nat | i < j < n && MissAt(cfg, c, trace, i, s) && MissAt(cfg, c, trace, j, s)
      ensures trace[i].tag != trace[j].tag
    {
      MissIsRecorded(cfg, c, trace, i, j, s);
      TagsInGrow(trace, j, n, s);
      Subset(TagsIn(trace, 0, j, s), TagsIn(trace, 0, n, s));
      if trace[i].tag == trace[j].tag {
        MissedIsResident(cfg, c, trace, j, s, trace[i].tag);
      }
    }
  }
}
