/** What the printed statistics add up to. */
module Accounting {
  import opened Replacement

  /** How often the first `n` accesses pushed a dirty block out. */
  function DirtyEvictions(cfg: Config, c: CacheState, trace: seq<Access>, n: nat): nat
    requires cfg.blocks >= 1 && InRange(trace, |c.sets|) && n <= |trace|
  {
    if n == 0 then 0
    else
      var a := trace[n - 1];
      var s := Run(cfg, c, trace, n - 1).sets[a.index];
      DirtyEvictions(cfg, c, trace, n - 1) + if EvictsDirty(cfg, s, a) then 1 else 0
  }

  function DirtyBlocks(sets: seq<SetState>): nat {
    if sets == [] then 0 else |sets[0].dirty| + DirtyBlocks(sets[1..])
  }

  /** `n` events of `each` cycles: n * each, kept as a sum while it is built up. */
  function Total(n: nat, each: nat): nat {
    if n == 0 then 0 else Total(n - 1, each) + each
  }

  lemma {:induction false} TotalIsProduct(n: nat, each: nat)
    ensures Total(n, each) == n * each
  {
    if n > 0 {
      TotalIsProduct(n - 1, each);
    }
  }

  ghost predicate Balanced(cfg: Config, x: Stats, dirtyEvictions: nat, n: nat) {
    && x.cycles == x.loadHits
                   + Total(x.loadMisses, 25 * cfg.bytes)
                   + Total(x.storeHits, if cfg.writeThrough then 101 else 1)
                   + Total(x.storeMisses, if cfg.allocate then 1 + 25 * cfg.bytes else 100)
                   + Total(dirtyEvictions, 25 * cfg.bytes)
    && x.loads == x.loadHits + x.loadMisses
    && x.stores == x.storeHits + x.storeMisses
    && x.loads + x.stores == n
  }

  lemma BalancedHit(cfg: Config, s: SetState, a: Access, x: Stats, dirtyEvictions: nat, n: nat)
    requires cfg.blocks >= 1 && Balanced(cfg, x, dirtyEvictions, n) && a.tag in s.order
    ensures Balanced(cfg, Plus(x, Cost(cfg, s, a)), dirtyEvictions, n + 1) && !EvictsDirty(cfg, s, a)
  {
  }

  lemma BalancedLoadMiss(cfg: Config, s: SetState, a: Access, x: Stats, dirtyEvictions: nat, n: nat)
    requires cfg.blocks >= 1 && Balanced(cfg, x, dirtyEvictions, n) && a.tag !in s.order && a.op.Load?
    ensures Balanced(cfg, Plus(x, Cost(cfg, s, a)), dirtyEvictions + if EvictsDirty(cfg, s, a) then 1 else 0, n + 1)
  {
  }

  lemma BalancedStoreMiss(cfg: Config, s: SetState, a: Access, x: Stats, dirtyEvictions: nat, n: nat)
    requires cfg.blocks >= 1 && Balanced(cfg, x, dirtyEvictions, n) && a.tag !in s.order && a.op.Store?
    ensures Balanced(cfg, Plus(x, Cost(cfg, s, a)), dirtyEvictions + if EvictsDirty(cfg, s, a) then 1 else 0, n + 1)
  {
  }

  lemma BalancedStep(cfg: Config, s: SetState, a: Access, x: Stats, dirtyEvictions: nat, n: nat)
    requires cfg.blocks >= 1 && Balanced(cfg, x, dirtyEvictions, n)
    ensures Balanced(cfg, Plus(x, Cost(cfg, s, a)), dirtyEvictions + if EvictsDirty(cfg, s, a) then 1 else 0, n + 1)
  {
    if a.tag in s.order {
      BalancedHit(cfg, s, a, x, dirtyEvictions, n);
    } else if a.op.Load? {
      BalancedLoadMiss(cfg, s, a, x, dirtyEvictions, n);
    } else {
      BalancedStoreMiss(cfg, s, a, x, dirtyEvictions, n);
    }
  }

  lemma {:induction false} RunBalanced(cfg: Config, c: CacheState, trace: seq<Access>, n: nat, x: Stats, d: nat)
    requires cfg.blocks >= 1 && c.stats == ZERO_STATS && InRange(trace, |c.sets|) && n <= |trace|
    requires x == Run(cfg, c, trace, n).stats && d == DirtyEvictions(cfg, c, trace, n)
    ensures Balanced(cfg, x, d, n)
  {
    if n > 0 {
      var before, d0, a := Run(cfg, c, trace, n - 1), DirtyEvictions(cfg, c, trace, n - 1), trace[n - 1];
      RunBalanced(cfg, c, trace, n - 1, before.stats, d0);
      StatsStep(cfg, c, trace, n - 1);
      BalancedStep(cfg, before.sets[a.index], a, before.stats, d0, n - 1);
    }
  }

  /** After any trace the cycle count is exactly what hits, misses and dirty evictions
      account for under the policy, and hits and misses add up. */
  lemma CyclesAreExact(cfg: Config, c: CacheState, trace: seq<Access>)
    requires cfg.blocks >= 1 && c.stats == ZERO_STATS && InRange(trace, |c.sets|)
    ensures var x := Run(cfg, c, trace, |trace|).stats;
            && x.cycles == x.loadHits
                           + x.loadMisses * (25 * cfg.bytes)
                           + x.storeHits * (if cfg.writeThrough then 101 else 1)
                           + x.storeMisses * (if cfg.allocate then 1 + 25 * cfg.bytes else 100)
                           + DirtyEvictions(cfg, c, trace, |trace|) * (25 * cfg.bytes)
            && x.loads == x.loadHits + x.loadMisses
            && x.stores == x.storeHits + x.storeMisses
            && x.loads + x.stores == |trace|
  {
    var x, d := Run(cfg, c, trace, |trace|).stats, DirtyEvictions(cfg, c, trace, |trace|);
    RunBalanced(cfg, c, trace, |trace|, x, d);
    TotalIsProduct(x.loadMisses, 25 * cfg.bytes);
    TotalIsProduct(x.storeHits, if cfg.writeThrough then 101 else 1);
    TotalIsProduct(x.storeMisses, if cfg.allocate then 1 + 25 * cfg.bytes else 100);
    TotalIsProduct(d, 25 * cfg.bytes);
  }

  lemma {:induction false} DirtyBlocksUpdate(sets: seq<SetState>, i: nat, s: SetState)
    requires i < |sets|
    ensures DirtyBlocks(sets[i := s]) + |sets[i].dirty| == DirtyBlocks(sets) + |s.dirty|
  {
    if i == 0 {
      assert sets[i := s][1..] == sets[1..];
    } else {
      assert sets[i := s][1..] == sets[1..][i - 1 := s];
      DirtyBlocksUpdate(sets[1..], i - 1, s);
    }
  }

  /** Access `k` is a store under write-back that finds its tag resident and not yet dirty. */
  predicate FirstDirtying(cfg: Config, c: CacheState, trace: seq<Access>, k: nat)
    requires cfg.blocks >= 1 && InRange(trace, |c.sets|) && k < |trace|
  {
    var s := Run(cfg, c, trace, k).sets[trace[k].index];
    !cfg.writeThrough && trace[k].op.Store? && trace[k].tag in s.order && trace[k].tag !in s.dirty
  }

  /** How many of the first `n` accesses are such stores. */
  function Dirtyings(cfg: Config, c: CacheState, trace: seq<Access>, n: nat): nat
    requires cfg.blocks >= 1 && InRange(trace, |c.sets|) && n <= |trace|
  {
    if n == 0 then 0
    else Dirtyings(cfg, c, trace, n - 1) + if FirstDirtying(cfg, c, trace, n - 1) then 1 else 0
  }

  /** One access dirties at most its own tag, and cleans only a dirty victim. */
  lemma DirtyStep(cfg: Config, s: SetState, a: Access)
    requires cfg.blocks >= 1
    ensures var dirties := !cfg.writeThrough && a.op.Store? && a.tag in s.order && a.tag !in s.dirty;
            |NextDirty(cfg, s, a)| + (if EvictsDirty(cfg, s, a) then 1 else 0) == |s.dirty| + (if dirties then 1 else 0)
  {
    if a.tag !in s.order && Places(cfg, a) && |s.order| >= cfg.blocks {
      RemoveOne(s.dirty, s.order[cfg.blocks - 1]);
    } else if a.tag in s.dirty {
      assert s.dirty + {a.tag} == s.dirty;
    }
  }

  lemma RemoveOne(d: set<nat>, t: nat)
    ensures |d - {t}| == |d| - if t in d then 1 else 0
  {
    if t !in d {
      assert d - {t} == d;
    }
  }

  lemma DirtyBalanceStep(cfg: Config, c: CacheState, trace: seq<Access>, m: nat, n: nat)
    requires cfg.blocks >= 1 && InRange(trace, |c.sets|) && m < |trace| && n == m + 1
    ensures DirtyEvictions(cfg, c, trace, n) - DirtyEvictions(cfg, c, trace, m)
            + DirtyBlocks(Run(cfg, c, trace, n).sets) - DirtyBlocks(Run(cfg, c, trace, m).sets)
            == Dirtyings(cfg, c, trace, n) - Dirtyings(cfg, c, trace, m)
  {
    var sets, a := Run(cfg, c, trace, m).sets, trace[m];
    SetsStep(cfg, c, trace, m);
    EvictionsStep(cfg, c, trace, m, n);
    DirtyStep(cfg, sets[a.index], a);
    DirtyBlocksUpdate(sets, a.index, NextSet(cfg, sets[a.index], a));
  }

  /** Every block that becomes dirty is written back once or is still dirty at the end: over
      any trace and from any contents, dirty evictions and dirty blocks at the end are
      exactly the dirty blocks at the start and the stores that dirtied a clean block. */
  lemma {:induction false} DirtyBalance(cfg: Config, c: CacheState, trace: seq<Access>, n: nat)
    requires cfg.blocks >= 1 && InRange(trace, |c.sets|) && n <= |trace|
    ensures DirtyEvictions(cfg, c, trace, n) + DirtyBlocks(Run(cfg, c, trace, n).sets)
            == DirtyBlocks(c.sets) + Dirtyings(cfg, c, trace, n)
  {
    if n > 0 {
      DirtyBalance(cfg, c, trace, n - 1);
      DirtyBalanceStep(cfg, c, trace, n - 1, n);
    }
  }

  /** How many of the first `n` accesses are of kind `op`, and hit or miss as `hit` says. */
  function Count(cfg: Config, c: CacheState, trace: seq<Access>, n: nat, op: Op, hit: bool): nat
    requires cfg.blocks >= 1 && InRange(trace, |c.sets|) && n <= |trace|
  {
    if n == 0 then 0
    else
      Count(cfg, c, trace, n - 1, op, hit)
      + if trace[n - 1].op == op && HitAt(cfg, c, trace, n - 1) == hit then 1 else 0
  }

  ghost predicate Counted(cfg: Config, c: CacheState, trace: seq<Access>, n: nat, x: Stats)
    requires cfg.blocks >= 1 && InRange(trace, |c.sets|) && n <= |trace|
  {
    && x.loadHits == Count(cfg, c, trace, n, Load, true) && x.loadMisses == Count(cfg, c, trace, n, Load, false)
    && x.storeHits == Count(cfg, c, trace, n, Store, true) && x.storeMisses == Count(cfg, c, trace, n, Store, false)
  }

  lemma CountedStep(cfg: Config, c: CacheState, trace: seq<Access>, m: nat, n: nat, x: Stats)
    requires cfg.blocks >= 1 && InRange(trace, |c.sets|) && m < |trace| && n == m + 1
    requires Counted(cfg, c, trace, m, x)
    ensures Counted(cfg, c, trace, n, Plus(x, CostAt(cfg, c, trace, m)))
  {
  }

  /** Each counter of hits and misses counts the accesses it is named after. */
  lemma {:induction false} HitsAreCounted(cfg: Config, c: CacheState, trace: seq<Access>, n: nat)
    requires cfg.blocks >= 1 && c.stats == ZERO_STATS && InRange(trace, |c.sets|) && n <= |trace|
    ensures Counted(cfg, c, trace, n, Run(cfg, c, trace, n).stats)
  {
    if n > 0 {
      var m, x := n - 1, Run(cfg, c, trace, n - 1).stats;
      HitsAreCounted(cfg, c, trace, m);
      CountedStep(cfg, c, trace, m, n, x);
      assert Run(cfg, c, trace, n).stats == Plus(x, CostAt(cfg, c, trace, m)) by { StatsStep(cfg, c, trace, m); }
    }
  }

  lemma {:induction false} DirtyingsAreStoreHits(cfg: Config, c: CacheState, trace: seq<Access>, n: nat)
    requires cfg.blocks >= 1 && InRange(trace, |c.sets|) && n <= |trace|
    ensures Dirtyings(cfg, c, trace, n) <= Count(cfg, c, trace, n, Store, true)
  {
    if n > 0 {
      DirtyingsAreStoreHits(cfg, c, trace, n - 1);
    }
  }

  /** Hence each dirty eviction and each block still dirty was dirty at the start or is paid
      for by its own store hit. */
  lemma DirtyNeedsStoreHits(cfg: Config, c: CacheState, trace: seq<Access>, n: nat)
    requires cfg.blocks >= 1 && c.stats == ZERO_STATS && InRange(trace, |c.sets|) && n <= |trace|
    ensures var after := Run(cfg, c, trace, n);
            DirtyEvictions(cfg, c, trace, n) + DirtyBlocks(after.sets) <= DirtyBlocks(c.sets) + after.stats.storeHits
  {
    DirtyBalance(cfg, c, trace, n);
    DirtyingsAreStoreHits(cfg, c, trace, n);
    HitsAreCounted(cfg, c, trace, n);
  }

  ghost predicate Clean(sets: seq<SetState>) {
    forall s :: 0 <= s < |sets| ==> sets[s].dirty == {}
  }

  lemma CleanStep(cfg: Config, sets: seq<SetState>, a: Access)
    requires cfg.writeThrough && cfg.blocks >= 1 && a.index < |sets| && Clean(sets)
    ensures Clean(sets[a.index := NextSet(cfg, sets[a.index], a)]) && !EvictsDirty(cfg, sets[a.index], a)
  {
  }

  lemma EvictionsStep(cfg: Config, c: CacheState, trace: seq<Access>, m: nat, n: nat)
    requires cfg.blocks >= 1 && InRange(trace, |c.sets|) && m < |trace| && n == m + 1
    ensures var s := Run(cfg, c, trace, m).sets[trace[m].index];
            DirtyEvictions(cfg, c, trace, n)
            == DirtyEvictions(cfg, c, trace, m) + if EvictsDirty(cfg, s, trace[m]) then 1 else 0
  {
  }

  lemma CleanRun(cfg: Config, c: CacheState, trace: seq<Access>, m: nat, n: nat)
    requires cfg.writeThrough && cfg.blocks >= 1 && InRange(trace, |c.sets|) && m < |trace| && n == m + 1
    requires Clean(Run(cfg, c, trace, m).sets)
    ensures Clean(Run(cfg, c, trace, n).sets)
    ensures !EvictsDirty(cfg, Run(cfg, c, trace, m).sets[trace[m].index], trace[m])
  {
    SetsStep(cfg, c, trace, m);
    CleanStep(cfg, Run(cfg, c, trace, m).sets, trace[m]);
  }

  /** Write-through never makes a block dirty, so it never writes one back. */
  lemma {:induction false} WriteThroughStaysClean(cfg: Config, c: CacheState, trace: seq<Access>, n: nat)
    requires cfg.writeThrough && cfg.blocks >= 1 && InRange(trace, |c.sets|) && n <= |trace| && Clean(c.sets)
    ensures Clean(Run(cfg, c, trace, n).sets) && DirtyEvictions(cfg, c, trace, n) == 0
  {
    if n > 0 {
      var m := n - 1;
      WriteThroughStaysClean(cfg, c, trace, m);
      CleanRun(cfg, c, trace, m, n);
      EvictionsStep(cfg, c, trace, m, n);
    }
  }
}
