/** What a simulated cache means: each set is the list of its resident tags,
    most recently placed (or used) first and the next victim last, together
    with the tags whose block is dirty. The imperative simulator in module
    CacheSimulator is proved to compute exactly `Run`. */
module Replacement {

  /** The command line of the simulator. `blocks` is the number of blocks in a
      set, `bytes` the block size; write-back is `!writeThrough`, fifo is `!lru`. */
  datatype Config = Config(allocate: bool, writeThrough: bool, lru: bool, blocks: nat, bytes: nat)

  datatype Op = Load | Store
  datatype Access = Access(op: Op, index: nat, tag: nat)

  datatype SetState = SetState(order: seq<nat>, dirty: set<nat>)

  datatype Stats = Stats(loads: nat, stores: nat, loadHits: nat, loadMisses: nat,
                         storeHits: nat, storeMisses: nat, cycles: nat)

  datatype CacheState = CacheState(sets: seq<SetState>, stats: Stats)

  const ZERO_STATS := Stats(0, 0, 0, 0, 0, 0, 0)
  const EMPTY_SET := SetState([], {})

  ghost predicate Distinct(s: seq<nat>) {
    forall i, j :: 0 <= i < j < |s| ==> s[i] != s[j]
  }

  ghost predicate WellFormedSet(cfg: Config, s: SetState) {
    && Distinct(s.order)
    && |s.order| <= cfg.blocks
    && (forall t :: t in s.dirty ==> t in s.order)
  }

  ghost predicate WellFormed(cfg: Config, sets: seq<SetState>) {
    && cfg.blocks >= 1
    && forall i :: 0 <= i < |sets| ==> WellFormedSet(cfg, sets[i])
  }

  function IndexOf(s: seq<nat>, t: nat): (k: nat)
    requires t in s
    ensures k < |s| && s[k] == t
    ensures forall i :: 0 <= i < k ==> s[i] != t
  {
    if s[0] == t then 0 else 1 + IndexOf(s[1..], t)
  }

  lemma IndexUnique(s: seq<nat>, t: nat, k: nat)
    requires Distinct(s) && k < |s| && s[k] == t
    ensures IndexOf(s, t) == k
  {
  }

  /** Move a resident tag to the front. */
  function Touch(s: seq<nat>, t: nat): seq<nat>
    requires t in s
  {
    var k := IndexOf(s, t);
    [t] + s[..k] + s[k + 1..]
  }

  /** Place a new tag in front, evicting the last one of a full set. */
  function Insert(s: seq<nat>, t: nat, blocks: nat): seq<nat>
    requires blocks >= 1
  {
    [t] + if |s| < blocks then s else s[..blocks - 1]
  }

  /** A miss places its tag unless it is a store under no-write-allocate. */
  predicate Places(cfg: Config, a: Access) {
    a.op.Load? || cfg.allocate
  }

  /** Does this access push a dirty block out? */
  predicate EvictsDirty(cfg: Config, s: SetState, a: Access) {
    && a.tag !in s.order
    && Places(cfg, a)
    && |s.order| >= cfg.blocks >= 1
    && s.order[cfg.blocks - 1] in s.dirty
  }

  function NextOrder(cfg: Config, order: seq<nat>, a: Access): seq<nat>
    requires cfg.blocks >= 1
  {
    if a.tag in order then
      if cfg.lru then Touch(order, a.tag) else order
    else if Places(cfg, a) then Insert(order, a.tag, cfg.blocks)
    else order
  }

  /** Only a store hit under write-back makes a block dirty; a placed block is clean. */
  function NextDirty(cfg: Config, s: SetState, a: Access): set<nat>
    requires cfg.blocks >= 1
  {
    if a.tag in s.order then
      if a.op.Store? && !cfg.writeThrough then s.dirty + {a.tag} else s.dirty
    else if Places(cfg, a) && |s.order| >= cfg.blocks then s.dirty - {s.order[cfg.blocks - 1]}
    else s.dirty
  }

  function NextSet(cfg: Config, s: SetState, a: Access): SetState
    requires cfg.blocks >= 1
  {
    SetState(NextOrder(cfg, s.order, a), NextDirty(cfg, s, a))
  }

  /** The cycles of moving one block between cache and memory, 100 per 4 bytes. */
  function FillCycles(cfg: Config): nat { 25 * cfg.bytes }

  /** What one access adds to the statistics. */
  function Cost(cfg: Config, s: SetState, a: Access): Stats {
    var writeBack := if EvictsDirty(cfg, s, a) then FillCycles(cfg) else 0;
    match a.op
    case Load =>
      if a.tag in s.order then Stats(1, 0, 1, 0, 0, 0, 1)
      else Stats(1, 0, 0, 1, 0, 0, FillCycles(cfg) + writeBack)
    case Store =>
      if a.tag in s.order then Stats(0, 1, 0, 0, 1, 0, if cfg.writeThrough then 101 else 1)
      else if cfg.allocate then Stats(0, 1, 0, 0, 0, 1, 1 + FillCycles(cfg) + writeBack)
      else Stats(0, 1, 0, 0, 0, 1, 100)
  }

  function Plus(x: Stats, y: Stats): Stats {
    Stats(x.loads + y.loads, x.stores + y.stores, x.loadHits + y.loadHits, x.loadMisses + y.loadMisses,
          x.storeHits + y.storeHits, x.storeMisses + y.storeMisses, x.cycles + y.cycles)
  }

  /** Every access of a trace names an existing set. */
  ghost predicate InRange(trace: seq<Access>, sets: nat) {
    forall i :: 0 <= i < |trace| ==> trace[i].index < sets
  }

  function Step(cfg: Config, c: CacheState, a: Access): CacheState
    requires cfg.blocks >= 1 && a.index < |c.sets|
  {
    var s := c.sets[a.index];
    CacheState(c.sets[a.index := NextSet(cfg, s, a)], Plus(c.stats, Cost(cfg, s, a)))
  }

  /** The state after the first `n` accesses of a trace. */
  function Run(cfg: Config, c: CacheState, trace: seq<Access>, n: nat): (r: CacheState)
    requires cfg.blocks >= 1 && InRange(trace, |c.sets|) && n <= |trace|
    ensures |r.sets| == |c.sets|
  {
    if n == 0 then c else Step(cfg, Run(cfg, c, trace, n - 1), trace[n - 1])
  }

  function EmptyCache(sets: nat): CacheState {
    CacheState(seq(sets, _ => EMPTY_SET), ZERO_STATS)
  }

  /** The resident tags of set `s` after the first `n` accesses of a trace run from `c`. */
  function OrderAt(cfg: Config, c: CacheState, trace: seq<Access>, n: nat, s: nat): seq<nat>
    requires cfg.blocks >= 1 && InRange(trace, |c.sets|) && n <= |trace| && s < |c.sets|
  {
    Run(cfg, c, trace, n).sets[s].order
  }

  /** Access `i` of the trace finds its tag resident. */
  predicate HitAt(cfg: Config, c: CacheState, trace: seq<Access>, i: nat)
    requires cfg.blocks >= 1 && InRange(trace, |c.sets|) && i < |trace|
  {
    trace[i].tag in OrderAt(cfg, c, trace, i, trace[i].index)
  }

  /** The distinct tags of set `s` that accesses lo..hi-1 touch. */
  function TagsIn(trace: seq<Access>, lo: nat, hi: nat, s: nat): set<nat>
    requires lo <= hi <= |trace|
  {
    set k | lo <= k < hi && trace[k].index == s :: trace[k].tag
  }

  /** What access `n` adds to the statistics. */
  function CostAt(cfg: Config, c: CacheState, trace: seq<Access>, n: nat): Stats
    requires cfg.blocks >= 1 && InRange(trace, |c.sets|) && n < |trace|
  {
    Cost(cfg, Run(cfg, c, trace, n).sets[trace[n].index], trace[n])
  }

  lemma RunNext(cfg: Config, c: CacheState, trace: seq<Access>, n: nat, end: CacheState)
    requires cfg.blocks >= 1 && InRange(trace, |c.sets|) && n < |trace| && end == Run(cfg, c, trace, n)
    ensures Run(cfg, c, trace, n + 1) == Step(cfg, end, trace[n])
  {
  }

  /** The parts of one unfolding of `Run`, for proofs that should see no more. */
  lemma StatsStep(cfg: Config, c: CacheState, trace: seq<Access>, n: nat)
    requires cfg.blocks >= 1 && InRange(trace, |c.sets|) && n < |trace|
    ensures Run(cfg, c, trace, n + 1).stats == Plus(Run(cfg, c, trace, n).stats, CostAt(cfg, c, trace, n))
  {
  }

  lemma SetsStep(cfg: Config, c: CacheState, trace: seq<Access>, n: nat)
    requires cfg.blocks >= 1 && InRange(trace, |c.sets|) && n < |trace|
    ensures var sets, a := Run(cfg, c, trace, n).sets, trace[n];
            Run(cfg, c, trace, n + 1).sets == sets[a.index := NextSet(cfg, sets[a.index], a)]
  {
  }

  lemma TagsInStep(trace: seq<Access>, lo: nat, n: nat, s: nat)
    requires lo <= n < |trace|
    ensures TagsIn(trace, lo, n + 1, s) ==
            TagsIn(trace, lo, n, s) + if trace[n].index == s then {trace[n].tag} else {}
  {
    var before, after := TagsIn(trace, lo, n, s), TagsIn(trace, lo, n + 1, s);
    forall t | t in before ensures t in after {
      var k :| lo <= k < n && trace[k].index == s && trace[k].tag == t;
      assert trace[k].index == s && trace[k].tag == t;
    }
  }

  lemma NextSetWellFormed(cfg: Config, s: SetState, a: Access)
    requires cfg.blocks >= 1 && WellFormedSet(cfg, s)
    ensures WellFormedSet(cfg, NextSet(cfg, s, a))
  {
    var order := NextOrder(cfg, s.order, a);
    if a.tag in s.order {
      if cfg.lru {
        TouchMembers(s.order, a.tag);
      }
    } else if Places(cfg, a) && |s.order| >= cfg.blocks {
      var last := cfg.blocks - 1;
      assert s.order == s.order[..last] + [s.order[last]];
    }
  }

  lemma TouchMembers(s: seq<nat>, t: nat)
    requires Distinct(s) && t in s
    ensures Distinct(Touch(s, t)) && |Touch(s, t)| == |s|
    ensures forall x :: x in Touch(s, t) <==> x in s
  {
    var k := IndexOf(s, t);
    assert s == s[..k] + [t] + s[k + 1..];
  }

  lemma {:induction false} RunWellFormed(cfg: Config, c: CacheState, trace: seq<Access>, n: nat)
    requires WellFormed(cfg, c.sets) && InRange(trace, |c.sets|) && n <= |trace|
    ensures WellFormed(cfg, Run(cfg, c, trace, n).sets)
  {
    if n > 0 {
      RunWellFormed(cfg, c, trace, n - 1);
      var a := trace[n - 1];
      NextSetWellFormed(cfg, Run(cfg, c, trace, n - 1).sets[a.index], a);
    }
  }
}
