/** The simulator as it is programmed, with the sets and the statistics changed in
    place. Every operation is tied to the corresponding step of module Replacement. */
module CacheSimulator {
  import opened Options
  import opened Replacement
  import opened SetRepresentation
  import opened AddressSplit
  import Bits

  class CacheStats {
    var totalLoads: nat
    var totalStores: nat
    var loadHits: nat
    var loadMisses: nat
    var storeHits: nat
    var storeMisses: nat
    var totalCycles: nat

    constructor ()
      ensures View() == ZERO_STATS
    {
      totalLoads, totalStores, loadHits, loadMisses := 0, 0, 0, 0;
      storeHits, storeMisses, totalCycles := 0, 0, 0;
    }

    function View(): Stats
      reads this
    {
      Stats(totalLoads, totalStores, loadHits, loadMisses, storeHits, storeMisses, totalCycles)
    }
  }

  /** A set after a missing tag was placed in it. */
  function Placed(cfg: Config, s: SetState, tag: nat): SetState
    requires cfg.blocks >= 1
  {
    SetState(Insert(s.order, tag, cfg.blocks),
             if |s.order| < cfg.blocks then s.dirty else s.dirty - {s.order[cfg.blocks - 1]})
  }

  /** The statistics after placing a tag in `s`: a dirty victim costs a write-back. */
  function WithWriteBack(cfg: Config, stats: Stats, s: SetState): Stats
    requires cfg.blocks >= 1
  {
    if |s.order| >= cfg.blocks && s.order[cfg.blocks - 1] in s.dirty then
      stats.(cycles := stats.cycles + FillCycles(cfg))
    else stats
  }

  /** What an access costs, without the count of accesses kept by the caller. */
  function CostOf(cfg: Config, s: SetState, a: Access): Stats {
    Cost(cfg, s, a).(loads := 0, stores := 0)
  }

  /** The handler counts the access, then the operation adds the rest. */
  function Counted(x: Stats, op: Op): Stats {
    if op.Load? then x.(loads := x.loads + 1) else x.(stores := x.stores + 1)
  }

  lemma CountedCost(cfg: Config, s: SetState, a: Access, x: Stats)
    ensures Plus(Counted(x, a.op), CostOf(cfg, s, a)) == Plus(x, Cost(cfg, s, a))
  {
  }

  /** What a hit does, and what it adds to the statistics. */
  lemma HitStep(cfg: Config, s: SetState, a: Access)
    requires cfg.blocks >= 1 && a.tag in s.order
    ensures NextSet(cfg, s, a) == SetState(if cfg.lru then Touch(s.order, a.tag) else s.order,
                                           if a.op.Store? && !cfg.writeThrough then s.dirty + {a.tag} else s.dirty)
    ensures CostOf(cfg, s, a) == if a.op.Load? then Stats(0, 0, 1, 0, 0, 0, 1)
                                 else Stats(0, 0, 0, 0, 1, 0, if cfg.writeThrough then 101 else 1)
  {
  }

  /** What a miss does, and what it adds to the statistics. */
  lemma MissStep(cfg: Config, s: SetState, a: Access, x: Stats)
    requires cfg.blocks >= 1 && a.tag !in s.order
    ensures Places(cfg, a) ==>
              && NextSet(cfg, s, a) == Placed(cfg, s, a.tag)
              && Plus(x, CostOf(cfg, s, a)) == WithWriteBack(cfg, Missed(cfg, x, a), s)
    ensures !Places(cfg, a) ==> NextSet(cfg, s, a) == s && Plus(x, CostOf(cfg, s, a)) == Missed(cfg, x, a)
  {
  }

  /** The statistics once a miss is counted, with the fill it leads to but no write-back. */
  function Missed(cfg: Config, x: Stats, a: Access): Stats {
    if a.op.Load? then x.(loadMisses := x.loadMisses + 1, cycles := x.cycles + FillCycles(cfg))
    else x.(storeMisses := x.storeMisses + 1, cycles := x.cycles + if cfg.allocate then 1 + FillCycles(cfg) else 100)
  }

  lemma InTouch(order: seq<nat>, tag: nat)
    requires tag in order
    ensures tag in Touch(order, tag)
  {
    assert Touch(order, tag)[0] == tag;
  }

  class CacheSet {
    var blocks: seq<Block>
    var tagIndex: map<nat, nat>
    var timestamp: nat
    /** The resident tags, latest first. */
    ghost var order: seq<nat>

    constructor (blocks: seq<Block>)
      requires forall k :: 0 <= k < |blocks| ==> !blocks[k].valid
      ensures this.blocks == blocks && View() == EMPTY_SET
      ensures Valid(true) && Valid(false)
    {
      this.blocks := blocks;
      tagIndex := map[];
      timestamp := 0;
      order := [];
    }

    ghost predicate Valid(lru: bool)
      reads this
    {
      Represents(blocks, tagIndex, timestamp, order, lru)
    }

    ghost function View(): SetState
      reads this
    {
      SetState(order, DirtyTags(blocks, tagIndex))
    }

    method UpdateTimestampLRU(tag: nat)
      requires Valid(true) && tag in order
      modifies this
      ensures Valid(true) && |blocks| == |old(blocks)|
      ensures View() == SetState(Touch(old(order), tag), old(View().dirty))
    {
      InMap(blocks, tagIndex, timestamp, order, true, tag);
      var slot := tagIndex[tag];
      var blocks' := blocks[slot := blocks[slot].(accessTime := timestamp)];
      assert Represents(blocks', tagIndex, timestamp + 1, Touch(order, tag), true)
             && DirtyTags(blocks', tagIndex) == DirtyTags(blocks, tagIndex) by {
        TouchRepresents(blocks, tagIndex, timestamp, order, tag);
      }
      blocks := blocks';
      timestamp := timestamp + 1;
      order := Touch(order, tag);
    }

    method MarkDirty(tag: nat, ghost lru: bool)
      requires Valid(lru) && tag in order
      modifies this
      ensures Valid(lru) && |blocks| == |old(blocks)|
      ensures View() == SetState(old(order), old(View().dirty) + {tag})
    {
      InMap(blocks, tagIndex, timestamp, order, lru, tag);
      DirtyRepresents(blocks, tagIndex, timestamp, order, lru, tag);
      var slot := tagIndex[tag];
      blocks := blocks[slot := blocks[slot].(dirty := true)];
    }

    /** The slot after the last used one; the number of slots when all are used. */
    method FindEmptySpot() returns (slot: nat)
      requires Valid(true) || Valid(false)
      ensures slot == |order| && (slot < |blocks| ==> !blocks[slot].valid)
      ensures forall k :: 0 <= k < slot ==> k < |blocks| && blocks[k].valid
    {
      var lru := if Represents(blocks, tagIndex, timestamp, order, true) then true else false;
      MapSize(blocks, tagIndex, timestamp, order, lru);
      slot := |tagIndex|;
      forall k: nat ensures k < |blocks| ==> (blocks[k].valid <==> k < slot) {
        assert SlotAt(blocks, tagIndex, |order|, k);
      }
    }

    /** The first slot with the least time of all, provided some time is below the set's
        clock; otherwise the scan leaves its iterator without a value. */
    method ChooseEvictedBlock(lru: bool) returns (victim: Option<nat>)
      ensures victim.Some? <==> exists k :: 0 <= k < |blocks| && TimeOf(blocks[k], lru) < timestamp
      ensures victim.Some? ==>
                && victim.value < |blocks|
                && (forall k :: 0 <= k < |blocks| ==> TimeOf(blocks[victim.value], lru) <= TimeOf(blocks[k], lru))
                && (forall k :: 0 <= k < victim.value ==> TimeOf(blocks[victim.value], lru) < TimeOf(blocks[k], lru))
    {
      victim := None;
      var minimum := timestamp;
      var i := 0;
      if lru {
        while i < |blocks|
          invariant i <= |blocks| && minimum <= timestamp
          invariant forall k :: 0 <= k < i ==> minimum <= blocks[k].accessTime
          invariant victim == None ==> minimum == timestamp
          invariant victim.Some? ==>
                      && victim.value < i && blocks[victim.value].accessTime == minimum < timestamp
                      && forall k :: 0 <= k < victim.value ==> minimum < blocks[k].accessTime
        {
          if blocks[i].accessTime < minimum {
            minimum := blocks[i].accessTime;
            victim := Some(i);
          }
          i := i + 1;
        }
      } else {
        while i < |blocks|
          invariant i <= |blocks| && minimum <= timestamp
          invariant forall k :: 0 <= k < i ==> minimum <= blocks[k].loadTime
          invariant victim == None ==> minimum == timestamp
          invariant victim.Some? ==>
                      && victim.value < i && blocks[victim.value].loadTime == minimum < timestamp
                      && forall k :: 0 <= k < victim.value ==> minimum < blocks[k].loadTime
        {
          if blocks[i].loadTime < minimum {
            minimum := blocks[i].loadTime;
            victim := Some(i);
          }
          i := i + 1;
        }
      }
    }

    /** In a full set the scan finds a victim, and it is the block of the last tag in the list. */
    lemma VictimIsLast(lru: bool, slot: nat)
      requires Valid(lru) && |order| == |blocks| && slot < |blocks|
      requires forall k :: 0 <= k < |blocks| ==> TimeOf(blocks[slot], lru) <= TimeOf(blocks[k], lru)
      ensures blocks[slot].tag == order[|order| - 1] && blocks[slot].tag in tagIndex
      ensures blocks[slot].dirty <==> blocks[slot].tag in View().dirty
    {
      LeastTimeIsLast(blocks, tagIndex, timestamp, order, lru, slot);
    }

    lemma VictimExists(lru: bool)
      requires Valid(lru) && |order| == |blocks| > 0
      ensures exists k :: 0 <= k < |blocks| && TimeOf(blocks[k], lru) < timestamp
    {
      var t, times := order[0], Times(blocks, tagIndex, lru);
      InMap(blocks, tagIndex, timestamp, order, lru, t);
      assert times[t] == TimeOf(blocks[tagIndex[t]], lru);
    }

    /** The slot for a new tag: an unused one, or the victim's, whose tag is then forgotten
        and whose dirty block is written back. */
    method MakeRoom(cfg: Config, stats: CacheStats) returns (slot: nat)
      requires Valid(cfg.lru) && |blocks| == cfg.blocks >= 1
      modifies this, stats
      ensures blocks == old(blocks) && timestamp == old(timestamp) && order == old(order)
      ensures slot < |blocks| && if |order| < |blocks| then slot == |order| else blocks[slot].tag == order[|order| - 1]
      ensures tagIndex == if |order| == |blocks| then old(tagIndex) - {blocks[slot].tag} else old(tagIndex)
      ensures stats.View() == WithWriteBack(cfg, old(stats.View()), old(View()))
    {
      slot := FindEmptySpot();
      if slot == |blocks| {
        VictimExists(cfg.lru);
        var victim := ChooseEvictedBlock(cfg.lru);
        slot := victim.value;
        VictimIsLast(cfg.lru, slot);
        if blocks[slot].dirty {
          stats.totalCycles := stats.totalCycles + 100 * cfg.bytes / 4;
        }
        tagIndex := tagIndex - {blocks[slot].tag};
      }
    }

    /** Place a missing tag, over the policy's victim when the set is full. */
    method PlaceInCache(tag: nat, cfg: Config, stats: CacheStats)
      requires Valid(cfg.lru) && |blocks| == cfg.blocks >= 1 && tag !in order
      modifies this, stats
      ensures Valid(cfg.lru) && |blocks| == cfg.blocks
      ensures View() == Placed(cfg, old(View()), tag)
      ensures stats.View() == WithWriteBack(cfg, old(stats.View()), old(View()))
    {
      ghost var before := tagIndex;
      InMap(blocks, tagIndex, timestamp, order, cfg.lru, tag);
      var slot := MakeRoom(cfg, stats);
      var b := blocks[slot].(tag := tag, valid := true, dirty := false);
      b := if cfg.lru then b.(accessTime := timestamp, loadTime := 0) else b.(accessTime := 0, loadTime := timestamp);
      PlaceRepresents(blocks, before, timestamp, order, cfg.lru, b, slot);
      blocks := blocks[slot := b];
      timestamp := timestamp + 1;
      tagIndex := tagIndex[tag := slot];
      order := Insert(order, tag, cfg.blocks);
    }

    method Hit(tag: nat, ghost lru: bool) returns (hit: bool)
      requires Valid(lru)
      ensures hit <==> tag in order
    {
      InMap(blocks, tagIndex, timestamp, order, lru, tag);
      hit := tag in tagIndex;
    }

    method CacheStore(tag: nat, cfg: Config, stats: CacheStats, ghost index: nat)
      requires Valid(cfg.lru) && |blocks| == cfg.blocks >= 1
      modifies this, stats
      ensures Valid(cfg.lru) && |blocks| == cfg.blocks
      ensures View() == NextSet(cfg, old(View()), Access(Store, index, tag))
      ensures stats.View() == Plus(old(stats.View()), CostOf(cfg, old(View()), Access(Store, index, tag)))
    {
      ghost var set0, stats0, a := View(), stats.View(), Access(Store, index, tag);
      var hit := Hit(tag, cfg.lru);
      if hit {
        HitStep(cfg, set0, a);
        StoreHit(tag, cfg, stats);
      } else {
        MissStep(cfg, set0, a, stats0);
        stats.storeMisses := stats.storeMisses + 1;
        if cfg.allocate {
          stats.totalCycles := stats.totalCycles + 1;
          stats.totalCycles := stats.totalCycles + 100 * cfg.bytes / 4;
          PlaceInCache(tag, cfg, stats);
        } else {
          stats.totalCycles := stats.totalCycles + 100;
        }
      }
    }

    /** The branch of a store that finds its tag. */
    method StoreHit(tag: nat, cfg: Config, stats: CacheStats)
      requires Valid(cfg.lru) && tag in order
      modifies this, stats
      ensures Valid(cfg.lru) && |blocks| == |old(blocks)|
      ensures View() == SetState(if cfg.lru then Touch(old(order), tag) else old(order),
                                 if cfg.writeThrough then old(View().dirty) else old(View().dirty) + {tag})
      ensures stats.View() == Plus(old(stats.View()), Stats(0, 0, 0, 0, 1, 0, if cfg.writeThrough then 101 else 1))
    {
      ghost var dirty, x := View().dirty, stats.View();
      stats.storeHits := stats.storeHits + 1;
      if cfg.lru {
        UpdateTimestampLRU(tag);
        InTouch(old(order), tag);
      }
      assert View().dirty == dirty && stats.View() == x.(storeHits := x.storeHits + 1);
      if cfg.writeThrough {
        stats.totalCycles := stats.totalCycles + 100;
        stats.totalCycles := stats.totalCycles + 1;
        assert stats.View() == Plus(x, Stats(0, 0, 0, 0, 1, 0, 101));
      } else {
        stats.totalCycles := stats.totalCycles + 1;
        assert stats.View() == Plus(x, Stats(0, 0, 0, 0, 1, 0, 1));
        MarkDirty(tag, cfg.lru);
      }
    }

    method CacheLoad(tag: nat, cfg: Config, stats: CacheStats, ghost index: nat)
      requires Valid(cfg.lru) && |blocks| == cfg.blocks >= 1
      modifies this, stats
      ensures Valid(cfg.lru) && |blocks| == cfg.blocks
      ensures View() == NextSet(cfg, old(View()), Access(Load, index, tag))
      ensures stats.View() == Plus(old(stats.View()), CostOf(cfg, old(View()), Access(Load, index, tag)))
    {
      ghost var set0, stats0, a := View(), stats.View(), Access(Load, index, tag);
      var hit := Hit(tag, cfg.lru);
      if hit {
        HitStep(cfg, set0, a);
        stats.totalCycles := stats.totalCycles + 1;
        stats.loadHits := stats.loadHits + 1;
        ghost var y := stats.View();
        assert y == Plus(stats0, CostOf(cfg, set0, a));
        if cfg.lru {
          UpdateTimestampLRU(tag);
          assert stats.View() == y;
        }
      } else {
        MissStep(cfg, set0, a, stats0);
        stats.loadMisses := stats.loadMisses + 1;
        stats.totalCycles := stats.totalCycles + 100 * cfg.bytes / 4;
        PlaceInCache(tag, cfg, stats);
      }
    }
  }

  class Cache {
    var sets: seq<CacheSet>

    constructor ()
      ensures sets == []
    {
      sets := [];
    }

    ghost predicate Separate(i: nat, j: nat)
      reads this
    {
      i < j < |sets| ==> sets[i] != sets[j]
    }

    /** Set `i` is in the abstract state `v[i]`, which its policy can produce. */
    ghost predicate SetOk(cfg: Config, v: seq<SetState>, i: nat)
      reads this, sets
    {
      i < |sets| && i < |v| ==> sets[i].Valid(cfg.lru) && |sets[i].blocks| == cfg.blocks && sets[i].View() == v[i]
    }

    /** The sets are separate objects, and in the abstract states `v`. */
    ghost predicate Shows(cfg: Config, v: seq<SetState>)
      reads this, sets
    {
      && cfg.blocks >= 1 && |v| == |sets|
      && (forall i: nat, j: nat :: Separate(i, j))
      && (forall i: nat :: SetOk(cfg, v, i))
    }
  }

  method CacheInitialize(numSets: nat, cfg: Config) returns (cache: Cache)
    requires cfg.blocks >= 1
    ensures fresh(cache) && fresh(cache.sets) && cache.Shows(cfg, EmptyCache(numSets).sets)
  {
    var block := Block(0, 0, 0, false, false);
    var blocks: seq<Block> := [];
    for i := 0 to cfg.blocks
      invariant |blocks| == i && forall k :: 0 <= k < i ==> blocks[k] == block
    {
      blocks := blocks + [block];
    }
    cache := new Cache();
    for j := 0 to numSets
      invariant |cache.sets| == j && fresh(cache) && fresh(cache.sets)
      invariant forall i, k :: 0 <= i < k < j ==> cache.sets[i] != cache.sets[k]
      invariant forall i :: 0 <= i < j ==>
                  && cache.sets[i].Valid(cfg.lru) && |cache.sets[i].blocks| == cfg.blocks
                  && cache.sets[i].View() == EMPTY_SET
    {
      var s := new CacheSet(blocks);
      cache.sets := cache.sets + [s];
    }
    ghost var empty := EmptyCache(numSets).sets;
    forall i: nat ensures cache.SetOk(cfg, empty, i) {
    }
  }

  /** One line of the trace: the operation letter and a 32-bit address. */
  datatype Command = Command(op: char, address: nat)

  predicate KnownOp(c: Command) { c.op == 'l' || c.op == 's' }

  /** The access that a command of the trace performs. */
  function Decode(c: Command, numSets: nat, numBytes: nat): Access
    requires numSets >= 1 && numBytes >= 1
  {
    Access(if c.op == 's' then Store else Load,
           SetIndex(c.address, numSets, numBytes), Tag(c.address, numSets, numBytes))
  }

  /** The two parts of an abstract step. */
  lemma StepParts(cfg: Config, c: CacheState, a: Access)
    requires cfg.blocks >= 1 && a.index < |c.sets|
    ensures Step(cfg, c, a).sets == c.sets[a.index := NextSet(cfg, c.sets[a.index], a)]
    ensures Step(cfg, c, a).stats == Plus(c.stats, Cost(cfg, c.sets[a.index], a))
  {
  }

  /** Counting an access of a known operation, then storing or loading. */
  method Serve(s: CacheSet, a: Access, cfg: Config, stats: CacheStats)
    requires s.Valid(cfg.lru) && |s.blocks| == cfg.blocks >= 1
    modifies s, stats
    ensures s.Valid(cfg.lru) && |s.blocks| == cfg.blocks
    ensures s.View() == NextSet(cfg, old(s.View()), a)
    ensures stats.View() == Plus(old(stats.View()), Cost(cfg, old(s.View()), a))
  {
    ghost var before, x := s.View(), stats.View();
    if a.op == Store {
      stats.totalStores := stats.totalStores + 1;
      s.CacheStore(a.tag, cfg, stats, a.index);
    } else {
      stats.totalLoads := stats.totalLoads + 1;
      s.CacheLoad(a.tag, cfg, stats, a.index);
    }
    assert stats.View() == Plus(x, Cost(cfg, before, a)) by {
      CountedCost(cfg, before, a, x);
    }
  }

  /** An access of a known operation, once its index and tag are read. */
  method Perform(a: Access, cfg: Config, cache: Cache, stats: CacheStats, ghost c: CacheState)
    requires a.index < |cache.sets| && cache.Shows(cfg, c.sets) && stats.View() == c.stats
    modifies cache.sets, stats
    ensures cache.Shows(cfg, Step(cfg, c, a).sets) && stats.View() == Step(cfg, c, a).stats
  {
    StepParts(cfg, c, a);
    var s := cache.sets[a.index];
    assert cache.SetOk(cfg, c.sets, a.index);
    Serve(s, a, cfg, stats);
    ghost var sets := c.sets[a.index := s.View()];
    forall i: nat ensures cache.SetOk(cfg, sets, i) {
      assert old(cache.SetOk(cfg, c.sets, i)) && cache.Separate(i, a.index) && cache.Separate(a.index, i);
    }
  }

  /** The cache and the statistics are in the abstract state `c`. */
  ghost predicate Mirrors(cache: Cache, stats: CacheStats, cfg: Config, numSets: nat, c: CacheState)
    reads cache, cache.sets, stats
  {
    |cache.sets| == numSets && cache.Shows(cfg, c.sets) && stats.View() == c.stats
  }

  /** A cache and statistics in the abstract state `c` end in the state one step later,
      or stay as they are when the operation is neither a load nor a store. */
  method CacheHandler(cmd: Command, cfg: Config, numSets: nat, cache: Cache, stats: CacheStats, ghost c: CacheState)
      returns (ghost c': CacheState)
    requires Geometry(numSets, cfg.bytes) && cmd.address < Bits.Pow2(ADDRESS_BITS)
    requires Mirrors(cache, stats, cfg, numSets, c)
    modifies cache.sets, stats
    ensures numSets >= 1 && cfg.bytes >= 1 && SetIndex(cmd.address, numSets, cfg.bytes) < numSets
    ensures c' == if KnownOp(cmd) then Step(cfg, c, Decode(cmd, numSets, cfg.bytes)) else c
    ensures Mirrors(cache, stats, cfg, numSets, c')
  {
    var index := ReadIndex(cmd.address, numSets, cfg.bytes);
    var tag := ReadTag(cmd.address, numSets, cfg.bytes);
    c' := if KnownOp(cmd) then Step(cfg, c, Decode(cmd, numSets, cfg.bytes)) else c;
    if cmd.op == 's' {
      Perform(Access(Store, index, tag), cfg, cache, stats, c);
    } else if cmd.op == 'l' {
      Perform(Access(Load, index, tag), cfg, cache, stats, c);
    }
  }

  /** Every address of the trace fits 32 bits. */
  ghost predicate Addresses(input: seq<Command>) {
    forall i :: 0 <= i < |input| ==> input[i].address < Bits.Pow2(ADDRESS_BITS)
  }

  /** The first position at or after `i` of an unknown command, or the end. */
  function KnownFrom(input: seq<Command>, i: nat): (n: nat)
    requires i <= |input|
    ensures i <= n <= |input|
    decreases |input| - i
  {
    if i == |input| || !KnownOp(input[i]) then i else KnownFrom(input, i + 1)
  }

  /** The number of commands before the first unknown one. */
  function KnownPrefix(input: seq<Command>): nat { KnownFrom(input, 0) }

  lemma {:induction false} KnownFromIsFirst(input: seq<Command>, i: nat, n: nat)
    requires i <= n <= |input|
    ensures n == KnownFrom(input, i)
            <==> && (forall k :: i <= k < n ==> input[k].op == 'l' || input[k].op == 's')
                 && (n < |input| ==> input[n].op != 'l' && input[n].op != 's')
    decreases |input| - i
  {
    if i < |input| && KnownOp(input[i]) && i < n {
      KnownFromIsFirst(input, i + 1, n);
    }
  }

  /** The accesses that a list of commands performs. */
  function TraceOf(input: seq<Command>, numSets: nat, numBytes: nat): (trace: seq<Access>)
    requires numSets >= 1 && numBytes >= 1
    ensures |trace| == |input| && InRange(trace, numSets)
    ensures forall i :: 0 <= i < |input| ==> trace[i] == Decode(input[i], numSets, numBytes)
  {
    seq(|input|, i requires 0 <= i < |input| => Decode(input[i], numSets, numBytes))
  }

  /** Command k of the input is a store exactly if its letter is 's'; its set, its tag and an
      offset below the block size rebuild its address. */
  lemma DecodedAccess(input: seq<Command>, numSets: nat, numBytes: nat, k: nat)
    requires numSets >= 1 && numBytes >= 1 && k < |input|
    ensures var a, address := TraceOf(input, numSets, numBytes)[k], input[k].address;
            && (a.op == Store <==> input[k].op == 's')
            && a.index < numSets
            && address == (a.tag * numSets + a.index) * numBytes + address % numBytes
  {
    SplitRebuilds(input[k].address, numSets, numBytes);
  }

  /** How often the letter `op` stands in front of the first `n` commands. */
  function Letters(input: seq<Command>, op: char, n: nat): nat
    requires n <= |input|
  {
    if n == 0 then 0 else Letters(input, op, n - 1) + if input[n - 1].op == op then 1 else 0
  }

  /** One command adds one to the count its letter is for. */
  lemma LetterCounted(cfg: Config, start: CacheState, input: seq<Command>, numSets: nat, m: nat, n: nat)
    requires cfg.blocks >= 1 && numSets >= 1 && cfg.bytes >= 1 && |start.sets| == numSets && m < |input| && n == m + 1
    requires input[m].op == 'l' || input[m].op == 's'
    ensures var x, y := After(cfg, start, input, numSets, m).stats, After(cfg, start, input, numSets, n).stats;
            && y.loads == x.loads + (if input[m].op == 'l' then 1 else 0)
            && y.stores == x.stores + (if input[m].op == 's' then 1 else 0)
  {
    StatsStep(cfg, start, TraceOf(input, numSets, cfg.bytes), m);
    DecodedAccess(input, numSets, cfg.bytes, m);
  }

  /** As long as all letters are known, loads and stores are counted by their letters. */
  lemma {:induction false} LettersAreCounted(cfg: Config, start: CacheState, input: seq<Command>, numSets: nat, n: nat)
    requires cfg.blocks >= 1 && numSets >= 1 && cfg.bytes >= 1 && |start.sets| == numSets && n <= |input|
    requires forall k :: 0 <= k < n ==> input[k].op == 'l' || input[k].op == 's'
    ensures After(cfg, start, input, numSets, n).stats.loads == start.stats.loads + Letters(input, 'l', n)
    ensures After(cfg, start, input, numSets, n).stats.stores == start.stats.stores + Letters(input, 's', n)
  {
    if n > 0 {
      var m := n - 1;
      LettersAreCounted(cfg, start, input, numSets, m);
      LetterCounted(cfg, start, input, numSets, m, n);
    }
  }

  /** The abstract state after the first `n` commands. */
  function After(cfg: Config, start: CacheState, input: seq<Command>, numSets: nat, n: nat): CacheState
    requires cfg.blocks >= 1 && numSets >= 1 && cfg.bytes >= 1 && |start.sets| == numSets && n <= |input|
  {
    Run(cfg, start, TraceOf(input, numSets, cfg.bytes), n)
  }

  lemma AfterNext(cfg: Config, start: CacheState, input: seq<Command>, numSets: nat, n: nat)
    requires cfg.blocks >= 1 && numSets >= 1 && cfg.bytes >= 1 && |start.sets| == numSets && n < |input|
    ensures |After(cfg, start, input, numSets, n).sets| == numSets
    ensures After(cfg, start, input, numSets, n + 1)
            == Step(cfg, After(cfg, start, input, numSets, n), Decode(input[n], numSets, cfg.bytes))
  {
    RunNext(cfg, start, TraceOf(input, numSets, cfg.bytes), n, After(cfg, start, input, numSets, n));
  }

  /** The loop's body on command `i`: an unknown command stops the loop. */
  method Turn(input: seq<Command>, numSets: nat, cfg: Config, cache: Cache, stats: CacheStats,
      ghost start: CacheState, i: nat)
      returns (known: bool)
    requires Geometry(numSets, cfg.bytes) && numSets >= 1 && cfg.bytes >= 1 && Addresses(input) && i < |input|
    requires cfg.blocks >= 1 && |start.sets| == numSets
    requires Mirrors(cache, stats, cfg, numSets, After(cfg, start, input, numSets, i))
    modifies cache.sets, stats
    ensures known == KnownOp(input[i])
    ensures Mirrors(cache, stats, cfg, numSets, After(cfg, start, input, numSets, if known then i + 1 else i))
  {
    var cmd := input[i];
    known := cmd.op == 'l' || cmd.op == 's';
    if known {
      AfterNext(cfg, start, input, numSets, i);
      ghost var c' := CacheHandler(cmd, cfg, numSets, cache, stats, After(cfg, start, input, numSets, i));
      assert c' == After(cfg, start, input, numSets, i + 1);
    }
  }

  /** The simulation loop: it stops with -1 at the first unknown command and otherwise
      ends with 0; either way the cache and the statistics are those of the abstract run
      over the commands before that point. */
  method Replay(input: seq<Command>, numSets: nat, cfg: Config, cache: Cache, stats: CacheStats,
      ghost start: CacheState)
      returns (code: int)
    requires Geometry(numSets, cfg.bytes) && numSets >= 1 && cfg.bytes >= 1 && Addresses(input)
    requires Mirrors(cache, stats, cfg, numSets, start)
    modifies cache.sets, stats
    ensures code == if KnownPrefix(input) == |input| then 0 else -1
    ensures cfg.blocks >= 1 && |start.sets| == numSets
    ensures Mirrors(cache, stats, cfg, numSets, After(cfg, start, input, numSets, KnownPrefix(input)))
  {
    code := 0;
    var i := 0;
    while i < |input|
      invariant i <= |input| && KnownPrefix(input) == KnownFrom(input, i)
      invariant Mirrors(cache, stats, cfg, numSets, After(cfg, start, input, numSets, i))
    {
      var known := Turn(input, numSets, cfg, cache, stats, start, i);
      if !known {
        code := -1;
        break;
      }
      i := i + 1;
    }
  }

  /** The whole program: an empty cache, then the loop. */
  method Simulate(input: seq<Command>, numSets: nat, cfg: Config) returns (code: int, cache: Cache, stats: CacheStats)
    requires Geometry(numSets, cfg.bytes) && cfg.blocks >= 1 && Addresses(input)
    ensures numSets >= 1 && cfg.bytes >= 1
    ensures code == if KnownPrefix(input) == |input| then 0 else -1
    ensures Mirrors(cache, stats, cfg, numSets, After(cfg, EmptyCache(numSets), input, numSets, KnownPrefix(input)))
    ensures stats.totalLoads == Letters(input, 'l', KnownPrefix(input))
    ensures stats.totalStores == Letters(input, 's', KnownPrefix(input))
  {
    GeometryIsPositive(numSets, cfg.bytes);
    cache := CacheInitialize(numSets, cfg);
    stats := new CacheStats();
    code := Replay(input, numSets, cfg, cache, stats, EmptyCache(numSets));
    KnownFromIsFirst(input, 0, KnownPrefix(input));
    LettersAreCounted(cfg, EmptyCache(numSets), input, numSets, KnownPrefix(input));
  }
}
