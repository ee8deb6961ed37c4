/** Growing the associativity of an LRU cache never loses a hit; for FIFO it can. */
module Inclusion {
  import opened Replacement

  /** Both tags are resident and `x` was used more recently than `y`. */
  predicate Before(s: seq<nat>, x: nat, y: nat) {
    x in s && y in s && IndexOf(s, x) < IndexOf(s, y)
  }

  /** Everything in `small` is in `large`, in the same relative order. */
  ghost predicate Included(small: seq<nat>, large: seq<nat>) {
    && (forall t :: t in small ==> t in large)
    && (forall x, y :: Before(small, x, y) ==> Before(large, x, y))
  }

  /** What the two caches keep: inclusion, and equality until the small one is full. */
  ghost predicate Related(small: seq<nat>, large: seq<nat>, m: nat, n: nat) {
    && Distinct(small) && Distinct(large)
    && |small| <= m <= n && |large| <= n
    && Included(small, large)
    && (|small| < m ==> small == large)
  }

  lemma TouchIndex(s: seq<nat>, t: nat, x: nat)
    requires Distinct(s) && t in s && x in s
    ensures x in Touch(s, t)
    ensures var i, k := IndexOf(s, x), IndexOf(s, t);
            IndexOf(Touch(s, t), x) == if i == k then 0 else if i < k then i + 1 else i
  {
    TouchMembers(s, t);
    var i, k, s' := IndexOf(s, x), IndexOf(s, t), Touch(s, t);
    var i' := if i == k then 0 else if i < k then i + 1 else i;
    assert s'[i'] == x;
    IndexUnique(s', x, i');
  }

  lemma ConsIndex(s: seq<nat>, t: nat, x: nat)
    requires Distinct(s) && t !in s && x in [t] + s
    ensures IndexOf([t] + s, x) == if x == t then 0 else 1 + IndexOf(s, x)
  {
    var i' := if x == t then 0 else 1 + IndexOf(s, x);
    assert ([t] + s)[i'] == x;
    IndexUnique([t] + s, x, i');
  }

  lemma PrefixIndex(s: seq<nat>, m: nat, x: nat)
    requires Distinct(s) && m <= |s| && x in s[..m]
    ensures x in s && IndexOf(s[..m], x) == IndexOf(s, x)
  {
    IndexUnique(s, x, IndexOf(s[..m], x));
  }

  lemma TouchBoth(small: seq<nat>, large: seq<nat>, t: nat)
    requires Distinct(small) && Distinct(large) && Included(small, large) && t in small
    ensures Included(Touch(small, t), Touch(large, t))
  {
    TouchMembers(small, t);
    TouchMembers(large, t);
    forall x, y | Before(Touch(small, t), x, y) ensures Before(Touch(large, t), x, y) {
      TouchIndex(small, t, x);
      TouchIndex(small, t, y);
      TouchIndex(large, t, x);
      TouchIndex(large, t, y);
      if x != t {
        assert Before(small, x, y);
      }
    }
  }

  /** A hit that only the large cache sees, on a tag the small one does not take in. */
  lemma TouchLarge(small: seq<nat>, large: seq<nat>, t: nat)
    requires Distinct(small) && Distinct(large) && Included(small, large) && t in large && t !in small
    ensures Included(small, Touch(large, t))
  {
    TouchMembers(large, t);
    forall x, y | Before(small, x, y) ensures Before(Touch(large, t), x, y) {
      TouchIndex(large, t, x);
      TouchIndex(large, t, y);
      assert Before(large, x, y);
    }
  }

  lemma DropLast(small: seq<nat>, large: seq<nat>)
    requires Distinct(small) && Distinct(large) && Included(small, large) && |small| > 0
    ensures Included(small[..|small| - 1], large)
  {
    var s' := small[..|small| - 1];
    forall x, y | Before(s', x, y) ensures Before(large, x, y) {
      PrefixIndex(small, |s'|, x);
      PrefixIndex(small, |s'|, y);
      assert Before(small, x, y);
    }
  }

  /** The large cache's victim can only be the small cache's victim. */
  lemma DropLastOfLarge(small: seq<nat>, large: seq<nat>)
    requires Distinct(small) && Distinct(large) && Included(small, large) && |small| > 0 && |large| > 0
    ensures Included(small[..|small| - 1], large[..|large| - 1])
  {
    var p, q := |small| - 1, |large| - 1;
    var s', l' := small[..p], large[..q];
    DropLast(small, large);
    forall x | x in s' ensures x in l' {
      PrefixIndex(small, p, x);
      IndexUnique(small, small[p], p);
      assert Before(small, x, small[p]);
      assert Before(large, x, small[p]);
      assert l'[IndexOf(large, x)] == x;
    }
    forall x, y | Before(s', x, y) ensures Before(l', x, y) {
      assert Before(large, x, y);
      PrefixIndex(large, q, x);
      PrefixIndex(large, q, y);
    }
  }

  /** Putting the same new tag in front of both. */
  lemma ConsBoth(small: seq<nat>, large: seq<nat>, t: nat)
    requires Distinct(small) && Distinct(large) && Included(small, large) && t !in large
    ensures Included([t] + small, [t] + large)
  {
    forall x, y | Before([t] + small, x, y) ensures Before([t] + large, x, y) {
      ConsIndex(small, t, x);
      ConsIndex(small, t, y);
      ConsIndex(large, t, x);
      ConsIndex(large, t, y);
      if x != t {
        assert Before(small, x, y);
      }
    }
  }

  /** A miss in the small cache that hits in the large one. */
  lemma ConsTouch(small: seq<nat>, large: seq<nat>, t: nat)
    requires Distinct(small) && Distinct(large) && Included(small, large) && t in large && t !in small
    ensures Included([t] + small, Touch(large, t))
  {
    TouchMembers(large, t);
    TouchLarge(small, large, t);
    forall x, y | Before([t] + small, x, y) ensures Before(Touch(large, t), x, y) {
      ConsIndex(small, t, x);
      ConsIndex(small, t, y);
      TouchIndex(large, t, x);
      TouchIndex(large, t, y);
      if x != t {
        assert Before(small, x, y);
      }
    }
  }

  lemma DistinctPrefix(s: seq<nat>, m: nat)
    requires Distinct(s) && m <= |s|
    ensures Distinct(s[..m])
  {
  }

  lemma InsertDistinct(s: seq<nat>, t: nat, m: nat)
    requires Distinct(s) && t !in s && |s| <= m && m >= 1
    ensures Distinct(Insert(s, t, m)) && |Insert(s, t, m)| <= m
    ensures |Insert(s, t, m)| < m ==> Insert(s, t, m) == [t] + s
  {
  }

  lemma StepHit(small: seq<nat>, large: seq<nat>, m: nat, n: nat, t: nat)
    requires Related(small, large, m, n) && t in small
    ensures t in large && Related(Touch(small, t), Touch(large, t), m, n)
  {
    TouchBoth(small, large, t);
    TouchMembers(small, t);
    TouchMembers(large, t);
  }

  lemma StepMissFull(small: seq<nat>, large: seq<nat>, m: nat, n: nat, t: nat)
    requires m >= 1 && Related(small, large, m, n) && t !in large && |small| == m
    ensures Included(Insert(small, t, m), Insert(large, t, n))
  {
    DistinctPrefix(small, m - 1);
    assert t !in small;
    if |large| < n {
      DropLast(small, large);
      ConsBoth(small[..m - 1], large, t);
    } else {
      DropLastOfLarge(small, large);
      DistinctPrefix(large, n - 1);
      ConsBoth(small[..m - 1], large[..n - 1], t);
    }
  }

  lemma StepMissBoth(small: seq<nat>, large: seq<nat>, m: nat, n: nat, t: nat)
    requires m >= 1 && Related(small, large, m, n) && t !in large
    ensures Related(Insert(small, t, m), Insert(large, t, n), m, n)
  {
    assert t !in small;
    InsertDistinct(small, t, m);
    InsertDistinct(large, t, n);
    if |small| < m {
      ConsBoth(small, large, t);
    } else {
      StepMissFull(small, large, m, n, t);
    }
  }

  lemma StepMissSmall(small: seq<nat>, large: seq<nat>, m: nat, n: nat, t: nat)
    requires m >= 1 && Related(small, large, m, n) && t in large && t !in small
    ensures Related(Insert(small, t, m), Touch(large, t), m, n)
    ensures Related(small, Touch(large, t), m, n)
  {
    TouchMembers(large, t);
    InsertDistinct(small, t, m);
    TouchLarge(small, large, t);
    DistinctPrefix(small, m - 1);
    DropLast(small, large);
    ConsTouch(small[..m - 1], large, t);
  }

  /** The same command line with `blocks` blocks per set. */
  function WithBlocks(cfg: Config, blocks: nat): Config { cfg.(blocks := blocks) }

  lemma {:induction false} RelatedAt(cfg: Config, m: nat, n: nat, sets: nat, trace: seq<Access>, i: nat, s: nat)
    requires cfg.lru && 1 <= m <= n && InRange(trace, sets) && i <= |trace| && s < sets
    ensures Related(OrderAt(WithBlocks(cfg, m), EmptyCache(sets), trace, i, s),
                    OrderAt(WithBlocks(cfg, n), EmptyCache(sets), trace, i, s), m, n)
  {
    if i > 0 {
      RelatedAt(cfg, m, n, sets, trace, i - 1, s);
      var a := trace[i - 1];
      var small := OrderAt(WithBlocks(cfg, m), EmptyCache(sets), trace, i - 1, s);
      var large := OrderAt(WithBlocks(cfg, n), EmptyCache(sets), trace, i - 1, s);
      if a.index == s {
        if a.tag in small {
          StepHit(small, large, m, n, a.tag);
        } else if a.tag in large {
          StepMissSmall(small, large, m, n, a.tag);
        } else if Places(cfg, a) {
          StepMissBoth(small, large, m, n, a.tag);
        }
      }
    }
  }

  /** LRU inclusion, under either write-allocate policy: after every access each set
      of the m-block cache holds a part of what the n-block cache holds, in the same
      order of recency. */
  lemma LruInclusion(cfg: Config, m: nat, n: nat, sets: nat, trace: seq<Access>, i: nat, s: nat)
    requires cfg.lru && 1 <= m <= n && InRange(trace, sets) && i <= |trace| && s < sets
    ensures Included(OrderAt(WithBlocks(cfg, m), EmptyCache(sets), trace, i, s),
                     OrderAt(WithBlocks(cfg, n), EmptyCache(sets), trace, i, s))
  {
    RelatedAt(cfg, m, n, sets, trace, i, s);
  }

  lemma CostHits(cfg: Config, small: SetState, large: SetState, m: nat, n: nat, a: Access)
    requires a.tag in small.order ==> a.tag in large.order
    ensures var x, y := Cost(WithBlocks(cfg, m), small, a), Cost(WithBlocks(cfg, n), large, a);
            x.loadHits <= y.loadHits && x.storeHits <= y.storeHits
  {
  }

  /** Hence load hits and store hits never fall when the associativity grows. */
  lemma {:induction false} LruHitsNeverFall(cfg: Config, m: nat, n: nat, sets: nat, trace: seq<Access>, i: nat)
    requires cfg.lru && 1 <= m <= n && InRange(trace, sets) && i <= |trace|
    ensures var small := Run(WithBlocks(cfg, m), EmptyCache(sets), trace, i).stats;
            var large := Run(WithBlocks(cfg, n), EmptyCache(sets), trace, i).stats;
            small.loadHits <= large.loadHits && small.storeHits <= large.storeHits
  {
    if i > 0 {
      LruHitsNeverFall(cfg, m, n, sets, trace, i - 1);
      var a := trace[i - 1];
      RelatedAt(cfg, m, n, sets, trace, i - 1, a.index);
      CostHits(cfg, Run(WithBlocks(cfg, m), EmptyCache(sets), trace, i - 1).sets[a.index],
               Run(WithBlocks(cfg, n), EmptyCache(sets), trace, i - 1).sets[a.index], m, n, a);
    }
  }

  /** `orders[i]` and `hits[i]` are a one-set fifo cache's list and hit count after `i` loads. */
  ghost predicate FifoLog(m: nat, loads: seq<nat>, orders: seq<seq<nat>>, hits: seq<nat>)
    requires m >= 1
  {
    && |orders| == |hits| == |loads| + 1
    && orders[0] == [] && hits[0] == 0
    && forall i :: 0 <= i < |loads| ==> FifoLogStep(m, loads[i], orders[i], orders[i + 1], hits[i], hits[i + 1])
  }

  ghost predicate FifoLogStep(m: nat, t: nat, order: seq<nat>, order': seq<nat>, hits: nat, hits': nat)
    requires m >= 1
  {
    if t in order then order' == order && hits' == hits + 1
    else order' == Insert(order, t, m) && hits' == hits
  }

  /** Loads of the given blocks, all in set 0. */
  function Loads(tags: seq<nat>): (trace: seq<Access>)
    ensures |trace| == |tags| && InRange(trace, 1)
    ensures forall i :: 0 <= i < |tags| ==> trace[i] == Access(Load, 0, tags[i])
  {
    seq(|tags|, i requires 0 <= i < |tags| => Access(Load, 0, tags[i]))
  }

  lemma {:induction false} FifoLogIsRun(cfg: Config, tags: seq<nat>, orders: seq<seq<nat>>, hits: seq<nat>, n: nat)
    requires !cfg.lru && cfg.blocks >= 1 && n <= |tags| && FifoLog(cfg.blocks, tags, orders, hits)
    ensures var c := Run(cfg, EmptyCache(1), Loads(tags), n);
            c.sets[0].order == orders[n] && c.stats.loadHits == hits[n]
  {
    if n > 0 {
      FifoLogIsRun(cfg, tags, orders, hits, n - 1);
      assert FifoLogStep(cfg.blocks, tags[n - 1], orders[n - 1], orders[n - 1 + 1], hits[n - 1], hits[n - 1 + 1]);
    }
  }

  lemma FillingStep(m: nat, t: nat, a: nat, b: nat, c: nat)
    requires m >= 1 && t != a && t != b && t != c
    ensures FifoLogStep(m, t, [], [t], 0, 0)
    ensures m > 1 ==> FifoLogStep(m, t, [a], [t, a], 0, 0)
    ensures m > 2 ==> FifoLogStep(m, t, [a, b], [t, a, b], 0, 0)
    ensures m > 3 ==> FifoLogStep(m, t, [a, b, c], [t, a, b, c], 0, 0)
  {
  }

  lemma ThreeStep(t: nat, a: nat, b: nat, c: nat, h: nat)
    ensures t != a && t != b && t != c ==> FifoLogStep(3, t, [a, b, c], [t, a, b], h, h)
    ensures t == a || t == b || t == c ==> FifoLogStep(3, t, [a, b, c], [a, b, c], h, h + 1)
  {
    assert [a, b, c][..2] == [a, b];
  }

  lemma FourStep(t: nat, a: nat, b: nat, c: nat, d: nat, h: nat)
    ensures t != a && t != b && t != c && t != d ==> FifoLogStep(4, t, [a, b, c, d], [t, a, b, c], h, h)
    ensures t == a || t == b || t == c || t == d ==> FifoLogStep(4, t, [a, b, c, d], [a, b, c, d], h, h + 1)
  {
    assert [a, b, c, d][..3] == [a, b, c];
  }

  lemma ThreeBlocks(tags: seq<nat>, orders: seq<seq<nat>>, hits: seq<nat>)
    requires tags == [1, 2, 3, 4, 1, 2, 5, 1, 2, 3, 4, 5]
    requires hits == [0, 0, 0, 0, 0, 0, 0, 0, 1, 2, 2, 2, 3]
    requires orders == [[], [1], [2, 1], [3, 2, 1], [4, 3, 2], [1, 4, 3], [2, 1, 4], [5, 2, 1], [5, 2, 1],
                        [5, 2, 1], [3, 5, 2], [4, 3, 5], [4, 3, 5]]
    ensures FifoLog(3, tags, orders, hits)
  {
    forall i | 0 <= i < 12
      ensures FifoLogStep(3, tags[i], orders[i], orders[i + 1], hits[i], hits[i + 1])
    {
      if i == 0 {
        FillingStep(3, 1, 0, 0, 0);
      } else if i == 1 {
        FillingStep(3, 2, 1, 0, 0);
      } else if i == 2 {
        FillingStep(3, 3, 2, 1, 0);
      } else if i == 3 {
        ThreeStep(4, 3, 2, 1, 0);
      } else if i == 4 {
        ThreeStep(1, 4, 3, 2, 0);
      } else if i == 5 {
        ThreeStep(2, 1, 4, 3, 0);
      } else if i == 6 {
        ThreeStep(5, 2, 1, 4, 0);
      } else if i == 7 {
        ThreeStep(1, 5, 2, 1, 0);
      } else if i == 8 {
        ThreeStep(2, 5, 2, 1, 1);
      } else if i == 9 {
        ThreeStep(3, 5, 2, 1, 2);
      } else if i == 10 {
        ThreeStep(4, 3, 5, 2, 2);
      } else {
        ThreeStep(5, 4, 3, 5, 2);
      }
    }
  }

  lemma FourBlocks(tags: seq<nat>, orders: seq<seq<nat>>, hits: seq<nat>)
    requires tags == [1, 2, 3, 4, 1, 2, 5, 1, 2, 3, 4, 5]
    requires hits == [0, 0, 0, 0, 0, 1, 2, 2, 2, 2, 2, 2, 2]
    requires orders == [[], [1], [2, 1], [3, 2, 1], [4, 3, 2, 1], [4, 3, 2, 1], [4, 3, 2, 1], [5, 4, 3, 2],
                        [1, 5, 4, 3], [2, 1, 5, 4], [3, 2, 1, 5], [4, 3, 2, 1], [5, 4, 3, 2]]
    ensures FifoLog(4, tags, orders, hits)
  {
    forall i | 0 <= i < 12
      ensures FifoLogStep(4, tags[i], orders[i], orders[i + 1], hits[i], hits[i + 1])
    {
      if i == 0 {
        FillingStep(4, 1, 0, 0, 0);
      } else if i == 1 {
        FillingStep(4, 2, 1, 0, 0);
      } else if i == 2 {
        FillingStep(4, 3, 2, 1, 0);
      } else if i == 3 {
        FillingStep(4, 4, 3, 2, 1);
      } else if i == 4 {
        FourStep(1, 4, 3, 2, 1, 0);
      } else if i == 5 {
        FourStep(2, 4, 3, 2, 1, 1);
      } else if i == 6 {
        FourStep(5, 4, 3, 2, 1, 2);
      } else if i == 7 {
        FourStep(1, 5, 4, 3, 2, 2);
      } else if i == 8 {
        FourStep(2, 1, 5, 4, 3, 2);
      } else if i == 9 {
        FourStep(3, 2, 1, 5, 4, 2);
      } else if i == 10 {
        FourStep(4, 3, 2, 1, 5, 2);
      } else {
        FourStep(5, 4, 3, 2, 1, 2);
      }
    }
  }

  /** `LruHitsNeverFall` needs `lru`: under fifo four blocks can hit less often than three. */
  lemma FifoCanLoseHits(cfg: Config) returns (tags: seq<nat>)
    requires !cfg.lru
    ensures Run(WithBlocks(cfg, 4), EmptyCache(1), Loads(tags), |tags|).stats.loadHits
            < Run(WithBlocks(cfg, 3), EmptyCache(1), Loads(tags), |tags|).stats.loadHits
  {
    tags := [1, 2, 3, 4, 1, 2, 5, 1, 2, 3, 4, 5];
    var three := [[], [1], [2, 1], [3, 2, 1], [4, 3, 2], [1, 4, 3], [2, 1, 4], [5, 2, 1], [5, 2, 1],
                  [5, 2, 1], [3, 5, 2], [4, 3, 5], [4, 3, 5]];
    var threeHits := [0, 0, 0, 0, 0, 0, 0, 0, 1, 2, 2, 2, 3];
    var four := [[], [1], [2, 1], [3, 2, 1], [4, 3, 2, 1], [4, 3, 2, 1], [4, 3, 2, 1], [5, 4, 3, 2],
                 [1, 5, 4, 3], [2, 1, 5, 4], [3, 2, 1, 5], [4, 3, 2, 1], [5, 4, 3, 2]];
    var fourHits := [0, 0, 0, 0, 0, 1, 2, 2, 2, 2, 2, 2, 2];
    ThreeBlocks(tags, three, threeHits);
    FourBlocks(tags, four, fourHits);
    FifoLogIsRun(WithBlocks(cfg, 3), tags, three, threeHits, |tags|);
    FifoLogIsRun(WithBlocks(cfg, 4), tags, four, fourHits, |tags|);
  }

  /** On one trace, n blocks per set hit at least as often as m blocks. */
  ghost predicate HitsGrow(cfg: Config, m: nat, n: nat, sets: nat, trace: seq<Access>)
    requires 1 <= m <= n && InRange(trace, sets)
  {
    var small := Run(WithBlocks(cfg, m), EmptyCache(sets), trace, |trace|).stats;
    var large := Run(WithBlocks(cfg, n), EmptyCache(sets), trace, |trace|).stats;
    small.loadHits <= large.loadHits && small.storeHits <= large.storeHits
  }

  /** More blocks per set never cost hits, whatever the trace, if and only if the policy is LRU. */
  lemma HitsGrowExactlyUnderLru(cfg: Config)
    ensures (forall m: nat, n: nat, sets: nat, trace: seq<Access> | 1 <= m <= n && InRange(trace, sets) ::
              HitsGrow(cfg, m, n, sets, trace))
            <==> cfg.lru
  {
    if cfg.lru {
      forall m: nat, n: nat, sets: nat, trace: seq<Access> | 1 <= m <= n && InRange(trace, sets)
        ensures HitsGrow(cfg, m, n, sets, trace)
      {
        LruHitsNeverFall(cfg, m, n, sets, trace, |trace|);
      }
    } else {
      var tags := FifoCanLoseHits(cfg);
      assert !HitsGrow(cfg, 3, 4, 1, Loads(tags));
    }
  }
}
