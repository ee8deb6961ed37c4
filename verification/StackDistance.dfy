/** When an LRU cache hits: the stack-distance theorem. */
module StackDistance {
  import opened Replacement

  /** The tags set `s` was asked for by the first `n` accesses, most recently used
      first: an LRU list that never evicts. */
  function Recency(trace: seq<Access>, n: nat, s: nat): seq<nat>
    requires n <= |trace|
  {
    if n == 0 then []
    else
      var r, a := Recency(trace, n - 1, s), trace[n - 1];
      if a.index == s then Use(r, a.tag) else r
  }

  function Take(s: seq<nat>, n: nat): seq<nat> {
    if |s| <= n then s else s[..n]
  }

  /** The list after its tag `t` is used. */
  function Use(r: seq<nat>, t: nat): seq<nat> { if t in r then Touch(r, t) else [t] + r }

  lemma UseMembers(r: seq<nat>, t: nat)
    requires Distinct(r)
    ensures Distinct(Use(r, t)) && forall x :: x in Use(r, t) <==> x == t || x in r
  {
    if t in r {
      TouchMembers(r, t);
    }
  }

  lemma {:induction false} RecencyDistinct(trace: seq<Access>, n: nat, s: nat)
    requires n <= |trace|
    ensures Distinct(Recency(trace, n, s))
    ensures forall t :: t in Recency(trace, n, s) <==> t in TagsIn(trace, 0, n, s)
  {
    if n > 0 {
      RecencyDistinct(trace, n - 1, s);
      TagsInStep(trace, 0, n - 1, s);
      if trace[n - 1].index == s {
        UseMembers(Recency(trace, n - 1, s), trace[n - 1].tag);
      }
    } else {
      assert TagsIn(trace, 0, n, s) == {};
    }
  }

  lemma TakeMembers(r: seq<nat>, t: nat, blocks: nat)
    requires Distinct(r) && t in r
    ensures t in Take(r, blocks) <==> IndexOf(r, t) < blocks
    ensures t in Take(r, blocks) ==> IndexOf(Take(r, blocks), t) == IndexOf(r, t)
  {
    var k := IndexOf(r, t);
    if k < blocks {
      IndexUnique(Take(r, blocks), t, k);
    }
  }

  /** Touching a tag that is kept, or inserting one that was dropped, has the same
      effect on the kept part as touching it in the full list. */
  lemma TouchTake(r: seq<nat>, t: nat, blocks: nat)
    requires blocks >= 1 && Distinct(r) && t in r
    ensures Take(Touch(r, t), blocks) ==
            if t in Take(r, blocks) then Touch(Take(r, blocks), t) else Insert(Take(r, blocks), t, blocks)
  {
    TakeMembers(r, t, blocks);
    var k := IndexOf(r, t);
    if |r| <= blocks {
    } else if k < blocks {
      assert r[..blocks][..k] == r[..k];
      assert r[..blocks][k + 1..] == r[k + 1..blocks];
      TouchFrontSlices(r, t, blocks);
    } else {
      assert r[..blocks][..blocks - 1] == r[..blocks - 1];
      assert Touch(r, t)[..blocks] == [t] + r[..blocks - 1];
    }
  }

  /** The LRU list of a set is the front of its recency list. */
  lemma {:induction false} LruIsRecencyPrefix(cfg: Config, sets: nat, trace: seq<Access>, n: nat, s: nat)
    requires cfg.lru && cfg.allocate && cfg.blocks >= 1
    requires InRange(trace, sets) && n <= |trace| && s < sets
    ensures OrderAt(cfg, EmptyCache(sets), trace, n, s) == Take(Recency(trace, n, s), cfg.blocks)
  {
    if n > 0 {
      LruIsRecencyPrefix(cfg, sets, trace, n - 1, s);
      RecencyDistinct(trace, n - 1, s);
      var r, t := Recency(trace, n - 1, s), trace[n - 1].tag;
      if trace[n - 1].index == s && t in r {
        TouchTake(r, t, cfg.blocks);
      }
    }
  }

  /** The first |d| elements of `r` are exactly the set `d`. */
  ghost predicate InFront(r: seq<nat>, d: set<nat>) {
    |d| <= |r| && forall t :: t in d <==> t in r[..|d|]
  }

  lemma SameMembers(x: seq<nat>, t: nat, y: seq<nat>)
    ensures forall e :: e in x + [t] + y <==> e in [t] + x + y
  {
  }

  lemma TouchFrontSlices(r: seq<nat>, t: nat, m: nat)
    requires m <= |r| && t in r && IndexOf(r, t) < m
    ensures var k := IndexOf(r, t);
            r[..m] == r[..k] + [t] + r[k + 1..m] && Touch(r, t)[..m] == [t] + r[..k] + r[k + 1..m]
  {
    var k := IndexOf(r, t);
    var front, back := [t] + r[..k], r[k + 1..];
    assert Touch(r, t) == front + back && |front| == k + 1;
    assert (front + back)[..m] == front + back[..m - |front|];
    assert back[..m - |front|] == r[k + 1..m];
  }

  lemma TouchFrontOld(r: seq<nat>, t: nat, d: set<nat>)
    requires Distinct(r) && t in r && InFront(r, d) && t in d
    ensures InFront(Touch(r, t), d)
  {
    var k, m := IndexOf(r, t), |d|;
    IndexUniqueInFront(r, t, m);
    TouchFrontSlices(r, t, m);
    SameMembers(r[..k], t, r[k + 1..m]);
  }

  lemma InPrefix(r: seq<nat>, t: nat, m: nat)
    requires m <= |r| && t in r
    ensures IndexOf(r, t) < m ==> t in r[..m]
  {
    if IndexOf(r, t) < m {
      assert r[..m][IndexOf(r, t)] == t;
    }
  }

  lemma TouchFrontNew(r: seq<nat>, t: nat, d: set<nat>)
    requires Distinct(r) && t in r && InFront(r, d) && t !in d
    ensures InFront(Touch(r, t), d + {t})
  {
    var m := |d|;
    InPrefix(r, t, m);
    assert Touch(r, t)[..m + 1] == [t] + r[..m];
  }

  lemma TouchFront(r: seq<nat>, t: nat, d: set<nat>)
    requires Distinct(r) && t in r && InFront(r, d)
    ensures InFront(Touch(r, t), d + {t})
  {
    if t in d {
      TouchFrontOld(r, t, d);
      assert d + {t} == d;
    } else {
      TouchFrontNew(r, t, d);
    }
  }

  lemma IndexUniqueInFront(r: seq<nat>, t: nat, m: nat)
    requires m <= |r| && t in r[..m]
    ensures t in r && IndexOf(r, t) < m
  {
  }

  lemma PushFront(r: seq<nat>, t: nat, d: set<nat>)
    requires t !in r && InFront(r, d)
    ensures InFront([t] + r, d + {t})
  {
    assert t !in d;
    assert ([t] + r)[..|d| + 1] == [t] + r[..|d|];
  }

  lemma UseFront(r: seq<nat>, t: nat, d: set<nat>)
    requires Distinct(r) && InFront(r, d)
    ensures InFront(Use(r, t), d + {t})
  {
    if t in r {
      TouchFront(r, t, d);
    } else {
      PushFront(r, t, d);
    }
  }

  /** The tags used since access `j` are exactly the front of the recency list. */
  lemma {:induction false} RecentTagsInFront(trace: seq<Access>, j: nat, n: nat, s: nat)
    requires j <= n <= |trace|
    ensures InFront(Recency(trace, n, s), TagsIn(trace, j, n, s))
  {
    if j < n {
      var d, r, a := TagsIn(trace, j, n - 1, s), Recency(trace, n - 1, s), trace[n - 1];
      RecentTagsInFront(trace, j, n - 1, s);
      TagsInStep(trace, j, n - 1, s);
      if a.index == s {
        assert Distinct(r) by { RecencyDistinct(trace, n - 1, s); }
        UseFront(r, a.tag, d);
      }
    } else {
      assert TagsIn(trace, j, n, s) == {};
    }
  }

  /** `j` is the last access before `i` to the same block as access `i`. */
  ghost predicate LastUse(trace: seq<Access>, i: nat, j: nat) {
    && j < i < |trace|
    && trace[j].index == trace[i].index && trace[j].tag == trace[i].tag
    && forall k :: j < k < i && trace[k].index == trace[i].index ==> trace[k].tag != trace[i].tag
  }

  /** The distinct other tags of the set that were used between access `j` and access `i`. */
  function Between(trace: seq<Access>, j: nat, i: nat): set<nat>
    requires j < i < |trace|
  {
    TagsIn(trace, j + 1, i, trace[i].index)
  }

  lemma WindowFromUse(trace: seq<Access>, i: nat, j: nat)
    requires LastUse(trace, i, j)
    ensures trace[i].tag !in Between(trace, j, i)
    ensures TagsIn(trace, j, i, trace[i].index) == Between(trace, j, i) + {trace[i].tag}
  {
    var s, d := trace[i].index, Between(trace, j, i);
    var d' := TagsIn(trace, j, i, s);
    forall x | x in d' ensures x in d + {trace[i].tag} {
      var k :| j <= k < i && trace[k].index == s && trace[k].tag == x;
    }
    assert trace[j].tag in d';
  }

  lemma NextInFront(r: seq<nat>, d: set<nat>, t: nat)
    requires Distinct(r) && InFront(r, d) && InFront(r, d + {t}) && t !in d
    ensures t in r && IndexOf(r, t) == |d|
  {
    var m := |d|;
    assert |d + {t}| == m + 1;
    IndexUniqueInFront(r, t, m + 1);
    InPrefix(r, t, m);
  }

  /** The reuse distance of access `i`, last used at `j`, is its position in the recency list. */
  lemma PositionIsDistance(trace: seq<Access>, i: nat, j: nat)
    requires LastUse(trace, i, j)
    ensures var r := Recency(trace, i, trace[i].index);
            trace[i].tag in r && IndexOf(r, trace[i].tag) == |Between(trace, j, i)|
  {
    var s := trace[i].index;
    RecencyDistinct(trace, i, s);
    RecentTagsInFront(trace, j + 1, i, s);
    RecentTagsInFront(trace, j, i, s);
    WindowFromUse(trace, i, j);
    NextInFront(Recency(trace, i, s), Between(trace, j, i), trace[i].tag);
  }

  lemma {:induction false} LastUseExists(trace: seq<Access>, i: nat, n: nat) returns (j: nat)
    requires n <= i < |trace| && trace[i].tag in TagsIn(trace, 0, n, trace[i].index)
    requires forall k :: n <= k < i && trace[k].index == trace[i].index ==> trace[k].tag != trace[i].tag
    ensures LastUse(trace, i, j)
  {
    if trace[n - 1].index == trace[i].index && trace[n - 1].tag == trace[i].tag {
      j := n - 1;
    } else {
      TagsInStep(trace, 0, n - 1, trace[i].index);
      j := LastUseExists(trace, i, n - 1);
    }
  }

  /** Under write-allocate LRU an access hits if and only if its block was used before
      and fewer than `blocks` distinct other tags of its set were used since. */
  lemma StackDistanceTheorem(cfg: Config, sets: nat, trace: seq<Access>, i: nat)
    requires cfg.lru && cfg.allocate && cfg.blocks >= 1 && InRange(trace, sets) && i < |trace|
    ensures HitAt(cfg, EmptyCache(sets), trace, i) <==>
            exists j: nat :: LastUse(trace, i, j) && |Between(trace, j, i)| < cfg.blocks
  {
    var s, t := trace[i].index, trace[i].tag;
    var r := Recency(trace, i, s);
    LruIsRecencyPrefix(cfg, sets, trace, i, s);
    RecencyDistinct(trace, i, s);
    if t in r {
      TakeMembers(r, t, cfg.blocks);
      var j := LastUseExists(trace, i, i);
      PositionIsDistance(trace, i, j);
    }
    forall j: nat | LastUse(trace, i, j) ensures t in r && IndexOf(r, t) == |Between(trace, j, i)| {
      PositionIsDistance(trace, i, j);
    }
  }
}
