/** The sets of a cache do not influence each other. */
module Independence {
  import opened Replacement

  /** The accesses of a trace that go to set `s`, in order. */
  function Project(trace: seq<Access>, n: nat, s: nat): (p: seq<Access>)
    requires n <= |trace|
    ensures forall i :: 0 <= i < |p| ==> p[i].index == s
  {
    if n == 0 then []
    else Project(trace, n - 1, s) + if trace[n - 1].index == s then [trace[n - 1]] else []
  }

  /** Accesses to different sets commute. */
  lemma DifferentSetsCommute(cfg: Config, c: CacheState, a: Access, b: Access)
    requires cfg.blocks >= 1 && a.index < |c.sets| && b.index < |c.sets| && a.index != b.index
    ensures Step(cfg, Step(cfg, c, a), b) == Step(cfg, Step(cfg, c, b), a)
  {
    var ab, ba := Step(cfg, Step(cfg, c, a), b), Step(cfg, Step(cfg, c, b), a);
    assert ab.sets == ba.sets;
  }

  /** A longer trace runs like its prefix first. */
  lemma {:induction false} RunPrefix(cfg: Config, c: CacheState, p: seq<Access>, a: Access, n: nat)
    requires cfg.blocks >= 1 && InRange(p + [a], |c.sets|) && n <= |p|
    requires InRange(p, |c.sets|)
    ensures Run(cfg, c, p + [a], n) == Run(cfg, c, p, n)
  {
    if n > 0 {
      RunPrefix(cfg, c, p, a, n - 1);
    }
  }

  /** The run of set `s` alone: only the accesses that go to it. */
  function Alone(cfg: Config, c: CacheState, trace: seq<Access>, n: nat, s: nat): CacheState
    requires cfg.blocks >= 1 && InRange(trace, |c.sets|) && n <= |trace| && s < |c.sets|
  {
    Run(cfg, c, Project(trace, n, s), |Project(trace, n, s)|)
  }

  lemma AloneStep(cfg: Config, c: CacheState, trace: seq<Access>, n: nat, s: nat)
    requires cfg.blocks >= 1 && InRange(trace, |c.sets|) && n < |trace| && s < |c.sets|
    ensures Alone(cfg, c, trace, n + 1, s) ==
            if trace[n].index == s then Step(cfg, Alone(cfg, c, trace, n, s), trace[n])
            else Alone(cfg, c, trace, n, s)
  {
    if trace[n].index == s {
      var p := Project(trace, n, s);
      RunPrefix(cfg, c, p, trace[n], |p|);
    } else {
      assert Project(trace, n + 1, s) == Project(trace, n, s);
    }
  }

  /** Simulating the whole trace leaves each set as simulating its own accesses alone does. */
  lemma {:induction false} SetsAreIndependent(cfg: Config, c: CacheState, trace: seq<Access>, n: nat, s: nat)
    requires cfg.blocks >= 1 && InRange(trace, |c.sets|) && n <= |trace| && s < |c.sets|
    ensures Run(cfg, c, trace, n).sets[s] == Alone(cfg, c, trace, n, s).sets[s]
  {
    if n > 0 {
      SetsAreIndependent(cfg, c, trace, n - 1, s);
      var alone, alone' := Alone(cfg, c, trace, n - 1, s), Alone(cfg, c, trace, n, s);
      assert alone' == if trace[n - 1].index == s then Step(cfg, alone, trace[n - 1]) else alone by {
        AloneStep(cfg, c, trace, n - 1, s);
      }
      SetsStep(cfg, c, trace, n - 1);
    }
  }

  function Sum(xs: seq<Stats>, n: nat): Stats
    requires n <= |xs|
  {
    if n == 0 then ZERO_STATS else Plus(Sum(xs, n - 1), xs[n - 1])
  }

  lemma {:induction false} SumOfOneChange(xs: seq<Stats>, n: nat, i: nat, z: Stats)
    requires i < |xs| && n <= |xs|
    ensures Sum(xs[i := Plus(xs[i], z)], n) == if i < n then Plus(Sum(xs, n), z) else Sum(xs, n)
  {
    if n > 0 {
      SumOfOneChange(xs, n - 1, i, z);
    }
  }

  lemma {:induction false} SumOfZeros(xs: seq<Stats>, n: nat)
    requires n <= |xs| && forall i :: 0 <= i < |xs| ==> xs[i] == ZERO_STATS
    ensures Sum(xs, n) == ZERO_STATS
  {
    if n > 0 {
      SumOfZeros(xs, n - 1);
    }
  }

  /** `x` are the statistics of set `s` simulated alone. */
  ghost predicate StatsOf(cfg: Config, c: CacheState, trace: seq<Access>, n: nat, s: nat, x: Stats)
    requires cfg.blocks >= 1 && InRange(trace, |c.sets|) && n <= |trace| && s < |c.sets|
  {
    x == Alone(cfg, c, trace, n, s).stats
  }

  /** `xs[s]` are the statistics of set `s` simulated alone. */
  ghost predicate StatsAlone(cfg: Config, c: CacheState, trace: seq<Access>, n: nat, xs: seq<Stats>)
    requires cfg.blocks >= 1 && InRange(trace, |c.sets|) && n <= |trace|
  {
    |xs| == |c.sets| && forall s :: 0 <= s < |xs| ==> StatsOf(cfg, c, trace, n, s, xs[s])
  }

  lemma AloneStats(cfg: Config, c: CacheState, trace: seq<Access>, n: nat, s: nat)
    requires cfg.blocks >= 1 && InRange(trace, |c.sets|) && n < |trace| && s < |c.sets|
    ensures Alone(cfg, c, trace, n + 1, s).stats ==
            if trace[n].index == s then Plus(Alone(cfg, c, trace, n, s).stats, CostAt(cfg, c, trace, n))
            else Alone(cfg, c, trace, n, s).stats
  {
    AloneStep(cfg, c, trace, n, s);
    SetsAreIndependent(cfg, c, trace, n, s);
  }

  /** `z` was added to entry `i` of `ys`. */
  predicate OneChange(ys: seq<Stats>, i: nat, z: Stats, xs: seq<Stats>) {
    i < |ys| && xs == ys[i := Plus(ys[i], z)]
  }

  lemma StatsAloneStep(cfg: Config, c: CacheState, trace: seq<Access>, m: nat, n: nat, xs: seq<Stats>)
      returns (ys: seq<Stats>)
    requires cfg.blocks >= 1 && InRange(trace, |c.sets|) && m < |trace| && n == m + 1
    requires StatsAlone(cfg, c, trace, n, xs)
    ensures StatsAlone(cfg, c, trace, m, ys)
    ensures OneChange(ys, trace[m].index, CostAt(cfg, c, trace, m), xs)
  {
    ys := seq(|c.sets|, s requires 0 <= s < |c.sets| => Alone(cfg, c, trace, m, s).stats);
    var i, z := trace[m].index, CostAt(cfg, c, trace, m);
    forall s: nat | s < |c.sets| ensures xs[s] == ys[i := Plus(ys[i], z)][s] {
      assert StatsOf(cfg, c, trace, n, s, xs[s]);
      AloneStats(cfg, c, trace, m, s);
    }
  }

  lemma NothingAlone(cfg: Config, c: CacheState, trace: seq<Access>, xs: seq<Stats>)
    requires cfg.blocks >= 1 && c.stats == ZERO_STATS && InRange(trace, |c.sets|) && StatsAlone(cfg, c, trace, 0, xs)
    ensures forall s :: 0 <= s < |xs| ==> xs[s] == ZERO_STATS
  {
    forall s | 0 <= s < |xs| ensures xs[s] == ZERO_STATS {
      assert StatsOf(cfg, c, trace, 0, s, xs[s]);
    }
  }

  lemma SumStep(ys: seq<Stats>, i: nat, z: Stats, xs: seq<Stats>, before: Stats, after: Stats)
    requires OneChange(ys, i, z, xs) && before == Sum(ys, |ys|) && after == Plus(before, z)
    ensures after == Sum(xs, |xs|)
  {
    SumOfOneChange(ys, |ys|, i, z);
  }

  /** The statistics after `n` accesses are the sum of `xs`. */
  ghost predicate SumsTo(cfg: Config, c: CacheState, trace: seq<Access>, n: nat, xs: seq<Stats>)
    requires cfg.blocks >= 1 && InRange(trace, |c.sets|) && n <= |trace|
  {
    Run(cfg, c, trace, n).stats == Sum(xs, |xs|)
  }

  lemma NoAccess(cfg: Config, c: CacheState, trace: seq<Access>, xs: seq<Stats>)
    requires cfg.blocks >= 1 && c.stats == ZERO_STATS && InRange(trace, |c.sets|) && StatsAlone(cfg, c, trace, 0, xs)
    ensures SumsTo(cfg, c, trace, 0, xs)
  {
    NothingAlone(cfg, c, trace, xs);
    SumOfZeros(xs, |xs|);
  }

  lemma OneMoreAccess(cfg: Config, c: CacheState, trace: seq<Access>, m: nat, n: nat, ys: seq<Stats>, xs: seq<Stats>)
    requires cfg.blocks >= 1 && InRange(trace, |c.sets|) && m < |trace| && n == m + 1 && |ys| == |c.sets|
    requires OneChange(ys, trace[m].index, CostAt(cfg, c, trace, m), xs)
    requires SumsTo(cfg, c, trace, m, ys)
    ensures SumsTo(cfg, c, trace, n, xs)
  {
    var before, after, z := Run(cfg, c, trace, m).stats, Run(cfg, c, trace, n).stats, CostAt(cfg, c, trace, m);
    assert after == Plus(before, z) by { StatsStep(cfg, c, trace, m); }
    SumStep(ys, trace[m].index, z, xs, before, after);
  }

  lemma {:induction false} SumsAlong(cfg: Config, c: CacheState, trace: seq<Access>, n: nat, xs: seq<Stats>)
    requires cfg.blocks >= 1 && c.stats == ZERO_STATS && InRange(trace, |c.sets|) && n <= |trace|
    requires StatsAlone(cfg, c, trace, n, xs)
    ensures SumsTo(cfg, c, trace, n, xs)
  {
    if n == 0 {
      NoAccess(cfg, c, trace, xs);
    } else {
      var m := n - 1;
      var ys := StatsAloneStep(cfg, c, trace, m, n, xs);
      SumsAlong(cfg, c, trace, m, ys);
      OneMoreAccess(cfg, c, trace, m, n, ys, xs);
    }
  }

  /** The statistics of the whole run are the sum of those of the sets simulated alone. */
  lemma StatisticsAreSums(cfg: Config, c: CacheState, trace: seq<Access>, n: nat, xs: seq<Stats>)
    requires cfg.blocks >= 1 && c.stats == ZERO_STATS && InRange(trace, |c.sets|) && n <= |trace|
    requires StatsAlone(cfg, c, trace, n, xs)
    ensures Run(cfg, c, trace, n).stats == Sum(xs, |xs|)
  {
    SumsAlong(cfg, c, trace, n, xs);
  }
}
