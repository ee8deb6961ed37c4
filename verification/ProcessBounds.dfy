/** How large the tree of processes gets: sizes of ranges, depth, and number of forks. */
module ProcessBounds {
  import opened Bits

  /** The size of the left one of two halves: n / 2, rounded down. It is defined without a
      division, which unfolding `Forks` and `Depth` would nest; HalfIs says what it is. */
  function Half(n: int): int { if n <= 1 then 0 else 1 + Half(n - 2) }

  lemma HalfIs(n: int)
    requires n >= 0
    ensures Half(n) == n / 2 && 2 * Half(n) <= n <= 2 * Half(n) + 1
  {
  }

  /** The forks of one call on `n` elements: one for itself, then both halves. */
  function Forks(t: int, n: int): (f: int)
    requires t >= 1
    ensures f >= 0
    decreases n
  {
    if n <= t then 0
    else
      HalfIs(n);
      1 + Forks(t, Half(n)) + Forks(t, n - Half(n))
  }

  lemma SplitForks(t: int, n: int, l: int, r: int)
    requires t >= 1 && n > t && l == Half(n) && r == n - l
    ensures Forks(t, n) == 1 + Forks(t, l) + Forks(t, r)
  {
  }

  /** `k` pieces of `size` elements are found among `n`. */
  predicate Fit(k: int, size: int, n: int) { k * size <= n }

  lemma FitBoth(a: int, b: int, size: int, l: int, r: int)
    requires Fit(a, size, l) && Fit(b, size, r)
    ensures Fit(a + b, size, l + r)
  {
    MulDistributes(a, b, size);
  }

  lemma HalvesAreLarge(t: int, size: int, n: int)
    requires 2 * size <= t + 1 && 1 <= t < n
    ensures size <= Half(n) < n && size <= n - Half(n) < n
  {
    HalfIs(n);
  }

  /** No split leaves a range below (t+1)/2 elements, so the final ranges fit the array. */
  lemma {:induction false} FinalRangesFit(t: int, size: int, n: int)
    requires t >= 1 && 2 * size <= t + 1 && size <= n
    ensures Fit(Forks(t, n) + 1, size, n)
    decreases n
  {
    if n > t {
      HalvesAreLarge(t, size, n);
      var l, r := Half(n), n - Half(n);
      FinalRangesFit(t, size, l);
      FinalRangesFit(t, size, r);
      SplitForks(t, n, l, r);
      FitBoth(Forks(t, l) + 1, Forks(t, r) + 1, size, l, r);
    }
  }

  /** For n > t there are at most n / floor((t+1)/2) - 1 forks. */
  lemma ForkBound(t: int, n: int)
    requires t >= 1 && n > t
    ensures Forks(t, n) <= n / ((t + 1) / 2) - 1
  {
    var size := (t + 1) / 2;
    FinalRangesFit(t, size, n);
    QuotientAtLeast(Forks(t, n) + 1, size, n);
  }

  lemma QuotientAtLeast(k: int, d: int, n: int)
    requires d > 0 && k * d <= n
    ensures k <= n / d
  {
    var q, r := n / d, n % d;
    if q < k {
      MulMonotone(q + 1, k, d);
      MulDistributes(q, 1, d);
    }
  }

  function Max(a: int, b: int): int { if a >= b then a else b }

  /** How deep calls nest. */
  function Depth(t: int, n: int): (d: nat)
    requires t >= 1
    decreases n
  {
    if n <= t then 0
    else
      HalfIs(n);
      1 + Max(Depth(t, Half(n)), Depth(t, n - Half(n)))
  }

  lemma SplitDepth(t: int, n: int, l: int, r: int)
    requires t >= 1 && n > t && l == Half(n) && r == n - l
    ensures Depth(t, n) == 1 + Max(Depth(t, l), Depth(t, r))
  {
  }

  /** The size of the largest range among the calls at depth `d`; 0 if there are none. */
  function Largest(t: int, n: int, d: nat): int
    decreases d
  {
    if d == 0 then n
    else if n <= t then 0
    else Max(Largest(t, Half(n), d - 1), Largest(t, n - Half(n), d - 1))
  }

  /** x / d, rounded up. */
  function Ceiling(x: int, d: nat): int
    requires d > 0
  {
    (x + d - 1) / d
  }

  /** n / 2^d, rounded up. */
  function CeilingHalves(n: int, d: nat): int { Ceiling(n, Pow2(d)) }

  /** x / d rounded up is the least c with x <= c * d. */
  lemma CeilingIs(x: int, d: nat, c: int)
    requires d > 0
    ensures Ceiling(x, d) <= c <==> x <= c * d
  {
    var q, r := (x + d - 1) / d, (x + d - 1) % d;
    if q <= c {
      MulMonotone(q, c, d);
    } else {
      MulMonotone(c + 1, q, d);
      MulDistributes(c, 1, d);
    }
  }

  lemma CeilingMonotone(m: int, n: int, d: nat)
    requires m <= n
    ensures CeilingHalves(m, d) <= CeilingHalves(n, d)
  {
    CeilingIs(n, Pow2(d), CeilingHalves(n, d));
    CeilingIs(m, Pow2(d), CeilingHalves(n, d));
  }

  lemma HalfFits(n: nat, c: int, p: nat)
    ensures n - Half(n) <= c * p <==> n <= c * (2 * p)
  {
    var x := c * p;
    HalfIs(n);
    assert c * (2 * p) == 2 * x;
  }

  lemma HalvedCeiling(n: nat, p: nat)
    requires p > 0
    ensures Ceiling(n - Half(n), p) == Ceiling(n, 2 * p)
  {
    var a, b := Ceiling(n - Half(n), p), Ceiling(n, 2 * p);
    CeilingIs(n - Half(n), p, a);
    CeilingIs(n, 2 * p, a);
    HalfFits(n, a, p);
    CeilingIs(n - Half(n), p, b);
    CeilingIs(n, 2 * p, b);
    HalfFits(n, b, p);
  }

  /** Halving, rounding up, and then d more halvings are d + 1 halvings. */
  lemma CeilingTwice(n: nat, d: nat)
    ensures CeilingHalves(n - Half(n), d) == CeilingHalves(n, d + 1)
  {
    HalvedCeiling(n, Pow2(d));
  }

  /** The larger half has at least as many halvings ahead of it. */
  lemma LargerHalf(n: nat, d: nat)
    ensures 0 <= Half(n) <= n - Half(n)
    ensures CeilingHalves(Half(n), d) <= CeilingHalves(n - Half(n), d) == CeilingHalves(n, d + 1)
  {
    HalfIs(n);
    CeilingMonotone(Half(n), n - Half(n), d);
    CeilingTwice(n, d);
  }

  /** The depth is the least d at which the largest range is short enough to sort in place. */
  lemma {:induction false} DepthBound(t: int, n: nat, d: nat)
    requires t >= 1
    ensures Depth(t, n) <= d <==> CeilingHalves(n, d) <= t
    decreases n
  {
    if n <= t {
      ShortRange(t, n, d);
    } else if d == 0 {
      CeilingIs(n, 1, n);
      CeilingIs(n, 1, n - 1);
    } else {
      LargerHalf(n, d - 1);
      var l, r := Half(n), n - Half(n);
      HalvesShrink(t, n);
      DepthBound(t, l, d - 1);
      DepthBound(t, r, d - 1);
      SplitDepth(t, n, l, r);
    }
  }

  lemma ShortRange(t: int, n: nat, d: nat)
    requires n <= t
    ensures CeilingHalves(n, d) <= t
  {
    CeilingIs(n, Pow2(d), t);
    MulMonotone(1, Pow2(d), t);
  }

  lemma HalvesShrink(t: int, n: nat)
    requires 1 <= t < n
    ensures Half(n) < n && n - Half(n) < n
  {
    HalfIs(n);
  }

  lemma DepthMonotone(t: int, m: nat, n: nat)
    requires t >= 1 && m <= n
    ensures Depth(t, m) <= Depth(t, n)
  {
    DepthBound(t, n, Depth(t, n));
    CeilingMonotone(m, n, Depth(t, n));
    DepthBound(t, m, Depth(t, n));
  }

  /** The largest range at depth d has ceiling(n / 2^d) elements, as long as calls nest that
      deep. */
  lemma {:induction false} LargestRange(t: int, n: nat, d: nat)
    requires t >= 1
    ensures Largest(t, n, d) == if d <= Depth(t, n) then CeilingHalves(n, d) else 0
    decreases d
  {
    if d > 0 && n > t {
      LargerHalf(n, d - 1);
      var l, r := Half(n), n - Half(n);
      LargestRange(t, l, d - 1);
      LargestRange(t, r, d - 1);
      DepthMonotone(t, l, r);
      SplitDepth(t, n, l, r);
      CeilingMonotone(0, r, d - 1);
      CeilingOfZero(d - 1);
    }
  }

  lemma CeilingOfZero(d: nat)
    ensures CeilingHalves(0, d) == 0
  {
    CeilingIs(0, Pow2(d), 0);
    CeilingIs(0, Pow2(d), -1);
  }

  /** What is left of n elements after taking the larger half `d` times. */
  function LargerHalves(n: int, d: nat): int
    decreases d
  {
    if d == 0 then n else LargerHalves(n - Half(n), d - 1)
  }

  lemma {:induction false} LargerHalvesIs(n: nat, d: nat)
    ensures LargerHalves(n, d) == CeilingHalves(n, d)
    decreases d
  {
    if d > 0 {
      LargerHalf(n, d - 1);
      LargerHalvesIs(n - Half(n), d - 1);
    }
  }

  lemma LargerHalvesMonotone(m: nat, n: nat, d: nat)
    requires m <= n
    ensures LargerHalves(m, d) <= LargerHalves(n, d)
  {
    LargerHalvesIs(m, d);
    LargerHalvesIs(n, d);
    CeilingMonotone(m, n, d);
  }
}
