/** Bits of natural numbers: the meaning given to the source's `x & (1 << k)`,
    `x |= 1 << k` and `x &= ~(1 << k)`. */
module Bits {

  function Pow2(k: nat): (p: nat)
    ensures p >= 1
  {
    if k == 0 then 1 else 2 * Pow2(k - 1)
  }

  /** Bit `k` of `x`: `x & (1 << k)` is non-zero. */
  predicate Bit(x: nat, k: nat) {
    if k == 0 then x % 2 == 1 else Bit(x / 2, k - 1)
  }

  /** `x | (1 << k)` */
  function SetBit(x: nat, k: nat): nat {
    if k == 0 then x / 2 * 2 + 1 else x % 2 + 2 * SetBit(x / 2, k - 1)
  }

  /** `x & ~(1 << k)` */
  function ClearBit(x: nat, k: nat): nat {
    if k == 0 then x / 2 * 2 else x % 2 + 2 * ClearBit(x / 2, k - 1)
  }

  /** Division and remainder, named to keep non-linear terms out of larger proofs. */
  function Quotient(x: nat, d: nat): nat
    requires d > 0
  {
    x / d
  }

  function Remainder(x: nat, d: nat): (r: nat)
    requires d > 0
    ensures r < d
  {
    x % d
  }

  /** `high * 2^n + low`, named so that the pieces below keep their shape. */
  function Concat(low: nat, high: nat, n: nat): nat { high * Pow2(n) + low }

  lemma {:induction false} Pow2Sum(a: nat, b: nat)
    ensures Pow2(a + b) == Pow2(a) * Pow2(b)
  {
    if a > 0 {
      Pow2Sum(a - 1, b);
      assert Pow2(a + b) == 2 * Pow2(a - 1 + b);
    }
  }

  /** Dividing by 2^k and taking the parity reads bit k. */
  lemma {:induction false} BitIsDigit(x: nat, k: nat)
    ensures Bit(x, k) <==> Quotient(x, Pow2(k)) % 2 == 1
  {
    if k > 0 {
      BitIsDigit(x / 2, k - 1);
      DivTwice(x, 2, Pow2(k - 1));
    }
  }

  lemma MulAssociative(a: int, b: int, c: int)
    ensures a * b * c == a * (b * c)
  {
  }

  lemma MulDistributes(a: int, b: int, c: int)
    ensures (a + b) * c == a * c + b * c
  {
  }

  lemma MulMonotone(a: int, b: int, c: nat)
    requires a <= b
    ensures a * c <= b * c
  {
  }

  lemma DivMod(x: nat, d: nat) returns (q: nat, r: nat)
    requires d > 0
    ensures x == q * d + r && r < d
    ensures q == Quotient(x, d) && r == Remainder(x, d)
  {
    q, r := x / d, x % d;
  }

  lemma DivTwice(x: nat, a: nat, b: nat)
    requires a > 0 && b > 0
    ensures a * b > 0 && Quotient(x, a * b) == Quotient(Quotient(x, a), b)
  {
    var y, s := DivMod(x, a);
    var q, r := DivMod(y, b);
    MulDistributes(q * b, r, a);
    MulAssociative(q, b, a);
    MulMonotone(r, b - 1, a);
    MulDistributes(b, -1, a);
    var d, m := a * b, r * a + s;
    MultipleTooLarge(b, a);
    QuotientUnique(x, d, q, m);
  }

  lemma MultipleTooLarge(k: int, d: nat)
    requires d > 0
    ensures k > 0 ==> k * d >= d
    ensures k < 0 ==> k * d + d <= 0
  {
  }

  lemma QuotientUnique(x: nat, d: nat, q: nat, m: nat)
    requires d > 0 && x == q * d + m && m < d
    ensures Quotient(x, d) == q && Remainder(x, d) == m
  {
    var q', m' := DivMod(x, d);
    MulDistributes(q - q', q', d);
    MultipleTooLarge(q - q', d);
  }

  lemma {:induction false} DivPow2Twice(x: nat, a: nat, b: nat)
    ensures Quotient(x, Pow2(a + b)) == Quotient(Quotient(x, Pow2(a)), Pow2(b))
  {
    if a == 0 {
      QuotientUnique(x, 1, x, 0);
    } else {
      DivTwice(x, 2, Pow2(a - 1 + b));
      DivTwice(x, 2, Pow2(a - 1));
      DivPow2Twice(x / 2, a - 1, b);
    }
  }

  lemma {:induction false} SetBitBits(x: nat, k: nat, j: nat)
    ensures Bit(SetBit(x, k), j) == (j == k || Bit(x, j))
  {
    if j > 0 && k > 0 {
      SetBitBits(x / 2, k - 1, j - 1);
    }
  }

  lemma {:induction false} ClearBitBits(x: nat, k: nat, j: nat)
    ensures Bit(ClearBit(x, k), j) == (j != k && Bit(x, j))
  {
    if j > 0 && k > 0 {
      ClearBitBits(x / 2, k - 1, j - 1);
    }
  }

  lemma {:induction false} SetBitBound(x: nat, k: nat, n: nat)
    requires x < Pow2(n) && k < n
    ensures SetBit(x, k) < Pow2(n)
  {
    if k > 0 {
      SetBitBound(x / 2, k - 1, n - 1);
      assert SetBit(x, k) == x % 2 + 2 * SetBit(x / 2, k - 1);
    } else {
      assert x / 2 < Pow2(n - 1);
    }
  }

  lemma {:induction false} ClearBitBound(x: nat, k: nat)
    ensures ClearBit(x, k) <= x
  {
    if k > 0 {
      ClearBitBound(x / 2, k - 1);
    }
  }

  /** Two numbers below 2^n with the same first n bits are equal. */
  lemma {:induction false} SameBits(x: nat, y: nat, n: nat)
    requires x < Pow2(n) && y < Pow2(n)
    requires forall k: nat :: k < n ==> Bit(x, k) == Bit(y, k)
    ensures x == y
  {
    if n > 0 {
      forall k: nat | k < n - 1 ensures Bit(x / 2, k) == Bit(y / 2, k) {
        assert Bit(x, k + 1) == Bit(y, k + 1);
      }
      SameBits(x / 2, y / 2, n - 1);
      assert Bit(x, 0) == Bit(y, 0);
    }
  }

  /** Bits at and above position n of a number below 2^n are clear. */
  lemma {:induction false} HighBitsClear(x: nat, n: nat, k: nat)
    requires x < Pow2(n) && n <= k
    ensures !Bit(x, k)
  {
    if k > 0 {
      if n == 0 {
        HighBitsClear(x / 2, 0, k - 1);
      } else {
        HighBitsClear(x / 2, n - 1, k - 1);
      }
    }
  }

  lemma TimesTwice(high: nat, p: nat)
    ensures high * (2 * p) == 2 * (high * p)
  {
  }

  /** A concatenation without its lowest bit. */
  lemma ConcatStep(low: nat, high: nat, n: nat)
    requires n > 0 && low < Pow2(n)
    ensures low / 2 < Pow2(n - 1)
    ensures Concat(low, high, n) / 2 == Concat(low / 2, high, n - 1) && Concat(low, high, n) % 2 == low % 2
  {
    TimesTwice(high, Pow2(n - 1));
  }

  /** The low half and the high half of a concatenation keep their bits. */
  lemma {:induction false} ConcatBits(low: nat, high: nat, n: nat, k: nat)
    requires low < Pow2(n)
    ensures Bit(Concat(low, high, n), k) == if k < n then Bit(low, k) else Bit(high, k - n)
  {
    if n > 0 {
      ConcatStep(low, high, n);
      if k > 0 {
        ConcatBits(low / 2, high, n - 1, k - 1);
      }
    }
  }

  lemma SplitConcat(x: nat, n: nat) returns (low: nat, high: nat)
    ensures low < Pow2(n) && x == Concat(low, high, n)
    ensures low == Remainder(x, Pow2(n)) && high == Quotient(x, Pow2(n))
  {
    high, low := DivMod(x, Pow2(n));
  }

  lemma ModBits(x: nat, n: nat, k: nat)
    ensures Bit(Remainder(x, Pow2(n)), k) == (k < n && Bit(x, k))
  {
    var low, high := SplitConcat(x, n);
    ConcatBits(low, high, n, k);
    if k >= n {
      HighBitsClear(low, n, k);
    }
  }

  lemma DivBits(x: nat, n: nat, k: nat)
    ensures Bit(Quotient(x, Pow2(n)), k) == Bit(x, k + n)
  {
    var low, high := SplitConcat(x, n);
    ConcatBits(low, high, n, k + n);
  }
}
