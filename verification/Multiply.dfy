/** Multiplication by shifting and adding, and exactly when it is right. */
module Multiply {
  import opened Bits
  import opened UInt256
  import opened LeftShift

  /** The product after the lowest `n` bits of `left`. */
  function Accumulated(left: Wide, right: Wide, n: nat): Wide
    requires n <= 256
  {
    if n == 0 then ZERO
    else if BitOf(left, n - 1) then Sum(Accumulated(left, right, n - 1), Shifted(right, n - 1))
    else Accumulated(left, right, n - 1)
  }

  predicate BitOf(x: Wide, n: nat)
    requires n < 256
  {
    Bit(x[n / 64], n % 64)
  }

  function Product(left: Wide, right: Wide): Wide { Accumulated(left, right, 256) }

  method Mul(left: Wide, right: Wide) returns (product: Wide)
    ensures product == Product(left, right)
  {
    product := ZERO;
    for i := 0 to 4
      invariant product == Accumulated(left, right, 64 * i)
    {
      for j := 0 to 64
        invariant product == Accumulated(left, right, 64 * i + j)
      {
        Position(i, j);
        if Bit(left[i], j) {
          var shifted := ShiftLeft(right, j + i * 64);
          product := Add(product, shifted);
        }
      }
    }
  }

  lemma Position(i: nat, j: nat)
    requires j < 64
    ensures (64 * i + j) / 64 == i && (64 * i + j) % 64 == j
  {
  }

  lemma ValueAsConcat(x: Wide)
    ensures Value(x) == Concat(x[0], Concat(x[1], Concat(x[2], x[3], 64), 64), 64)
  {
    RadixIsPow2();
  }

  /** The bits of the limbs are the bits of the value. */
  lemma BitOfValue(x: Wide, n: nat)
    requires n < 256
    ensures BitOf(x, n) <==> Bit(Value(x), n)
  {
    RadixIsPow2();
    ValueAsConcat(x);
    var high := Concat(x[2], x[3], 64);
    ConcatBits(x[0], Concat(x[1], high, 64), 64, n);
    if n >= 64 {
      ConcatBits(x[1], high, 64, n - 64);
    }
    if n >= 128 {
      ConcatBits(x[2], x[3], 64, n - 128);
    }
  }

  /** The number made of the lowest `n` bits. */
  function Low(x: nat, n: nat): nat { Remainder(x, Pow2(n)) }

  lemma LowStep(x: nat, n: nat)
    ensures Low(x, n + 1) == Low(x, n) + if Bit(x, n) then Pow2(n) else 0
  {
    var q, r := DivMod(x, Pow2(n));
    BitIsDigit(x, n);
    var h, b := q / 2, q % 2;
    MulDistributes(2 * h, b, Pow2(n));
    MulAssociative(h, 2, Pow2(n));
    MulAssociative(2, h, Pow2(n));
    assert q == 2 * h + b && (b == 1 <==> Bit(x, n));
    assert b == 0 ==> b * Pow2(n) == 0;
    assert Pow2(n + 1) == 2 * Pow2(n);
    QuotientUnique(x, Pow2(n + 1), h, r + b * Pow2(n));
  }

  /** Everything the first `n` additions are short of. */
  function LostBy(left: Wide, right: Wide, n: nat): (lost: nat)
    requires n <= 256
    ensures lost <= n * RADIX3
  {
    if n == 0 then 0
    else if BitOf(left, n - 1) then
      LostBy(left, right, n - 1) + Lost(Accumulated(left, right, n - 1), Shifted(right, n - 1))
    else LostBy(left, right, n - 1)
  }

  lemma ModAdd(a: int, b: int, lost: int, before: int, exact: int)
    requires Mod(a + before) == Mod(exact)
    ensures Mod(Mod(a + Mod(b) - lost) + before + lost) == Mod(exact + b)
  {
    var k1 := ModParts(a + Mod(b) - lost);
    var k2 := ModParts(b);
    var k3 := ModParts(a + before);
    var k4 := ModParts(exact);
    ModEqual(Mod(a + Mod(b) - lost) + before + lost, exact + b, k3 - k4 - k2 - k1);
  }

  /** `product`, and what was lost on the way to it, make the low `n` bits of `l` times `r`. */
  predicate ShortOf(product: nat, lost: nat, l: nat, r: nat, n: nat) {
    Mod(product + lost) == Mod(Low(l, n) * r)
  }

  lemma ShortOfNothing(l: nat, r: nat)
    ensures ShortOf(0, 0, l, r, 0)
  {
    QuotientUnique(l, Pow2(0), l, 0);
  }

  /** One more addition, in exact arithmetic. */
  lemma LowTimes(l: nat, r: nat, n: nat)
    requires Bit(l, n)
    ensures Low(l, n + 1) * r == Low(l, n) * r + r * Pow2(n)
  {
    LowStep(l, n);
    MulDistributes(Low(l, n), Pow2(n), r);
  }

  lemma AddOneValue(l: nat, r: nat, n: nat, product: nat, sum: nat, before: nat, lost: nat)
    requires ShortOf(product, before, l, r, n) && Bit(l, n)
    requires sum == Mod(product + Mod(r * Pow2(n)) - lost)
    ensures ShortOf(sum, before + lost, l, r, n + 1)
  {
    LowTimes(l, r, n);
    ModAdd(product, r * Pow2(n), lost, before, Low(l, n) * r);
  }

  lemma AddOne(l: nat, r: nat, n: nat, a: Wide, s: Wide, before: nat)
    requires ShortOf(Value(a), before, l, r, n) && Value(s) == Mod(r * Pow2(n)) && Bit(l, n)
    ensures ShortOf(Value(Sum(a, s)), before + Lost(a, s), l, r, n + 1)
  {
    SumValue(a, s);
    AddOneValue(l, r, n, Value(a), Value(Sum(a, s)), before, Lost(a, s));
  }

  lemma AddNone(l: nat, r: nat, n: nat, product: nat, lost: nat)
    requires ShortOf(product, lost, l, r, n) && !Bit(l, n)
    ensures ShortOf(product, lost, l, r, n + 1)
  {
    LowStep(l, n);
  }

  /** The product so far is short of the exact one by what was dropped so far. */
  lemma {:induction false} AccumulatedValue(left: Wide, right: Wide, n: nat)
    requires n <= 256
    ensures ShortOf(Value(Accumulated(left, right, n)), LostBy(left, right, n), Value(left), Value(right), n)
  {
    var l, r := Value(left), Value(right);
    if n == 0 {
      assert Value(ZERO) == 0;
      ShortOfNothing(l, r);
    } else {
      AccumulatedValue(left, right, n - 1);
      BitOfValue(left, n - 1);
      var a, s, before := Accumulated(left, right, n - 1), Shifted(right, n - 1), LostBy(left, right, n - 1);
      if BitOf(left, n - 1) {
        ShiftedValue(right, n - 1);
        AddOne(l, r, n - 1, a, s, before);
      } else {
        AddNone(l, r, n - 1, Value(a), before);
      }
    }
  }

  /** The limbs of a value. */
  function Limbs(v: nat): (x: Wide)
    requires v < MODULUS
    ensures Value(x) == v
  {
    var a, b := v / RADIX, v / RADIX2;
    assert b == a / RADIX;
    [v % RADIX, a % RADIX, b % RADIX, v / RADIX3]
  }

  /** Does bit `n` of `left` make the multiplication drop a carry? Both operands of the
      addition are exact here: the product with the bits below `n`, and `right * 2^n`. */
  predicate DropsAtBit(left: Wide, right: Wide, n: nat)
    requires n < 256
  {
    BitOf(left, n) && Drops(Limbs(Mod(Low(Value(left), n) * Value(right))), Limbs(Mod(Value(right) * Pow2(n))))
  }

  lemma LostShows(product: nat, lost: nat, exact: int)
    requires product < MODULUS && lost < MODULUS && Mod(product + lost) == Mod(exact)
    ensures product == Mod(exact) <==> lost == 0
  {
  }

  lemma LimbsUnique(x: Wide, v: nat)
    requires v < MODULUS && Value(x) == v
    ensures x == Limbs(v)
  {
    ValueInjective(x, Limbs(v));
  }

  lemma ShortOfNone(product: nat, l: nat, r: nat, n: nat)
    requires product < MODULUS && ShortOf(product, 0, l, r, n)
    ensures product == Mod(Low(l, n) * r)
  {
    LostShows(product, 0, Low(l, n) * r);
  }

  /** As long as nothing was lost, the source adds exactly the operands of exact arithmetic. */
  lemma ExactSoFar(left: Wide, right: Wide, n: nat)
    requires n < 256 && LostBy(left, right, n) == 0
    ensures Accumulated(left, right, n) == Limbs(Mod(Low(Value(left), n) * Value(right)))
  {
    AccumulatedValue(left, right, n);
    ShortOfNone(Value(Accumulated(left, right, n)), Value(left), Value(right), n);
    LimbsUnique(Accumulated(left, right, n), Mod(Low(Value(left), n) * Value(right)));
  }

  lemma ExactShift(right: Wide, n: nat)
    ensures Shifted(right, n) == Limbs(Mod(Value(right) * Pow2(n)))
  {
    ShiftedValue(right, n);
    LimbsUnique(Shifted(right, n), Mod(Value(right) * Pow2(n)));
  }

  lemma FirstLoss(left: Wide, right: Wide, n: nat)
    requires n < 256
    ensures LostBy(left, right, n + 1) == 0 <==> LostBy(left, right, n) == 0 && !DropsAtBit(left, right, n)
  {
    if LostBy(left, right, n) == 0 {
      ExactSoFar(left, right, n);
      ExactShift(right, n);
    }
  }

  lemma {:induction false} LostNothing(left: Wide, right: Wide, n: nat)
    requires n <= 256
    ensures LostBy(left, right, n) == 0 <==> forall k: nat :: k < n ==> !DropsAtBit(left, right, k)
  {
    if n > 0 {
      LostNothing(left, right, n - 1);
      FirstLoss(left, right, n - 1);
    }
  }

  lemma LowIsAll(x: nat)
    requires x < MODULUS
    ensures Low(x, 256) == x
  {
    ModulusIsPow2();
    QuotientUnique(x, Pow2(256), 0, x);
  }

  /** The product is exact modulo 2^256 if and only if no bit of `left` makes an addition
      drop a carry: what is lost never adds up to a multiple of 2^256. */
  lemma ProductExact(left: Wide, right: Wide)
    ensures Value(Product(left, right)) == Mod(Value(left) * Value(right))
            <==> forall n: nat :: n < 256 ==> !DropsAtBit(left, right, n)
  {
    AccumulatedValue(left, right, 256);
    LowIsAll(Value(left));
    LostNothing(left, right, 256);
    LostShows(Value(Product(left, right)), LostBy(left, right, 256), Value(left) * Value(right));
  }

  predicate BitsFrom(x: nat, start: nat, k: nat) { Bit(x, start + k) }

  /** Are there 64 one bits in a row? */
  ghost predicate SixtyFourOnes(x: nat) {
    exists start: nat :: OnesFrom(x, start)
  }

  ghost predicate OnesFrom(x: nat, start: nat) {
    forall k: nat :: k < 64 ==> BitsFrom(x, start, k)
  }

  lemma {:induction false} AllOnes(n: nat, k: nat)
    requires k < n
    ensures Bit(Pow2(n) - 1, k)
  {
    if k > 0 {
      AllOnes(n - 1, k - 1);
      assert (Pow2(n) - 1) / 2 == Pow2(n - 1) - 1;
    }
  }

  lemma TimesPow2Bits(r: nat, n: nat, p: nat)
    requires p < 256
    ensures Bit(Mod(r * Pow2(n)), p) <==> p >= n && Bit(r, p - n)
  {
    ModulusIsPow2();
    ModBits(r * Pow2(n), 256, p);
    ConcatBits(0, r, n, p);
    if p < n {
      HighBitsClear(0, 0, p);
    }
  }

  lemma LimbBit(r: nat, n: nat, i: nat, k: nat)
    requires i < 4 && k < 64 && Limbs(Mod(r * Pow2(n)))[i] == ONES
    ensures 64 * i + k >= n && Bit(r, 64 * i + k - n)
  {
    RadixIsPow2();
    AllOnes(64, k);
    Position(i, k);
    BitOfValue(Limbs(Mod(r * Pow2(n))), 64 * i + k);
    TimesPow2Bits(r, n, 64 * i + k);
  }

  lemma OnesLimb(r: nat, n: nat, i: nat)
    requires i < 4 && Limbs(Mod(r * Pow2(n)))[i] == ONES
    ensures SixtyFourOnes(r)
  {
    LimbBit(r, n, i, 0);
    var start := 64 * i - n;
    forall k: nat | k < 64 ensures BitsFrom(r, start, k) {
      LimbBit(r, n, i, k);
    }
    assert OnesFrom(r, start);
  }

  /** Multiplying by a number without 64 ones in a row is exact for every left operand. */
  lemma NoOnesRun(left: Wide, right: Wide)
    requires !SixtyFourOnes(Value(right))
    ensures Value(Product(left, right)) == Mod(Value(left) * Value(right))
  {
    ProductExact(left, right);
    forall n: nat | n < 256 ensures !DropsAtBit(left, right, n) {
      if DropsAtBit(left, right, n) {
        OnesLimb(Value(right), n, if Limbs(Mod(Value(right) * Pow2(n)))[1] == ONES then 1 else 2);
      }
    }
  }

  /** In particular by every number below 2^63. */
  lemma SmallRight(left: Wide, right: Wide)
    requires Value(right) < Pow2(63)
    ensures Value(Product(left, right)) == Mod(Value(left) * Value(right))
  {
    if SixtyFourOnes(Value(right)) {
      var start: nat :| OnesFrom(Value(right), start);
      assert BitsFrom(Value(right), start, 63);
      HighBitsClear(Value(right), 63, start + 63);
    }
    NoOnesRun(left, right);
  }

  lemma SmallMod(v: nat)
    requires v < MODULUS
    ensures Mod(v) == v
  {
    ModUnique(v, v, 0);
  }

  lemma LowOfThree()
    ensures Low(3, 1) == 1 && Pow2(1) == 2 && Bit(3, 1)
  {
    QuotientUnique(3, 2, 1, 1);
  }

  /** A product that is wrong: 3 times 2^128 - 1. */
  lemma ProductCanBeWrong()
    ensures var left: Wide, right: Wide := [3, 0, 0, 0], [ONES, ONES, 0, 0];
            Value(Product(left, right)) != Mod(Value(left) * Value(right))
  {
    var left: Wide, right: Wide, twice: Wide := [3, 0, 0, 0], [ONES, ONES, 0, 0], [ONES - 1, ONES, 1, 0];
    assert DropsAtBit(left, right, 1) by {
      LowOfThree();
      SmallMod(Value(right));
      LimbsUnique(right, Value(right));
      SmallMod(Value(twice));
      LimbsUnique(twice, Value(twice));
    }
    ProductExact(left, right);
  }
}
