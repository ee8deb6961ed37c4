/** 256-bit unsigned integers in four 64-bit limbs: addition with the source's carry test,
    negation and subtraction. */
module UInt256 {

  const RADIX: nat := 0x1_0000000000000000
  const ONES: nat := 0xffffffffffffffff
  const RADIX2: nat := 0x1_0000000000000000_0000000000000000
  const RADIX3: nat := 0x1_0000000000000000_0000000000000000_0000000000000000
  const MODULUS: nat := 0x1_0000000000000000_0000000000000000_0000000000000000_0000000000000000

  /** A uint64_t. */
  type Limb = x: nat | x <= ONES

  /** The four limbs, least significant first. */
  type Wide = data: seq<Limb> | |data| == 4 witness [0, 0, 0, 0]

  const ZERO: Wide := [0, 0, 0, 0]
  const ONE: Wide := [1, 0, 0, 0]

  function Value(x: Wide): (v: nat)
    ensures v < MODULUS
  {
    x[0] + RADIX * x[1] + RADIX2 * x[2] + RADIX3 * x[3]
  }

  function Mod(v: int): (m: nat)
    ensures m < MODULUS
  {
    v % MODULUS
  }

  /** One limb's sum in 64-bit arithmetic. */
  function LimbSum(one: Limb, two: Limb, carry: nat): Limb { (one + two + carry) % RADIX }

  /** The carry as the source detects it: the sum is below one of the operands. */
  function CarryOut(one: Limb, two: Limb, carry: nat): nat {
    if LimbSum(one, two, carry) < one || LimbSum(one, two, carry) < two then 1 else 0
  }

  /** The source's carry into limb `i`. */
  function CarryInto(left: Wide, right: Wide, i: nat): nat
    requires i <= 4
  {
    if i == 0 then 0 else CarryOut(left[i - 1], right[i - 1], CarryInto(left, right, i - 1))
  }

  function Sum(left: Wide, right: Wide): Wide {
    [LimbSum(left[0], right[0], CarryInto(left, right, 0)), LimbSum(left[1], right[1], CarryInto(left, right, 1)),
     LimbSum(left[2], right[2], CarryInto(left, right, 2)), LimbSum(left[3], right[3], CarryInto(left, right, 3))]
  }

  method Add(left: Wide, right: Wide) returns (sum: Wide)
    ensures sum == Sum(left, right)
  {
    sum := ZERO;
    var carry := 0;
    for i := 0 to 4
      invariant carry == CarryInto(left, right, i)
      invariant i > 0 ==> sum[0] == Sum(left, right)[0]
      invariant i > 1 ==> sum[1] == Sum(left, right)[1]
      invariant i > 2 ==> sum[2] == Sum(left, right)[2]
      invariant i > 3 ==> sum[3] == Sum(left, right)[3]
    {
      var one, two := left[i], right[i];
      var temp := (one + two + carry) % RADIX;
      if temp < one || temp < two {
        carry := 1;
      } else {
        carry := 0;
      }
      sum := sum[i := temp];
    }
    assert sum == [sum[0], sum[1], sum[2], sum[3]];
  }

  /** In exact arithmetic, do the limbs below limb 1, or below limb 2, produce a carry? */
  predicate Carries1(left: Wide, right: Wide) { left[0] + right[0] >= RADIX }

  predicate Carries2(left: Wide, right: Wide) {
    left[0] + RADIX * left[1] + right[0] + RADIX * right[1] >= RADIX2
  }

  /** Both operands are all ones in a limb a carry goes into, so the carry out of it is
      dropped. Only limbs 1 and 2 matter: nothing enters limb 0 and nothing leaves limb 3. */
  predicate Drops1(left: Wide, right: Wide) { left[1] == ONES && right[1] == ONES && Carries1(left, right) }

  predicate Drops2(left: Wide, right: Wide) { left[2] == ONES && right[2] == ONES && Carries2(left, right) }

  predicate Drops(left: Wide, right: Wide) { Drops1(left, right) || Drops2(left, right) }

  /** What the sum is short of. */
  function Lost(left: Wide, right: Wide): (lost: nat)
    ensures lost <= RADIX3 && (lost == 0 <==> !Drops(left, right))
  {
    if Drops1(left, right) then RADIX2 else if Drops2(left, right) then RADIX3 else 0
  }

  /** The carry test is right but for an all-ones limb in both operands with a carry in. */
  lemma CarryTest(one: Limb, two: Limb, carry: nat)
    requires carry <= 1
    ensures one + two + carry == LimbSum(one, two, carry) + RADIX * CarryOut(one, two, carry)
                                 + (if one == ONES && two == ONES && carry == 1 then RADIX else 0)
  {
  }

  lemma ModUnique(v: int, r: nat, k: int)
    requires v == r + k * MODULUS && r < MODULUS
    ensures Mod(v) == r
  {
  }

  /** Does the source drop the carry out of limb `i`? */
  predicate DropsAt(left: Wide, right: Wide, i: nat)
    requires i < 4
  {
    left[i] == ONES && right[i] == ONES && CarryInto(left, right, i) == 1
  }

  lemma LimbParts(left: Wide, right: Wide, i: nat)
    requires i < 4
    ensures CarryInto(left, right, i) <= 1
    ensures left[i] + right[i] + CarryInto(left, right, i)
            == LimbSum(left[i], right[i], CarryInto(left, right, i)) + RADIX * CarryInto(left, right, i + 1)
               + (if DropsAt(left, right, i) then RADIX else 0)
  {
    CarryTest(left[i], right[i], CarryInto(left, right, i));
  }

  lemma DropsMeaning(left: Wide, right: Wide)
    ensures !DropsAt(left, right, 0)
    ensures DropsAt(left, right, 1) <==> Drops1(left, right)
    ensures DropsAt(left, right, 2) <==> !Drops1(left, right) && Drops2(left, right)
  {
    LimbParts(left, right, 0);
    LimbParts(left, right, 1);
  }

  /** The limbs, their carries and what was dropped add up; what leaves limb 3 is a
      multiple of 2^256. */
  lemma SumParts(left: Wide, right: Wide) returns (over: nat)
    ensures Value(left) + Value(right) == Value(Sum(left, right)) + Lost(left, right) + over * MODULUS
  {
    LimbParts(left, right, 0);
    LimbParts(left, right, 1);
    LimbParts(left, right, 2);
    LimbParts(left, right, 3);
    DropsMeaning(left, right);
    over := CarryInto(left, right, 4) + if DropsAt(left, right, 3) then 1 else 0;
  }

  /** Addition gives the exact sum modulo 2^256, less the carry it drops, if any. */
  lemma SumValue(left: Wide, right: Wide)
    ensures Value(Sum(left, right)) == Mod(Value(left) + Value(right) - Lost(left, right))
  {
    var over := SumParts(left, right);
    ModUnique(Value(left) + Value(right) - Lost(left, right), Value(Sum(left, right)), over);
  }

  /** Addition is exact modulo 2^256 if and only if no carry is dropped. */
  lemma SumExact(left: Wide, right: Wide)
    ensures Value(Sum(left, right)) == Mod(Value(left) + Value(right)) <==> !Drops(left, right)
  {
    SumValue(left, right);
  }

  /** `~val` in every limb. */
  function Inverted(val: Wide): Wide { [ONES - val[0], ONES - val[1], ONES - val[2], ONES - val[3]] }

  function Negated(val: Wide): Wide { Sum(Inverted(val), ONE) }

  method Negate(val: Wide) returns (result: Wide)
    ensures result == Negated(val)
  {
    result := ZERO;
    for i := 0 to 4
      invariant forall j :: 0 <= j < i ==> result[j] == ONES - val[j]
    {
      result := result[i := ONES - val[i]];
    }
    assert result == Inverted(val);
    result := Add(result, ONE);
  }

  lemma InvertedValue(val: Wide)
    ensures Value(Inverted(val)) == MODULUS - 1 - Value(val)
  {
  }

  lemma ModShift(v: int)
    ensures Mod(v + MODULUS) == Mod(v)
  {
  }

  /** Negation is exact for every value. */
  lemma NegatedValue(val: Wide)
    ensures Value(Negated(val)) == Mod(0 - Value(val))
  {
    SumExact(Inverted(val), ONE);
    assert !Drops(Inverted(val), ONE);
    InvertedValue(val);
    assert Value(ONE) == 1;
    ModShift(0 - Value(val));
  }

  function Difference(left: Wide, right: Wide): Wide { Sum(left, Negated(right)) }

  method Sub(left: Wide, right: Wide) returns (result: Wide)
    ensures result == Difference(left, right)
  {
    var negated := Negate(right);
    result := Add(left, negated);
  }

  lemma ModPlusMod(a: int, b: int, m: nat)
    requires m == Mod(b)
    ensures Mod(a + m) == Mod(a + b)
  {
  }

  /** Subtraction is exact if and only if adding the negated operand drops no carry. */
  lemma DifferenceExact(left: Wide, right: Wide)
    ensures Value(Difference(left, right)) == Mod(Value(left) - Value(right)) <==> !Drops(left, Negated(right))
  {
    var l: int, r: int, negated: int := Value(left), Value(right), Value(Negated(right));
    assert Mod(l + negated) == Mod(l - r) by {
      NegatedValue(right);
      ModPlusMod(l, 0 - r, negated);
    }
    SumExact(left, Negated(right));
  }

  /** A sum that is short of 2^128: 2^128 - 1 and 1 plus a carry into a limb of ones. */
  lemma SumCanBeWrong()
    ensures var x: Wide := [ONES, ONES, 0, 0]; Value(Sum(x, x)) != Mod(Value(x) + Value(x))
  {
    SumExact([ONES, ONES, 0, 0], [ONES, ONES, 0, 0]);
  }

  lemma LowestDigit(a: nat, b: nat, x: nat, y: nat)
    requires x + RADIX * a == y + RADIX * b && x < RADIX && y < RADIX
    ensures x == y && a == b
  {
  }

  /** A difference that is wrong: 2^128 - 1 less 2^256 - 2^128 + 1. */
  lemma DifferenceCanBeWrong()
    ensures var x: Wide, y: Wide := [ONES, ONES, 0, 0], [1, 0, ONES, ONES];
            Value(Difference(x, y)) != Mod(Value(x) - Value(y))
  {
    DifferenceExact([ONES, ONES, 0, 0], [1, 0, ONES, ONES]);
  }

  lemma ModParts(v: int) returns (k: int)
    ensures v == Mod(v) + k * MODULUS
  {
    k := v / MODULUS;
  }

  lemma ModEqual(u: int, v: int, k: int)
    requires u == v + k * MODULUS
    ensures Mod(u) == Mod(v)
  {
    var q := ModParts(v);
    ModUnique(u, Mod(v), q + k);
  }

  /** Different limbs, different values. */
  lemma ValueInjective(x: Wide, y: Wide)
    requires Value(x) == Value(y)
    ensures x == y
  {
    LowestDigit(x[1] + RADIX * x[2] + RADIX2 * x[3], y[1] + RADIX * y[2] + RADIX2 * y[3], x[0], y[0]);
    LowestDigit(x[2] + RADIX * x[3], y[2] + RADIX * y[3], x[1], y[1]);
    LowestDigit(x[3], y[3], x[2], y[2]);
    assert x == [x[0], x[1], x[2], x[3]] && y == [y[0], y[1], y[2], y[3]];
  }
}
