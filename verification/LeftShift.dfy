/** The in-place left shift, one bit position at a time from the top. */
module LeftShift {
  import opened Bits
  import opened UInt256

  lemma Pow2Doubles(n: nat)
    ensures Pow2(n + 2) == 4 * Pow2(n)
  {
  }

  /** Doubling an exponent squares the power. */
  lemma Square(n: nat, m: nat, p: nat)
    requires Pow2(n) == p && m == n + n
    ensures Pow2(m) == p * p
  {
    Pow2Sum(n, n);
  }

  lemma RadixIsPow2()
    ensures Pow2(64) == RADIX
  {
    Pow2Doubles(0);
    Pow2Doubles(2);
    Square(4, 8, 0x10);
    Square(8, 16, 0x100);
    Square(16, 32, 0x1_0000);
    Square(32, 64, 0x1_0000_0000);
  }

  /** An unsigned int. */
  type Unsigned = x: nat | x < 0x1_0000_0000

  /** How often the loop runs: it compares with the shift converted to a signed int. */
  function Rounds(shift: Unsigned): nat { if shift < 0x8000_0000 then shift else 0 }

  /** One limb moved up by one, with what comes in at the bottom. */
  function Doubled(limb: Limb, low: bool): Limb { (2 * limb + if low then 1 else 0) % RADIX }

  function ShiftedOnce(x: Wide): Wide {
    [Doubled(x[0], false), Doubled(x[1], Bit(x[0], 63)), Doubled(x[2], Bit(x[1], 63)), Doubled(x[3], Bit(x[2], 63))]
  }

  function Shifted(x: Wide, n: nat): Wide {
    if n == 0 then x else ShiftedOnce(Shifted(x, n - 1))
  }

  /** `limb |= 1 << k` or `limb &= ~(1 << k)` */
  function PutBit(limb: Limb, k: nat, b: bool): Limb
    requires k < 64
  {
    RadixIsPow2();
    SetBitBound(limb, k, 64);
    ClearBitBound(limb, k);
    if b then SetBit(limb, k) else ClearBit(limb, k)
  }

  predicate MovedAt(was: Limb, cur: Limb, k: nat, p: nat) {
    Bit(cur, p) == if p >= k && p > 0 then Bit(was, p - 1) else Bit(was, p)
  }

  /** Bits `k` and up have been moved, those below have not. */
  ghost predicate MovedDownTo(was: Limb, cur: Limb, k: nat) {
    forall p: nat :: p < 64 ==> MovedAt(was, cur, k, p)
  }

  lemma PutBitBits(limb: Limb, k: nat, b: bool, p: nat)
    requires k < 64
    ensures Bit(PutBit(limb, k, b), p) == if p == k then b else Bit(limb, p)
  {
    SetBitBits(limb, k, p);
    ClearBitBits(limb, k, p);
  }

  lemma MoveBit(was: Limb, cur: Limb, k: nat)
    requires 0 < k < 64 && MovedDownTo(was, cur, k + 1)
    ensures MovedDownTo(was, PutBit(cur, k, Bit(cur, k - 1)), k)
  {
    assert MovedAt(was, cur, k + 1, k - 1);
    var cur' := PutBit(cur, k, Bit(cur, k - 1));
    forall p: nat | p < 64 ensures MovedAt(was, cur', k, p) {
      assert MovedAt(was, cur, k + 1, p);
      PutBitBits(cur, k, Bit(cur, k - 1), p);
    }
  }

  lemma DoubledBits(limb: Limb, low: bool, p: nat)
    requires p < 64
    ensures Bit(Doubled(limb, low), p) == if p == 0 then low else Bit(limb, p - 1)
  {
    RadixIsPow2();
    var twice := 2 * limb + if low then 1 else 0;
    ModBits(twice, 64, p);
    assert twice / 2 == limb;
  }

  /** Once the lowest bit is in, the limb is doubled. */
  lemma LastBit(was: Limb, cur: Limb, low: bool)
    requires MovedDownTo(was, cur, 1)
    ensures PutBit(cur, 0, low) == Doubled(was, low)
  {
    RadixIsPow2();
    forall p: nat | p < 64 ensures Bit(PutBit(cur, 0, low), p) == Bit(Doubled(was, low), p) {
      assert MovedAt(was, cur, 1, p);
      PutBitBits(cur, 0, low, p);
      DoubledBits(was, low, p);
    }
    SameBits(PutBit(cur, 0, low), Doubled(was, low), 64);
  }

  method ShiftLeft(val: Wide, shift: Unsigned) returns (result: Wide)
    ensures result == Shifted(val, Rounds(shift))
  {
    result := val;
    for i := 0 to Rounds(shift)
      invariant result == Shifted(val, i)
    {
      ghost var was := result;
      for j := 4 downto 0
        invariant forall m :: 0 <= m < 4 ==> result[m] == if m >= j then ShiftedOnce(was)[m] else was[m]
      {
        ghost var above := result;
        ghost var low := j > 0 && Bit(was[j - 1], 63);
        for k := 64 downto 0
          invariant result == above[j := result[j]]
          invariant if k > 0 then MovedDownTo(was[j], result[j], k) else result[j] == Doubled(was[j], low)
        {
          if k == 0 {
            LastBit(was[j], result[j], low);
          } else {
            MoveBit(was[j], result[j], k);
          }
          if j == 0 && k == 0 {
            result := result[j := PutBit(result[j], 0, false)];
          } else if k == 0 {
            if Bit(result[j - 1], 63) {
              result := result[j := PutBit(result[j], k, true)];
            } else {
              result := result[j := PutBit(result[j], k, false)];
            }
          } else {
            if Bit(result[j], k - 1) {
              result := result[j := PutBit(result[j], k, true)];
            } else {
              result := result[j := PutBit(result[j], k, false)];
            }
          }
        }
      }
      assert result == ShiftedOnce(was);
    }
  }

  lemma TopBit(limb: Limb)
    ensures Bit(limb, 63) <==> limb >= 0x8000_0000_0000_0000
  {
    RadixIsPow2();
    BitIsDigit(limb, 63);
    assert Pow2(64) == 2 * Pow2(63);
  }

  /** A moved limb and the bit it passes on make twice the limb. */
  lemma DoubledValue(limb: Limb, low: bool)
    ensures 2 * limb + (if low then 1 else 0) == Doubled(limb, low) + RADIX * (if Bit(limb, 63) then 1 else 0)
  {
    TopBit(limb);
  }

  lemma ShiftedOnceParts(x: Wide)
    ensures 2 * Value(x) == Value(ShiftedOnce(x)) + (if Bit(x[3], 63) then 1 else 0) * MODULUS
  {
    DoubledValue(x[0], false);
    DoubledValue(x[1], Bit(x[0], 63));
    DoubledValue(x[2], Bit(x[1], 63));
    DoubledValue(x[3], Bit(x[2], 63));
  }

  lemma ShiftedOnceValue(x: Wide)
    ensures Value(ShiftedOnce(x)) == Mod(2 * Value(x))
  {
    ShiftedOnceParts(x);
    ModUnique(2 * Value(x), Value(ShiftedOnce(x)), if Bit(x[3], 63) then 1 else 0);
  }

  lemma ModTwice(a: nat, b: nat)
    requires b == 2 * a
    ensures Mod(2 * Mod(a)) == Mod(b)
  {
    var k := ModParts(a);
    ModEqual(2 * Mod(a), b, -2 * k);
  }

  lemma TimesPow2(x: nat, n: nat)
    requires n > 0
    ensures x * Pow2(n) == 2 * (x * Pow2(n - 1))
  {
  }

  /** Shifting by n multiplies by 2^n modulo 2^256. */
  lemma {:induction false} ShiftedValue(x: Wide, n: nat)
    ensures Value(Shifted(x, n)) == Mod(Value(x) * Pow2(n))
  {
    if n == 0 {
      ModUnique(Value(x) * Pow2(0), Value(x), 0);
    } else {
      ShiftedValue(x, n - 1);
      ShiftedOnceValue(Shifted(x, n - 1));
      TimesPow2(Value(x), n);
      ModTwice(Value(x) * Pow2(n - 1), Value(x) * Pow2(n));
    }
  }

  lemma ModulusIsPow2()
    ensures Pow2(256) == MODULUS
  {
    RadixIsPow2();
    Pow2Sum(64, 64);
    Pow2Sum(128, 128);
  }

  lemma MultipleOfModulus(x: nat, n: nat)
    requires n >= 256
    ensures Mod(x * Pow2(n)) == 0
  {
    ModulusIsPow2();
    Pow2Sum(n - 256, 256);
    MulAssociative(x, Pow2(n - 256), Pow2(256));
    ModUnique(x * Pow2(n), 0, x * Pow2(n - 256));
  }

  /** The source's shift is exact modulo 2^256 if and only if the shift is below 2^31, where
      its conversion to int becomes negative, or there is nothing to shift. */
  lemma ShiftExact(val: Wide, shift: Unsigned)
    ensures Value(Shifted(val, Rounds(shift))) == Mod(Value(val) * Pow2(shift))
            <==> shift < 0x8000_0000 || val == ZERO
  {
    ShiftedValue(val, Rounds(shift));
    if shift >= 0x8000_0000 {
      MultipleOfModulus(Value(val), shift);
      assert Shifted(val, Rounds(shift)) == val;
      if Value(val) == 0 {
        assert Value(ZERO) == 0;
        ValueInjective(val, ZERO);
      }
    }
  }

  /** A shift that is wrong: 1 shifted by 2^31. */
  lemma ShiftCanBeWrong()
    ensures Value(Shifted(ONE, Rounds(0x8000_0000))) != Mod(Value(ONE) * Pow2(0x8000_0000))
  {
    ShiftExact(ONE, 0x8000_0000);
  }
}
