/** How the bit loops cut an address into tag, set index and block offset. */
module AddressSplit {
  import opened Bits

  const ADDRESS_BITS: nat := 32

  ghost predicate IsPow2(n: nat) {
    exists k: nat :: n == Pow2(k)
  }

  function FloorLog(n: nat): nat {
    if n <= 1 then 0 else 1 + FloorLog(n / 2)
  }

  lemma {:induction false} FloorLogBounds(n: nat)
    requires n >= 1
    ensures Pow2(FloorLog(n)) <= n < Pow2(FloorLog(n) + 1)
  {
    if n > 1 {
      FloorLogBounds(n / 2);
    }
  }

  lemma {:induction false} FloorLogOfPow2(k: nat)
    ensures FloorLog(Pow2(k)) == k
  {
    if k > 0 {
      FloorLogOfPow2(k - 1);
    }
  }

  lemma Pow2OfHalf(n: nat)
    requires n >= 2
    ensures IsPow2(n) <==> n % 2 == 0 && IsPow2(n / 2)
  {
    if IsPow2(n) {
      var k: nat :| n == Pow2(k);
      assert n / 2 == Pow2(k - 1);
    }
    if n % 2 == 0 && IsPow2(n / 2) {
      var k: nat :| n / 2 == Pow2(k);
      assert n == Pow2(k + 1);
    }
  }

  method IsPowerOfTwo(num: nat) returns (r: bool)
    ensures r <==> IsPow2(num)
  {
    var n := num;
    if n == 0 {
      return false;
    }
    assert 1 == Pow2(0);
    while n != 1
      invariant n >= 1
      invariant IsPow2(num) <==> IsPow2(n)
    {
      Pow2OfHalf(n);
      if n % 2 != 0 {
        return false;
      }
      n := n / 2;
    }
    return true;
  }

  /** The loop never ends for 0, which the command line check rejects. */
  method Log2(num: nat) returns (log: nat)
    requires num >= 1
    ensures Pow2(log) <= num < Pow2(log + 1)
    ensures log == FloorLog(num)
  {
    log := 0;
    var i := num;
    while i != 1
      invariant i >= 1 && log + FloorLog(i) == FloorLog(num)
    {
      log := log + 1;
      i := i / 2;
    }
    FloorLogBounds(num);
  }

  /** The number of the memory block an address lies in. */
  function BlockNumber(address: nat, numBytes: nat): nat
    requires numBytes >= 1
  {
    Quotient(address, numBytes)
  }

  function SetIndex(address: nat, numSets: nat, numBytes: nat): nat
    requires numSets >= 1 && numBytes >= 1
  {
    Remainder(BlockNumber(address, numBytes), numSets)
  }

  function Tag(address: nat, numSets: nat, numBytes: nat): nat
    requires numSets >= 1 && numBytes >= 1
  {
    Quotient(BlockNumber(address, numBytes), numSets)
  }

  /** The command lines the loops are defined for: powers of two whose logarithms fit an address. */
  ghost predicate Geometry(numSets: nat, numBytes: nat) {
    IsPow2(numSets) && IsPow2(numBytes) && FloorLog(numSets) + FloorLog(numBytes) <= ADDRESS_BITS
  }

  lemma GeometryIsPositive(numSets: nat, numBytes: nat)
    requires Geometry(numSets, numBytes)
    ensures numSets == Pow2(FloorLog(numSets)) && numBytes == Pow2(FloorLog(numBytes))
    ensures numSets >= 1 && numBytes >= 1
  {
    var k: nat :| numSets == Pow2(k);
    FloorLogOfPow2(k);
    var l: nat :| numBytes == Pow2(l);
    FloorLogOfPow2(l);
  }

  /** `x` holds bits start..start+n-1 of the address, moved down to bit 0. */
  ghost predicate Copied(x: nat, address: nat, start: nat, n: nat) {
    forall k: nat :: Bit(x, k) <==> k < n && Bit(address, k + start)
  }

  lemma CopyNothing(address: nat, start: nat)
    ensures Copied(0, address, start, 0)
  {
    forall k: nat {
      HighBitsClear(0, 0, k);
    }
  }

  lemma CopyNext(x: nat, address: nat, start: nat, n: nat, size: nat)
    requires Copied(x, address, start, n) && n < size && x < Pow2(size)
    ensures Bit(address, start + n) ==> Copied(SetBit(x, n), address, start, n + 1) && SetBit(x, n) < Pow2(size)
    ensures !Bit(address, start + n) ==> Copied(x, address, start, n + 1)
  {
    SetBitBound(x, n, size);
    forall k: nat {
      SetBitBits(x, n, k);
    }
  }

  lemma CopiedIsQuotient(x: nat, address: nat, start: nat, n: nat)
    requires Copied(x, address, start, n) && x < Pow2(n)
    ensures x == Remainder(Quotient(address, Pow2(start)), Pow2(n))
  {
    var y := Quotient(address, Pow2(start));
    forall k: nat | k < n ensures Bit(x, k) == Bit(Remainder(y, Pow2(n)), k) {
      ModBits(y, n, k);
      DivBits(address, start, k);
    }
    SameBits(x, Remainder(y, Pow2(n)), n);
  }

  method ReadIndex(address: nat, numSets: nat, numBytes: nat) returns (index: nat)
    requires Geometry(numSets, numBytes) && address < Pow2(ADDRESS_BITS)
    ensures numSets >= 1 && numBytes >= 1
    ensures index == SetIndex(address, numSets, numBytes) && index < numSets
  {
    GeometryIsPositive(numSets, numBytes);
    var offset := Log2(numBytes);
    var indexSize := Log2(numSets);
    ghost var start := offset;
    index := 0;
    var i := 0;
    CopyNothing(address, start);
    while i < indexSize
      invariant i <= indexSize && offset == start + i
      invariant index < Pow2(indexSize) && Copied(index, address, start, i)
    {
      CopyNext(index, address, start, i, indexSize);
      if Bit(address, offset) {
        index := SetBit(index, i);
      }
      i := i + 1;
      offset := offset + 1;
    }
    CopiedIsQuotient(index, address, start, indexSize);
  }

  lemma {:induction false} QuotientBound(x: nat, n: nat, k: nat)
    requires x < Pow2(n) && k <= n
    ensures Quotient(x, Pow2(k)) < Pow2(n - k)
  {
    if k > 0 {
      QuotientBound(x / 2, n - 1, k - 1);
      DivTwice(x, 2, Pow2(k - 1));
    }
  }

  lemma TagIsQuotient(address: nat, numSets: nat, numBytes: nat)
    requires Geometry(numSets, numBytes)
    ensures numSets >= 1 && numBytes >= 1
    ensures Tag(address, numSets, numBytes) == Quotient(address, Pow2(FloorLog(numBytes) + FloorLog(numSets)))
  {
    GeometryIsPositive(numSets, numBytes);
    DivPow2Twice(address, FloorLog(numBytes), FloorLog(numSets));
  }

  method ReadTag(address: nat, numSets: nat, numBytes: nat) returns (tag: nat)
    requires Geometry(numSets, numBytes) && address < Pow2(ADDRESS_BITS)
    ensures numSets >= 1 && numBytes >= 1
    ensures tag == Tag(address, numSets, numBytes)
  {
    GeometryIsPositive(numSets, numBytes);
    var logBytes := Log2(numBytes);
    var logSets := Log2(numSets);
    var tagOffset := logBytes + logSets;
    var tagSize := ADDRESS_BITS - tagOffset;
    ghost var start := tagOffset;
    tag := 0;
    var i := 0;
    CopyNothing(address, start);
    while i < tagSize
      invariant i <= tagSize && tagOffset == start + i
      invariant tag < Pow2(tagSize) && Copied(tag, address, start, i)
    {
      CopyNext(tag, address, start, i, tagSize);
      if Bit(address, tagOffset) {
        tag := SetBit(tag, i);
      }
      i := i + 1;
      tagOffset := tagOffset + 1;
    }
    CopiedIsQuotient(tag, address, start, tagSize);
    TagIsQuotient(address, numSets, numBytes);
    QuotientBound(address, ADDRESS_BITS, start);
    QuotientUnique(Tag(address, numSets, numBytes), Pow2(tagSize), 0, Tag(address, numSets, numBytes));
  }

  /** Tag, index and offset put the address back together. */
  lemma SplitRebuilds(address: nat, numSets: nat, numBytes: nat)
    requires numSets >= 1 && numBytes >= 1
    ensures address == (Tag(address, numSets, numBytes) * numSets + SetIndex(address, numSets, numBytes)) * numBytes
                       + Remainder(address, numBytes)
  {
    var block, offset := DivMod(address, numBytes);
    var tag, index := DivMod(block, numSets);
  }

  /** Two addresses share set and tag exactly when they lie in the same block. */
  lemma SameSetAndTag(a: nat, b: nat, numSets: nat, numBytes: nat)
    requires numSets >= 1 && numBytes >= 1
    ensures SetIndex(a, numSets, numBytes) == SetIndex(b, numSets, numBytes)
            && Tag(a, numSets, numBytes) == Tag(b, numSets, numBytes)
            <==> BlockNumber(a, numBytes) == BlockNumber(b, numBytes)
  {
    var p, i := DivMod(BlockNumber(a, numBytes), numSets);
    var q, j := DivMod(BlockNumber(b, numBytes), numSets);
  }
}
