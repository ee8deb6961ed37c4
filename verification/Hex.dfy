/** Reading and printing 256-bit values in hexadecimal. */
module Hex {
  import opened UInt256

  predicate IsHexDigit(c: char) { '0' <= c <= '9' || 'a' <= c <= 'f' || 'A' <= c <= 'F' }

  predicate IsHex(s: string) { forall i :: 0 <= i < |s| ==> IsHexDigit(s[i]) }

  function Digit(c: char): nat
    requires IsHexDigit(c)
  {
    if c <= '9' then (c - '0') as nat
    else if c >= 'a' then 10 + (c - 'a') as nat
    else 10 + (c - 'A') as nat
  }

  /** A lower-case digit, as printf's %x writes it. */
  function DigitChar(d: nat): (c: char)
    requires d < 16
    ensures IsHexDigit(c) && Digit(c) == d
  {
    if d < 10 then '0' + d as char else 'a' + (d - 10) as char
  }

  function Pow16(n: nat): (p: nat)
    ensures p > 0
  {
    if n == 0 then 1 else 16 * Pow16(n - 1)
  }

  /** The number a string of digits denotes: what strtoul reads in base 16. */
  function HexValue(s: string): nat
    requires IsHex(s)
  {
    if s == [] then 0 else 16 * HexValue(s[..|s| - 1]) + Digit(s[|s| - 1])
  }

  lemma HexDigit(s: string, c: char)
    requires IsHex(s) && IsHexDigit(c)
    ensures IsHex(s + [c]) && HexValue(s + [c]) == 16 * HexValue(s) + Digit(c)
  {
    assert (s + [c])[..|s|] == s;
  }

  lemma {:induction false} AppendHex(a: string, b: string)
    requires IsHex(a) && IsHex(b)
    ensures IsHex(a + b) && HexValue(a + b) == HexValue(a) * Pow16(|b|) + HexValue(b)
  {
    if b == [] {
      assert a + b == a;
    } else {
      var rest, c := b[..|b| - 1], b[|b| - 1];
      AppendHex(a, rest);
      HexDigit(a + rest, c);
      assert a + b == a + rest + [c];
      TimesSixteen(HexValue(a), Pow16(|rest|), HexValue(rest));
    }
  }

  lemma TimesSixteen(a: nat, p: nat, b: nat)
    ensures 16 * (a * p + b) == a * (16 * p) + 16 * b
  {
  }

  lemma {:induction false} Pow16Sum(a: nat, b: nat)
    ensures Pow16(a + b) == Pow16(a) * Pow16(b)
  {
    if a > 0 {
      Pow16Sum(a - 1, b);
      assert Pow16(a + b) == 16 * Pow16(a - 1 + b);
    }
  }

  lemma {:induction false} HexBelow(s: string)
    requires IsHex(s)
    ensures HexValue(s) < Pow16(|s|)
  {
    if s != [] {
      HexBelow(s[..|s| - 1]);
    }
  }

  lemma {:induction false} ZerosValue(z: string)
    requires forall i :: 0 <= i < |z| ==> z[i] == '0'
    ensures IsHex(z) && HexValue(z) == 0
  {
    if z != [] {
      ZerosValue(z[..|z| - 1]);
    }
  }

  /** Leading zeros change nothing. */
  lemma PaddedValue(z: string, hex: string)
    requires IsHex(hex) && forall i :: 0 <= i < |z| ==> z[i] == '0'
    ensures IsHex(z + hex) && HexValue(z + hex) == HexValue(hex)
  {
    ZerosValue(z);
    AppendHex(z, hex);
  }

  lemma Pow16Of16()
    ensures Pow16(16) == RADIX
  {
    Pow16Doubles(0);
    Pow16Sum(2, 2);
    Pow16Sum(4, 4);
    Pow16Sum(8, 8);
  }

  lemma Pow16Doubles(n: nat)
    ensures Pow16(n + 2) == 256 * Pow16(n)
  {
  }

  /** Sixteen digits are one limb. */
  lemma ChunkIsLimb(s: string)
    requires IsHex(s) && |s| == 16
    ensures HexValue(s) <= ONES
  {
    HexBelow(s);
    Pow16Of16();
  }

  lemma AppendChunk(a: string, b: string)
    requires IsHex(a) && IsHex(b) && |b| == 16
    ensures IsHex(a + b) && HexValue(a + b) == RADIX * HexValue(a) + HexValue(b)
  {
    AppendHex(a, b);
    Pow16Of16();
  }

  /** Four chunks of sixteen digits, the most significant first, make the value. */
  lemma FourChunks(a: string, b: string, c: string, d: string)
    requires IsHex(a) && IsHex(b) && IsHex(c) && IsHex(d)
    requires |a| == |b| == |c| == |d| == 16
    ensures IsHex(a + b + c + d)
    ensures HexValue(a + b + c + d)
            == HexValue(d) + RADIX * HexValue(c) + RADIX2 * HexValue(b) + RADIX3 * HexValue(a)
  {
    AppendChunk(a, b);
    AppendChunk(a + b, c);
    AppendChunk(a + b + c, d);
  }

  function Chunk(text: string, i: nat): string
    requires |text| == 64 && i < 4
  {
    text[16 * i..16 * i + 16]
  }

  /** The limb that chunk `i` holds: strtoul on its sixteen characters. */
  function ChunkValue(text: string, i: nat): Limb
    requires |text| == 64 && i < 4 && IsHex(text)
  {
    ChunkIsLimb(Chunk(text, i));
    HexValue(Chunk(text, i))
  }

  lemma ChunksMakeText(text: string)
    requires |text| == 64
    ensures text == Chunk(text, 0) + Chunk(text, 1) + Chunk(text, 2) + Chunk(text, 3)
  {
  }

  lemma ChunksMakeValue(text: string)
    requires |text| == 64 && IsHex(text)
    ensures HexValue(text)
            == Value([ChunkValue(text, 3), ChunkValue(text, 2), ChunkValue(text, 1), ChunkValue(text, 0)])
  {
    ChunksMakeText(text);
    FourChunks(Chunk(text, 0), Chunk(text, 1), Chunk(text, 2), Chunk(text, 3));
  }

  /** `uint256_create_from_hex` reads the number its digits denote. */
  method CreateFromHex(hex: string) returns (result: Wide)
    requires |hex| <= 64 && IsHex(hex)
    ensures Value(result) == HexValue(hex)
  {
    var buffer := new char[64];
    for i := 0 to 64
      invariant forall k :: 0 <= k < i ==> buffer[k] == '0'
    {
      buffer[i] := '0';
    }
    var first := 64 - |hex|;
    for i := 0 to |hex|
      invariant forall k :: 0 <= k < first ==> buffer[k] == '0'
      invariant buffer[first..first + i] == hex[..i]
    {
      buffer[first + i] := hex[i];
    }
    var text := buffer[..];
    assert text[first..] == buffer[first..first + |hex|] == hex;
    assert text == text[..first] + text[first..];
    PaddedValue(text[..first], hex);
    result := ZERO;
    for i := 0 to 4
      invariant i > 0 ==> result[3] == ChunkValue(text, 0)
      invariant i > 1 ==> result[2] == ChunkValue(text, 1)
      invariant i > 2 ==> result[1] == ChunkValue(text, 2)
      invariant i > 3 ==> result[0] == ChunkValue(text, 3)
    {
      result := result[3 - i := ChunkValue(text, i)];
    }
    ChunksMakeValue(text);
    assert result == [result[0], result[1], result[2], result[3]];
  }

  /** The shortest lower-case numeral of `v`. */
  function Numeral(v: nat): string {
    if v < 16 then [DigitChar(v)] else Numeral(v / 16) + [DigitChar(v % 16)]
  }

  /** `%0nx` */
  function FixedHex(v: nat, n: nat): (s: string)
    ensures |s| == n
  {
    if n == 0 then [] else FixedHex(v / 16, n - 1) + [DigitChar(v % 16)]
  }

  /** Without leading zeros, down to one digit. */
  function Stripped(s: string): string {
    if |s| > 1 && s[0] == '0' then Stripped(s[1..]) else s
  }

  /** A number without its last digit has one digit less. */
  lemma DropDigit(v: nat, n: nat)
    requires n > 0 && v < Pow16(n)
    ensures v / 16 < Pow16(n - 1) && 16 * (v / 16) + v % 16 == v
  {
    LessThanShare(v, Pow16(n - 1));
  }

  lemma LessThanShare(v: nat, p: nat)
    requires v < 16 * p
    ensures v / 16 < p && 16 * (v / 16) + v % 16 == v
  {
  }

  lemma NextFixedHex(v: nat, n: nat, rest: string)
    requires n > 0 && rest == FixedHex(v / 16, n - 1) && IsHex(rest)
    ensures IsHex(FixedHex(v, n)) && HexValue(FixedHex(v, n)) == 16 * HexValue(rest) + v % 16
  {
    HexDigit(rest, DigitChar(v % 16));
  }

  lemma {:induction false} FixedHexValue(v: nat, n: nat)
    requires v < Pow16(n)
    ensures IsHex(FixedHex(v, n)) && HexValue(FixedHex(v, n)) == v
  {
    if n > 0 {
      DropDigit(v, n);
      FixedHexValue(v / 16, n - 1);
      NextFixedHex(v, n, FixedHex(v / 16, n - 1));
    }
  }

  lemma {:induction false} StrippedAppend(s: string, c: char)
    requires s != []
    ensures Stripped(s) != []
    ensures Stripped(s + [c]) == if Stripped(s) == "0" then [c] else Stripped(s) + [c]
  {
    assert (s + [c])[1..] == s[1..] + [c];
    if |s| > 1 && s[0] == '0' {
      StrippedAppend(s[1..], c);
    } else if s[0] == '0' {
      assert s == "0" && s[1..] + [c] == [c];
    }
  }

  lemma ZeroNumeral(v: nat)
    ensures Numeral(v) == "0" <==> v == 0
  {
    if v >= 16 {
      assert |Numeral(v)| == |Numeral(v / 16)| + 1;
      NumeralNonEmpty(v / 16);
    }
  }

  lemma NumeralNonEmpty(v: nat)
    ensures Numeral(v) != []
  {
  }

  /** Lower case, digit by digit. */
  function Lower(s: string): (l: string)
    requires IsHex(s)
    ensures |l| == |s|
  {
    seq(|s|, i requires 0 <= i < |s| => DigitChar(Digit(s[i])))
  }

  lemma LowerAppend(a: string, b: string)
    requires IsHex(a) && IsHex(b)
    ensures IsHex(a + b) && Lower(a + b) == Lower(a) + Lower(b)
  {
  }

  lemma {:induction false} FixedHexIsLower(v: nat, n: nat)
    ensures IsHex(FixedHex(v, n)) && Lower(FixedHex(v, n)) == FixedHex(v, n)
  {
    if n > 0 {
      FixedHexIsLower(v / 16, n - 1);
      LowerAppend(FixedHex(v / 16, n - 1), [DigitChar(v % 16)]);
    }
  }

  lemma LowerDigit(s: string, c: char)
    requires IsHex(s) && IsHexDigit(c)
    ensures IsHex(s + [c]) && Lower(s + [c]) == Lower(s) + [DigitChar(Digit(c))]
  {
  }

  lemma NumeralStep(low: string, v: nat, d: nat)
    requires d < 16 && if low == [] then v == 0 else Stripped(low) == Numeral(v)
    ensures Stripped(low + [DigitChar(d)]) == Numeral(16 * v + d)
  {
    NumeralDigit(v, d);
    if low != [] {
      StrippedAppend(low, DigitChar(d));
      ZeroNumeral(v);
    }
  }

  lemma OneMoreDigit(s: string, c: char)
    requires IsHex(s) && IsHexDigit(c) && (s == [] || Stripped(Lower(s)) == Numeral(HexValue(s)))
    ensures IsHex(s + [c]) && Stripped(Lower(s + [c])) == Numeral(HexValue(s + [c]))
  {
    LowerDigit(s, c);
    HexDigit(s, c);
    NumeralStep(Lower(s), HexValue(s), Digit(c));
  }

  /** Any numeral, in lower case and without leading zeros, is the numeral of its value. */
  lemma {:induction false} StrippedIsNumeral(s: string)
    requires IsHex(s) && s != []
    ensures Stripped(Lower(s)) == Numeral(HexValue(s))
  {
    var rest, c := s[..|s| - 1], s[|s| - 1];
    if rest != [] {
      StrippedIsNumeral(rest);
    }
    OneMoreDigit(rest, c);
    assert s == rest + [c];
  }

  lemma NumeralDigit(v: nat, d: nat)
    requires d < 16
    ensures Numeral(16 * v + d) == if v == 0 then [DigitChar(d)] else Numeral(v) + [DigitChar(d)]
  {
  }

  /** `uint256_format_as_hex` prints the shortest lower-case numeral of the value. */
  method FormatAsHex(val: Wide) returns (hex: string)
    ensures hex == Numeral(Value(val))
  {
    hex := FixedHex(val[3], 16) + FixedHex(val[2], 16) + FixedHex(val[1], 16) + FixedHex(val[0], 16);
    ghost var full := hex;
    PrintedLimbs(val);
    while |hex| != 1
      invariant hex != [] && Stripped(hex) == Numeral(Value(val))
    {
      if hex[0] == '0' {
        hex := hex[1..];
      } else {
        break;
      }
    }
  }

  lemma PrintedLimbs(val: Wide)
    ensures Stripped(FixedHex(val[3], 16) + FixedHex(val[2], 16) + FixedHex(val[1], 16) + FixedHex(val[0], 16))
            == Numeral(Value(val))
  {
    var a, b, c, d := FixedHex(val[3], 16), FixedHex(val[2], 16), FixedHex(val[1], 16), FixedHex(val[0], 16);
    Pow16Of16();
    FixedHexValue(val[3], 16);
    FixedHexValue(val[2], 16);
    FixedHexValue(val[1], 16);
    FixedHexValue(val[0], 16);
    FourChunks(a, b, c, d);
    FixedHexIsLower(val[3], 16);
    FixedHexIsLower(val[2], 16);
    FixedHexIsLower(val[1], 16);
    FixedHexIsLower(val[0], 16);
    LowerAppend(a, b);
    LowerAppend(a + b, c);
    LowerAppend(a + b + c, d);
    StrippedIsNumeral(a + b + c + d);
  }

  lemma ModulusIsPow16()
    ensures Pow16(64) == MODULUS
  {
    Pow16Of16();
    Pow16Sum(16, 16);
    Pow16Sum(32, 32);
  }

  /** Printing, then reading: what is printed fits the reader and gives the value back. */
  lemma PrintThenRead(val: Wide)
    ensures var hex := Numeral(Value(val)); 1 <= |hex| <= 64 && IsHex(hex) && HexValue(hex) == Value(val)
  {
    NumeralReads(Value(val));
    ModulusIsPow16();
    NumeralLength(Value(val), 64);
  }

  lemma {:induction false} NumeralReads(v: nat)
    ensures IsHex(Numeral(v)) && HexValue(Numeral(v)) == v
  {
    if v >= 16 {
      NumeralReads(v / 16);
      HexDigit(Numeral(v / 16), DigitChar(v % 16));
    }
  }

  lemma {:induction false} NumeralLength(v: nat, n: nat)
    requires n > 0 && v < Pow16(n)
    ensures 1 <= |Numeral(v)| <= n
  {
    if v >= 16 {
      NumeralLength(v / 16, n - 1);
    }
  }

  /** Reading, then printing: the digits come back in lower case, without leading zeros. */
  lemma ReadThenPrint(hex: string, val: Wide)
    requires 1 <= |hex| <= 64 && IsHex(hex) && Value(val) == HexValue(hex)
    ensures Numeral(Value(val)) == Stripped(Lower(hex))
  {
    StrippedIsNumeral(hex);
  }

  const LOWER := "0123456789abcdef"
  const UPPER := "0123456789ABCDEF"

  /** The place of `c` in an alphabet; its length if it is not there. */
  function Place(alphabet: string, c: char): (k: nat)
    ensures k <= |alphabet|
  {
    if alphabet == "" || alphabet[0] == c then 0 else 1 + Place(alphabet[1..], c)
  }

  /** The worth of a digit by its place in the two alphabets. */
  function Worth(c: char): nat {
    if Place(LOWER, c) < 16 then Place(LOWER, c) else Place(UPPER, c)
  }

  /** The digits of the two alphabets, one by one. */
  lemma Alphabets(i: nat)
    requires i < 16
    ensures LOWER[i] == (if i < 10 then '0' + i as char else 'a' + (i - 10) as char)
    ensures UPPER[i] == (if i < 10 then '0' + i as char else 'A' + (i - 10) as char)
  {
    assert LOWER[0] == '0' && LOWER[1] == '1' && LOWER[2] == '2' && LOWER[3] == '3';
    assert LOWER[4] == '4' && LOWER[5] == '5' && LOWER[6] == '6' && LOWER[7] == '7';
    assert LOWER[8] == '8' && LOWER[9] == '9' && LOWER[10] == 'a' && LOWER[11] == 'b';
    assert LOWER[12] == 'c' && LOWER[13] == 'd' && LOWER[14] == 'e' && LOWER[15] == 'f';
    assert UPPER[0] == '0' && UPPER[1] == '1' && UPPER[2] == '2' && UPPER[3] == '3';
    assert UPPER[4] == '4' && UPPER[5] == '5' && UPPER[6] == '6' && UPPER[7] == '7';
    assert UPPER[8] == '8' && UPPER[9] == '9' && UPPER[10] == 'A' && UPPER[11] == 'B';
    assert UPPER[12] == 'C' && UPPER[13] == 'D' && UPPER[14] == 'E' && UPPER[15] == 'F';
  }

  /** Each digit reads as its place in the alphabet, in either case, and the number of that
      place prints as the lower-case digit. */
  lemma DigitsAreTheirPlaces(i: nat)
    requires i < 16
    ensures IsHex([LOWER[i]]) && HexValue([LOWER[i]]) == i
    ensures IsHex([UPPER[i]]) && HexValue([UPPER[i]]) == i
    ensures Numeral(i) == [LOWER[i]]
  {
    Alphabets(i);
  }

  lemma {:induction false} PlaceFound(alphabet: string, c: char)
    requires Place(alphabet, c) < |alphabet|
    ensures alphabet[Place(alphabet, c)] == c
  {
    if alphabet[0] != c {
      PlaceFound(alphabet[1..], c);
    }
  }

  /** The hex digits are the characters of the two alphabets, and worth their places. */
  lemma DigitIsWorth(c: char)
    ensures IsHexDigit(c) <==> Worth(c) < 16
    ensures IsHexDigit(c) ==> Digit(c) == Worth(c)
  {
    if Place(LOWER, c) < 16 {
      PlaceFound(LOWER, c);
      Alphabets(Place(LOWER, c));
    } else if Place(UPPER, c) < 16 {
      PlaceFound(UPPER, c);
      Alphabets(Place(UPPER, c));
    } else if IsHexDigit(c) {
      NotMissing(c);
    }
  }

  /** Every hex digit is found. */
  lemma NotMissing(c: char)
    requires IsHexDigit(c)
    ensures Place(LOWER, c) < 16 || Place(UPPER, c) < 16
  {
    var i := Digit(c);
    Alphabets(i);
    if LOWER[i] == c {
      PlaceAtMost(LOWER, c, i);
    } else {
      PlaceAtMost(UPPER, c, i);
    }
  }

  lemma {:induction false} PlaceAtMost(alphabet: string, c: char, k: nat)
    requires k < |alphabet| && alphabet[k] == c
    ensures Place(alphabet, c) <= k
  {
    if k > 0 && alphabet[0] != c {
      PlaceAtMost(alphabet[1..], c, k - 1);
    }
  }

  /** 16^k, times the worth of the digit that has k digits behind it, summed up over the first
      `n` digits. */
  function PlaceSum(s: string, n: nat): nat
    requires n <= |s|
  {
    if n == 0 then 0 else PlaceSum(s, n - 1) + Worth(s[n - 1]) * Pow16(|s| - n)
  }

  lemma {:induction false} PlaceSumAppend(s: string, c: char, n: nat)
    requires n <= |s|
    ensures PlaceSum(s + [c], n) == 16 * PlaceSum(s, n)
  {
    if n > 0 {
      PlaceSumAppend(s, c, n - 1);
      ShiftPlace(Worth(s[n - 1]), |s| - n, |s + [c]| - n);
    }
  }

  lemma ShiftPlace(w: nat, k: nat, m: nat)
    requires m == k + 1
    ensures w * Pow16(m) == 16 * (w * Pow16(k))
  {
  }

  /** What a string of digits denotes: each digit's place in the alphabet, weighted by the
      power of sixteen of the digit's position. */
  lemma {:induction false} HexValueIsPlaceSum(s: string)
    requires IsHex(s)
    ensures HexValue(s) == PlaceSum(s, |s|)
  {
    if s != [] {
      var rest, c := s[..|s| - 1], s[|s| - 1];
      HexValueIsPlaceSum(rest);
      PlaceSumAppend(rest, c, |rest|);
      DigitIsWorth(c);
      assert rest + [c] == s;
    }
  }

  /** Lower case changes A to F into a to f and leaves every other digit alone. */
  lemma LowerIsLower(s: string, i: nat)
    requires IsHex(s) && i < |s|
    ensures Lower(s)[i] == if 'A' <= s[i] <= 'F' then 'a' + (s[i] - 'A') else s[i]
  {
  }
}
