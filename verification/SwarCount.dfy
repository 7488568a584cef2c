/** Counting bits in parallel inside a number: the masking steps of `redisPopcount`. */
module SwarCount {

  /** The number of ones in the binary digits of a number. */
  function Count(x: nat): nat {
    if x == 0 then 0 else x % 2 + Count(x / 2)
  }

  lemma CountHalf(x: nat)
    ensures Count(x) == x % 2 + Count(x / 2)
  {
  }

  /** Every other digit in base `b`: masking with 0x55555555, 0x33333333 or 0x0F0F0F0F for `b` 2, 4 or 16. */
  function Alternate(x: nat, b: nat): nat
    requires b == 2 || b == 4 || b == 16
    decreases x
  {
    if x == 0 then 0
    else if b == 2 then x % 2 + 4 * Alternate(x / 4, 2)
    else if b == 4 then x % 4 + 16 * Alternate(x / 16, 4)
    else x % 16 + 256 * Alternate(x / 256, 16)
  }

  /** The three steps of the parallel count. */
  function Pairs(x: nat): int {
    x - Alternate(x / 2, 2)
  }

  function Nibbles(x: nat): nat {
    Alternate(x, 4) + Alternate(x / 4, 4)
  }

  function Bytes(x: nat): nat {
    Alternate(x + x / 16, 16)
  }

  // ------------------------------------------------------------------
  // Each step counts in fields twice as wide

  lemma AlternateStep(x: nat)
    ensures Alternate(x, 2) == x % 2 + 4 * Alternate(x / 4, 2)
    ensures Alternate(x, 4) == x % 4 + 16 * Alternate(x / 16, 4)
    ensures Alternate(x, 16) == x % 16 + 256 * Alternate(x / 256, 16)
  {
  }

  lemma PairsStep(x: nat)
    ensures Pairs(x) == x % 4 - (x % 4) / 2 + 4 * Pairs(x / 4)
  {
    hide Alternate;
    AlternateStep(x / 2);
    assert (x / 2) / 4 == (x / 4) / 2;
    assert (x / 2) % 2 == (x % 4) / 2;
  }

  lemma {:induction false} PairsNat(x: nat)
    ensures Pairs(x) >= 0
    decreases x
  {
    if x > 0 {
      PairsStep(x);
      PairsNat(x / 4);
    }
  }

  lemma SmallCount(r: nat)
    requires r < 4
    ensures Count(r) == r - r / 2 <= 2
  {
    CountHalf(r);
    CountHalf(r / 2);
    CountHalf(r / 4);
  }

  /** Counting a number is counting its parts. */
  lemma CountParts(x: nat)
    ensures Count(x) == Count(x % 4) + Count(x / 4)
  {
    CountHalf(x);
    CountHalf(x / 2);
    assert x / 2 / 2 == x / 4;
    SmallCount(x % 4);
  }

  lemma DigitsOfNibble(x: nat)
    ensures (x % 16) / 4 == (x / 4) % 4 && (x % 16) % 4 == x % 4 && (x / 4) / 4 == x / 16
  {
    var r, h := x % 16, x / 16;
    Digit4(x, r % 4, r / 4 + 4 * h);
    Digit4(x / 4, r / 4, h);
  }

  lemma CountNibble(x: nat)
    ensures Count(x) == Count(x % 16) + Count(x / 16)
    ensures Count(x % 16) == Count(x % 4) + Count((x / 4) % 4) <= 4
  {
    hide Count;
    CountParts(x);
    CountParts(x / 4);
    CountParts(x % 16);
    var a, b := x % 4, (x / 4) % 4;
    DigitsOfNibble(x);
    SmallCount(a);
    SmallCount(b);
  }

  lemma DigitsOfByte(x: nat)
    ensures (x % 256) / 16 == (x / 16) % 16 && (x % 256) % 16 == x % 16 && (x / 16) / 16 == x / 256
  {
    var r, h := x % 256, x / 256;
    Digit16(x, r % 16, r / 16 + 16 * h);
    Digit16(x / 16, r / 16, h);
  }

  lemma CountByte(x: nat)
    ensures Count(x) == Count(x % 256) + Count(x / 256)
    ensures Count(x % 256) == Count(x % 16) + Count((x / 16) % 16) <= 8
  {
    hide Count;
    CountNibble(x);
    CountNibble(x / 16);
    CountNibble(x % 256);
    DigitsOfByte(x);
  }

  /** After the second step every four bits hold their own count. */
  lemma NibblesStep(x: nat)
    ensures Pairs(x) >= 0 && Pairs(x / 16) >= 0
    ensures Nibbles(Pairs(x)) == Count(x % 16) + 16 * Nibbles(Pairs(x / 16))
  {
    hide Alternate, Count;
    PairsNat(x);
    PairsNat(x / 4);
    PairsNat(x / 16);
    PairsStep(x);
    PairsStep(x / 4);
    assert (x / 4) / 4 == x / 16;
    SmallCount(x % 4);
    SmallCount((x / 4) % 4);
    CountNibble(x);
    var a, b, c := Count(x % 4), Count((x / 4) % 4), Pairs(x / 16);
    NibblesOf(a, b, c);
  }

  lemma NibblesOf(a: nat, b: nat, c: nat)
    requires a < 4 && b < 4
    ensures Nibbles(a + 4 * b + 16 * c) == a + b + 16 * Nibbles(c)
  {
    hide Alternate;
    var y := a + 4 * b + 16 * c;
    AlternateStep(y);
    AlternateStep(y / 4);
    Digit4(y, a, b + 4 * c);
    Digit4(y / 4, b, c);
    Digit16(y, a + 4 * b, c);
    Digit16(y / 4, b + 4 * (c % 4), c / 4);
  }

  /** After the third step every byte holds its own count. */
  lemma BytesStep(x: nat)
    ensures Pairs(x) >= 0 && Pairs(x / 256) >= 0
    ensures Bytes(Nibbles(Pairs(x))) == Count(x % 256) + 256 * Bytes(Nibbles(Pairs(x / 256)))
  {
    hide Alternate, Count, Nibbles, Pairs, Bytes;
    NibblesStep(x);
    NibblesStep(x / 16);
    NibblesStep(x / 256);
    assert (x / 16) / 16 == x / 256;
    CountByte(x);
    CountNibble(x);
    CountNibble(x / 16);
    CountNibble(x / 256);
    BytesOf(Count(x % 16), Count((x / 16) % 16), Nibbles(Pairs(x / 256)),
            Count((x / 256) % 16), Nibbles(Pairs(x / 256 / 16)));
  }

  lemma BytesOf(a: nat, b: nat, w: nat, w0: nat, w1: nat)
    requires a <= 4 && b <= 4 && w == w0 + 16 * w1 && w0 <= 4
    ensures Bytes(a + 16 * b + 256 * w) == a + b + 256 * Bytes(w)
  {
    hide Alternate;
    var z := a + 16 * b + 256 * w;
    Digit16(z, a, b + 16 * w);
    Digit16(w, w0, w1);
    var t := z + z / 16;
    assert t == (a + b) + 16 * ((b + w0) + 16 * (w + w / 16));
    Digit16(t, a + b, (b + w0) + 16 * (w + w / 16));
    Digit16(t / 16, b + w0, w + w / 16);
    AlternateStep(t);
    assert t / 256 == (t / 16) / 16;
  }

  lemma Digit16(t: nat, d: nat, u: nat)
    requires t == d + 16 * u && d < 16
    ensures t % 16 == d && t / 16 == u
  {
  }

  lemma Digit4(t: nat, d: nat, u: nat)
    requires t == d + 4 * u && d < 4
    ensures t % 4 == d && t / 4 == u
  {
  }

  // ------------------------------------------------------------------
  // No sum leaves 32 bits

  function Power16(n: nat): nat {
    if n == 0 then 1 else 16 * Power16(n - 1)
  }

  /** The number whose `n` hexadecimal digits are all 4. */
  function Fours(n: nat): nat {
    if n == 0 then 0 else 4 + 16 * Fours(n - 1)
  }

  /** Each four bits of the second step hold at most 4. */
  lemma {:induction false} NibblesBound(x: nat, n: nat)
    requires x < Power16(n)
    ensures Pairs(x) >= 0 && Nibbles(Pairs(x)) <= Fours(n)
    decreases n
  {
    hide Alternate, Count, Pairs, Nibbles;
    if n == 0 {
      NoBits();
    } else {
      NibblesStep(x);
      CountNibble(x);
      NibblesBound(x / 16, n - 1);
    }
  }

  lemma {:induction false} PairsBound(x: nat)
    ensures 0 <= Pairs(x) <= x
  {
    PairsNat(x);
  }

  /** For a 32-bit word no difference is negative and no sum of the three steps reaches 2^32. */
  lemma SumsFit(x: nat)
    requires x < M32
    ensures 0 <= Pairs(x) <= x
    ensures Nibbles(Pairs(x)) <= 0x4444_4444
    ensures Nibbles(Pairs(x)) + Nibbles(Pairs(x)) / 16 < M32
  {
    hide Pairs, Nibbles;
    assert Power16(4) == 0x1_0000 && Fours(4) == 0x4444;
    assert Power16(6) == 0x100_0000 && Fours(6) == 0x44_4444;
    assert Power16(8) == M32 && Fours(8) == 0x4444_4444;
    PairsBound(x);
    NibblesBound(x, 8);
  }

  // ------------------------------------------------------------------
  // Whole words

  /** Four bytes read as one number. */
  function Word32(a: nat, b: nat, c: nat, d: nat): nat {
    a + 256 * b + 0x1_0000 * c + 0x100_0000 * d
  }

  /** The parallel count of one word. */
  function Swar(x: nat): nat
    requires Pairs(x) >= 0
  {
    Bytes(Nibbles(Pairs(x)))
  }

  lemma NoBits()
    ensures Pairs(0) == 0 && Nibbles(0) == 0 && Bytes(0) == 0
  {
  }

  /** The lowest byte of the result is the count of the lowest byte. */
  lemma SwarPeel(t: nat, d: nat, u: nat)
    requires t == d + 256 * u && d < 256
    ensures Pairs(t) >= 0 && Pairs(u) >= 0 && Swar(t) == Count(d) + 256 * Swar(u) && Count(d) <= 8
  {
    hide Pairs, Nibbles, Bytes, Count;
    Digit256(t, d, u);
    BytesStep(t);
    CountByte(d);
    Digit256(d, d, 0);
  }

  /** The bytes of the result are the counts of the bytes of the word. */
  lemma SwarCounts(a: nat, b: nat, c: nat, d: nat)
    requires a < 256 && b < 256 && c < 256 && d < 256
    ensures var x := Word32(a, b, c, d);
      Pairs(x) >= 0 && Swar(x) == Word32(Count(a), Count(b), Count(c), Count(d))
    ensures Count(a) <= 8 && Count(b) <= 8 && Count(c) <= 8 && Count(d) <= 8
  {
    hide Pairs, Swar, Count, Word32;
    SwarZero();
    SwarPeel(d, d, 0);
    SwarPeel(c + 256 * d, c, d);
    SwarPeel(b + 256 * (c + 256 * d), b, c + 256 * d);
    SwarPeel(a + 256 * (b + 256 * (c + 256 * d)), a, b + 256 * (c + 256 * d));
    WordNested(a, b, c, d);
    WordNested(Count(a), Count(b), Count(c), Count(d));
  }

  lemma SwarZero()
    ensures Pairs(0) >= 0 && Swar(0) == 0
  {
    NoBits();
  }

  lemma WordNested(a: nat, b: nat, c: nat, d: nat)
    ensures Word32(a, b, c, d) == a + 256 * (b + 256 * (c + 256 * d))
  {
  }

  lemma AddWords(a: nat, b: nat, c: nat, d: nat, e: nat, f: nat, g: nat, h: nat)
    ensures Word32(a, b, c, d) + Word32(e, f, g, h) == Word32(a + e, b + f, c + g, d + h)
  {
  }

  lemma Digit256(t: nat, d: nat, u: nat)
    requires t == d + 256 * u && d < 256
    ensures t % 256 == d && t / 256 == u
  {
  }

  const M32 := 0x1_0000_0000

  /** Multiplying by 0x01010101 adds up the four bytes in the top one, as long as no byte overflows. */
  lemma TopByte(a: nat, b: nat, c: nat, d: nat)
    requires a + b + c + d < 256
    ensures ((Word32(a, b, c, d) * 0x0101_0101) % M32) / 0x100_0000 == a + b + c + d
  {
    var low := a + 256 * (a + b) + 0x1_0000 * (a + b + c);
    var high := (b + c + d) + 256 * (c + d) + 0x1_0000 * d;
    var t := a + b + c + d;
    assert Word32(a, b, c, d) * 0x0101_0101 == low + 0x100_0000 * t + M32 * high;
    assert low < 0x100_0000;
    Remainder(low + 0x100_0000 * t, high);
  }

  lemma Remainder(r: nat, q: nat)
    requires r < M32
    ensures (r + M32 * q) % M32 == r
  {
  }
}
