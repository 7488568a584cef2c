/** CRC-64 with the Jones polynomial: the bit-by-bit reference of crc64.c and the
    slice-by-8 routines of crcspeed.c for both byte orders. */
module Crc64Spec {
  import opened Words

  /** A 64-bit word. */
  type Word = w: Bits | |w| == 64 witness Zeros(64)

  const POLY: Word := OfNat(0xad93d23594c935a9, 64)

  // ------------------------------------------------------------------
  // The reference: one bit at a time, most significant bit first

  /** The body of the inner loop of `_crc64`. */
  function BitStep(crc: Word, data: bool): Word {
    if crc[63] != data then Xor(Shl(crc, 1), POLY) else Shl(crc, 1)
  }

  function BitSteps(crc: Word, data: Bits): Word {
    if data == [] then crc
    else BitStep(BitSteps(crc, data[..|data| - 1]), data[|data| - 1])
  }

  function BitBytes(crc: Word, data: seq<Byte>): Word {
    if data == [] then crc
    else BitSteps(BitBytes(crc, data[..|data| - 1]), data[|data| - 1])
  }

  /** `_crc64`. */
  function Reference(crc: Word, data: seq<Byte>): Word {
    Reversed(BitBytes(crc, data))
  }

  // ------------------------------------------------------------------
  // The same with the register reversed: division by x, least significant bit first

  function Step(x: Word): Word {
    if x[0] then Xor(Shr(x, 1), Reversed(POLY)) else Shr(x, 1)
  }

  function Steps(x: Word, n: nat): Word
    decreases n
  {
    if n == 0 then x else Steps(Step(x), n - 1)
  }

  /** One byte of input. */
  function Absorb(x: Word, c: Byte): Word {
    Steps(Xor(x, Extend(c, 64)), 8)
  }

  function AbsorbAll(x: Word, data: seq<Byte>): Word {
    if data == [] then x
    else Absorb(AbsorbAll(x, data[..|data| - 1]), data[|data| - 1])
  }

  // ------------------------------------------------------------------
  // Linearity

  lemma ShrXor(a: Word, b: Word)
    ensures Shr(Xor(a, b), 1) == Xor(Shr(a, 1), Shr(b, 1))
  {
  }

  /** What `r` is added to matters only up to the number of times it is added. */
  lemma XorSides(a: Word, b: Word, r: Word)
    ensures Xor(Xor(a, r), b) == Xor(Xor(a, b), r)
    ensures Xor(a, Xor(b, r)) == Xor(Xor(a, b), r)
    ensures Xor(Xor(a, r), Xor(b, r)) == Xor(a, b)
  {
  }

  lemma StepLinear(a: Word, b: Word)
    ensures Step(Xor(a, b)) == Xor(Step(a), Step(b))
  {
    var r: Word := Reversed(POLY);
    assert Xor(a, b)[0] == (a[0] != b[0]);
    hide Xor, Shr, Reversed;
    ShrXor(a, b);
    XorSides(Shr(a, 1), Shr(b, 1), r);
  }

  lemma {:induction false} StepsLinear(a: Word, b: Word, n: nat)
    ensures Steps(Xor(a, b), n) == Xor(Steps(a, n), Steps(b, n))
    decreases n
  {
    if n > 0 {
      StepLinear(a, b);
      StepsLinear(Step(a), Step(b), n - 1);
    }
  }

  lemma {:induction false} StepsAdd(x: Word, m: nat, n: nat)
    ensures Steps(x, m + n) == Steps(Steps(x, m), n)
    decreases m
  {
    if m > 0 {
      StepsAdd(Step(x), m - 1, n);
    }
  }

  /** While the low bits are zero, a step is a shift. */
  lemma {:induction false} StepsShift(x: Word, k: nat)
    requires k <= 64 && forall i :: 0 <= i < k ==> !x[i]
    ensures Steps(x, k) == Shr(x, k)
    decreases k
  {
    if k == 0 {
      assert Shr(x, 0) == x;
    } else {
      var y := Shr(x, 1);
      StepsShift(y, k - 1);
      assert Shr(y, k - 1) == Shr(x, k);
    }
  }

  // ------------------------------------------------------------------
  // Reference and reversed form agree

  lemma StepReversed(crc: Word, d: bool)
    ensures Reversed(BitStep(crc, d)) == Step(Xor(Reversed(crc), Extend([d], 64)))
  {
    var x := Xor(Reversed(crc), Extend([d], 64));
    assert Reversed(Shl(crc, 1)) == Shr(x, 1);
    assert x[0] == (crc[63] != d);
  }

  /** What is added after `n` steps can be added before them, `n` places up. */
  lemma AddAfterSteps(y: Word, e: Word, n: nat, m: nat)
    requires n <= 64 && forall i :: 64 - n <= i < 64 ==> !e[i]
    ensures Steps(Xor(Steps(y, n), e), m) == Steps(Xor(y, Shl(e, n)), n + m)
  {
    var t := Shl(e, n);
    StepsShift(t, n);
    assert Shr(t, n) == e;
    StepsLinear(y, t, n);
    StepsAdd(Xor(y, t), n, m);
  }

  lemma OneStep(x: Word)
    ensures Steps(x, 1) == Step(x)
  {
  }

  /** Input `c` after input `a` is their concatenation. */
  lemma AddMore(x: Word, a: Bits, c: Bits, m: nat)
    requires |a| + |c| <= 64
    ensures Steps(Xor(Steps(Xor(x, Extend(a, 64)), |a|), Extend(c, 64)), m)
         == Steps(Xor(x, Extend(a + c, 64)), |a| + m)
  {
    AddAfterSteps(Xor(x, Extend(a, 64)), Extend(c, 64), |a|, m);
    XorAssoc(x, Extend(a, 64), Shl(Extend(c, 64), |a|));
    SideBySide(a, c);
  }

  lemma SideBySide(a: Bits, c: Bits)
    requires |a| + |c| <= 64
    ensures Xor(Extend(a, 64), Shl(Extend(c, 64), |a|)) == Extend(a + c, 64)
  {
  }

  /** Feeding the bits `data` one at a time is adding them all first. */
  lemma {:induction false} BitStepsReversed(crc: Word, data: Bits)
    requires |data| <= 64
    ensures Reversed(BitSteps(crc, data)) == Steps(Xor(Reversed(crc), Extend(data, 64)), |data|)
    decreases |data|
  {
    if data == [] {
      AddNothing(Reversed(crc));
    } else {
      var n := |data| - 1;
      BitStepsReversed(crc, data[..n]);
      BitStepsNext(crc, data[..n], data[n]);
      assert data == data[..n] + [data[n]];
    }
  }

  lemma AddNothing(x: Word)
    ensures Xor(x, Extend([], 64)) == x
  {
  }

  lemma BitStepsNext(crc: Word, init: Bits, d: bool)
    requires |init| < 64
    requires Reversed(BitSteps(crc, init)) == Steps(Xor(Reversed(crc), Extend(init, 64)), |init|)
    ensures Reversed(BitSteps(crc, init + [d]))
         == Steps(Xor(Reversed(crc), Extend(init + [d], 64)), |init| + 1)
  {
    hide Step, Xor, Zeros, Extend, BitStep;
    assert (init + [d])[..|init|] == init;
    StepReversed(BitSteps(crc, init), d);
    OneStep(Xor(Reversed(BitSteps(crc, init)), Extend([d], 64)));
    AddMore(Reversed(crc), init, [d], 1);
  }

  /** `_crc64` is the reversed form started from the reversed register. */
  lemma {:induction false} ReferenceIsAbsorbAll(crc: Word, data: seq<Byte>)
    ensures Reference(crc, data) == AbsorbAll(Reversed(crc), data)
    decreases |data|
  {
    if data != [] {
      var n := |data| - 1;
      ReferenceIsAbsorbAll(crc, data[..n]);
      BitStepsReversed(BitBytes(crc, data[..n]), data[n]);
    }
  }

  // ------------------------------------------------------------------
  // Slicing by eight

  /** `table[k][n]` of the little-endian tables. */
  function Entry(k: nat, n: nat): Word {
    Steps(Extend(OfNat(n, 8), 64), 8 * (k + 1))
  }

  /** The low byte goes through the table, the rest waits eight steps. */
  lemma Peel(x: Word, m: nat)
    ensures Steps(x, 8 * (m + 1)) == Xor(Entry(m, Value(x[..8])), Steps(Shr(x, 8), 8 * m))
  {
    var lo, hi := Extend(x[..8], 64), Shl(Shr(x, 8), 8);
    assert x == Xor(lo, hi);
    StepsLinear(lo, hi, 8 * (m + 1));
    OfNatValue(x[..8]);
    StepsShift(hi, 8);
    assert Shr(hi, 8) == Shr(x, 8);
    StepsAdd(hi, 8, 8 * m);
  }

  /** The table lookup for one byte. */
  lemma AbsorbByTable(x: Word, c: Byte)
    ensures Absorb(x, c) == Xor(Entry(0, Value(Xor(x, Extend(c, 64))[..8])), Shr(x, 8))
  {
    hide Steps, Shr, Xor, Extend, Entry, Value, Zeros;
    var y := Xor(x, Extend(c, 64));
    HighPart(x, c);
    Peel(y, 0);
    NoSteps(Shr(y, 8));
  }

  lemma NoSteps(x: Word)
    ensures Steps(x, 0) == x
  {
  }

  /** The byte that is added does not reach the higher bits. */
  lemma HighPart(x: Word, c: Byte)
    ensures Shr(Xor(x, Extend(c, 64)), 8) == Shr(x, 8)
  {
  }

  /** The table entry that serves byte `7 - k` of `v`. */
  function Slice(v: Word, k: nat): Word
    requires k < 8
  {
    Entry(k, Value(v[56 - 8 * k..64 - 8 * k]))
  }

  function Slices(v: Word, k: nat): Word
    requires k <= 8
  {
    if k == 0 then Zeros(64) else Xor(Slice(v, k - 1), Slices(v, k - 1))
  }

  lemma ShiftTwice(v: Word, j: nat)
    requires j <= 56
    ensures Shr(Shr(v, j), 8) == Shr(v, j + 8)
    ensures Shr(v, j)[..8] == v[j..j + 8]
  {
  }

  lemma {:induction false} StepsAreSlices(v: Word, k: nat)
    requires k <= 8
    ensures Steps(Shr(v, 64 - 8 * k), 8 * k) == Slices(v, k)
    decreases k
  {
    hide Step, Shr, Xor, Zeros, Entry;
    if k == 0 {
      ShiftOut(v);
    } else {
      StepsAreSlices(v, k - 1);
      PeelSlice(v, k);
    }
  }

  lemma ShiftOut(v: Word)
    ensures Shr(v, 64) == Zeros(64)
  {
  }

  lemma PeelSlice(v: Word, k: nat)
    requires 0 < k <= 8
    ensures Steps(Shr(v, 64 - 8 * k), 8 * k)
         == Xor(Slice(v, k - 1), Steps(Shr(v, 64 - 8 * (k - 1)), 8 * (k - 1)))
  {
    hide Step, Shr, Xor, Zeros;
    ShiftTwice(v, 64 - 8 * k);
    Peel(Shr(v, 64 - 8 * k), k - 1);
  }

  function Xor8(a: Word, b: Word, c: Word, d: Word, e: Word, f: Word, g: Word, h: Word): Word {
    Xor(Xor(Xor(Xor(Xor(Xor(Xor(a, b), c), d), e), f), g), h)
  }

  lemma Xor8Nested(a: Word, b: Word, c: Word, d: Word, e: Word, f: Word, g: Word, h: Word)
    ensures Xor8(a, b, c, d, e, f, g, h)
         == Xor(a, Xor(b, Xor(c, Xor(d, Xor(e, Xor(f, Xor(g, Xor(h, Zeros(64)))))))))
  {
    XorZero(h);
    XorAssoc(Xor(Xor(Xor(Xor(Xor(a, b), c), d), e), f), g, h);
    XorAssoc(Xor(Xor(Xor(Xor(a, b), c), d), e), f, Xor(g, h));
    XorAssoc(Xor(Xor(Xor(a, b), c), d), e, Xor(f, Xor(g, h)));
    XorAssoc(Xor(Xor(a, b), c), d, Xor(e, Xor(f, Xor(g, h))));
    XorAssoc(Xor(a, b), c, Xor(d, Xor(e, Xor(f, Xor(g, h)))));
    XorAssoc(a, b, Xor(c, Xor(d, Xor(e, Xor(f, Xor(g, h))))));
  }

  /** Eight table lookups make 64 steps. */
  lemma SliceByEight(v: Word)
    ensures Steps(v, 64) == Xor8(Slice(v, 7), Slice(v, 6), Slice(v, 5), Slice(v, 4),
                                 Slice(v, 3), Slice(v, 2), Slice(v, 1), Slice(v, 0))
  {
    StepsAreSlices(v, 8);
    assert Shr(v, 0) == v;
    Xor8Nested(Slice(v, 7), Slice(v, 6), Slice(v, 5), Slice(v, 4),
               Slice(v, 3), Slice(v, 2), Slice(v, 1), Slice(v, 0));
    SlicesOpen(v);
  }

  lemma SlicesOpen(v: Word)
    ensures Slices(v, 8) ==
      Xor(Slice(v, 7), Xor(Slice(v, 6), Xor(Slice(v, 5), Xor(Slice(v, 4),
      Xor(Slice(v, 3), Xor(Slice(v, 2), Xor(Slice(v, 1), Xor(Slice(v, 0), Zeros(64)))))))))
  {
    SlicesNext(v, 7);
    SlicesNext(v, 6);
    SlicesNext(v, 5);
    SlicesNext(v, 4);
    SlicesNext(v, 3);
    SlicesNext(v, 2);
    SlicesNext(v, 1);
    SlicesNext(v, 0);
  }

  lemma SlicesNext(v: Word, k: nat)
    requires k < 8
    ensures Slices(v, k + 1) == Xor(Slice(v, k), Slices(v, k))
  {
  }

  /** The bytes of memory side by side, the first one lowest. */
  function Concat(data: seq<Byte>): (r: Bits)
    ensures |r| == 8 * |data|
  {
    if data == [] then [] else Concat(data[..|data| - 1]) + data[|data| - 1]
  }

  /** Up to eight bytes can be added at once. */
  lemma {:induction false} AbsorbAtOnce(x: Word, data: seq<Byte>)
    requires |data| <= 8
    ensures AbsorbAll(x, data) == Steps(Xor(x, Extend(Concat(data), 64)), 8 * |data|)
    decreases |data|
  {
    if data == [] {
      AddNothing(x);
    } else {
      var n := |data| - 1;
      hide Steps, AbsorbAll, Xor, Extend, Concat;
      AbsorbAtOnce(x, data[..n]);
      AbsorbNext(x, data[..n], data[n]);
      assert data == data[..n] + [data[n]];
    }
  }

  lemma AbsorbNext(x: Word, init: seq<Byte>, c: Byte)
    requires |init| < 8
    requires AbsorbAll(x, init) == Steps(Xor(x, Extend(Concat(init), 64)), 8 * |init|)
    ensures AbsorbAll(x, init + [c]) == Steps(Xor(x, Extend(Concat(init + [c]), 64)), 8 * |init + [c]|)
  {
    assert (init + [c])[..|init|] == init;
    AddMore(x, Concat(init), c, 8);
  }

  lemma {:induction false} AbsorbAppend(x: Word, a: seq<Byte>, b: seq<Byte>)
    ensures AbsorbAll(x, a + b) == AbsorbAll(AbsorbAll(x, a), b)
    decreases |b|
  {
    if b == [] {
      assert a + b == a;
    } else {
      var n := |b| - 1;
      AbsorbAppend(x, a, b[..n]);
      assert (a + b)[..|a + b| - 1] == a + b[..n];
    }
  }

  // ------------------------------------------------------------------
  // Byte order

  /** `rev8` (`__builtin_bswap64`): the bytes in the opposite order. */
  function Rev8(a: Word): (r: Word) {
    a[56..64] + a[48..56] + a[40..48] + a[32..40] + a[24..32] + a[16..24] + a[8..16] + a[0..8]
  }

  lemma Rev8At(a: Word, q: nat, r: nat)
    requires q < 8 && r < 8
    ensures Rev8(a)[8 * q + r] == a[8 * (7 - q) + r]
  {
  }

  /** Words that agree on every bit of every byte are equal. */
  lemma ByBytes(a: Word, b: Word)
    requires forall q, r {:trigger SameBit(a, b, q, r)} :: 0 <= q < 8 && 0 <= r < 8 ==> SameBit(a, b, q, r)
    ensures a == b
  {
    forall i | 0 <= i < 64 ensures a[i] == b[i] {
      assert SameBit(a, b, i / 8, i % 8);
    }
  }

  predicate SameBit(a: Word, b: Word, q: nat, r: nat)
    requires q < 8 && r < 8
  {
    a[8 * q + r] == b[8 * q + r]
  }

  lemma Rev8Twice(a: Word)
    ensures Rev8(Rev8(a)) == a
  {
    hide Rev8;
    forall q, r | 0 <= q < 8 && 0 <= r < 8 ensures SameBit(Rev8(Rev8(a)), a, q, r) {
      Rev8At(Rev8(a), q, r);
      Rev8At(a, 7 - q, r);
    }
    ByBytes(Rev8(Rev8(a)), a);
  }

  lemma Rev8Xor(a: Word, b: Word)
    ensures Rev8(Xor(a, b)) == Xor(Rev8(a), Rev8(b))
  {
    hide Rev8;
    forall q, r | 0 <= q < 8 && 0 <= r < 8 ensures SameBit(Rev8(Xor(a, b)), Xor(Rev8(a), Rev8(b)), q, r) {
      Rev8At(Xor(a, b), q, r);
      Rev8At(a, q, r);
      Rev8At(b, q, r);
    }
    ByBytes(Rev8(Xor(a, b)), Xor(Rev8(a), Rev8(b)));
  }

  lemma Rev8Shift(a: Word)
    ensures Rev8(Shr(a, 8)) == Shl(Rev8(a), 8)
  {
    hide Rev8;
    forall q, r | 0 <= q < 8 && 0 <= r < 8 ensures SameBit(Rev8(Shr(a, 8)), Shl(Rev8(a), 8), q, r) {
      Rev8At(Shr(a, 8), q, r);
      if q > 0 {
        Rev8At(a, q - 1, r);
      }
    }
    ByBytes(Rev8(Shr(a, 8)), Shl(Rev8(a), 8));
  }

  lemma Rev8Byte(a: Word, k: nat)
    requires k < 8
    ensures Shr(Rev8(a), 8 * k)[..8] == a[56 - 8 * k..64 - 8 * k]
  {
  }

  /** The low half of every group of `2 * n` bits. */
  function Mask(n: nat): (r: Word)
    requires n > 0
  {
    seq(64, i => i % (2 * n) < n)
  }

  /** One exchange of neighbouring groups of `n` bits in the portable `rev8`. */
  function Swap(a: Word, n: nat): Word
    requires 0 < n <= 64
  {
    Or(And(Shr(a, n), Mask(n)), Shl(And(a, Mask(n)), n))
  }

  /** The portable body of `rev8` exchanges bytes, then pairs, then halves. */
  lemma Rev8ByMasks(a: Word)
    ensures var c := Swap(Swap(a, 8), 16); Or(Shr(c, 32), Shl(c, 32)) == Rev8(a)
  {
    hide Rev8, Swap;
    var b := Swap(a, 8);
    var c := Swap(b, 16);
    var d := Or(Shr(c, 32), Shl(c, 32));
    forall q, r | 0 <= q < 8 && 0 <= r < 8 ensures SameBit(d, Rev8(a), q, r) {
      Rev8At(a, q, r);
      var k := if q < 4 then q + 4 else q - 4;
      HalvesAt(c, q, r);
      Swap16At(b, k, r);
      Swap8At(a, if k % 4 < 2 then k + 2 else k - 2, r);
    }
    ByBytes(d, Rev8(a));
  }

  lemma Swap8At(a: Word, q: nat, r: nat)
    requires q < 8 && r < 8
    ensures Swap(a, 8)[8 * q + r] == if q % 2 == 0 then a[8 * (q + 1) + r] else a[8 * (q - 1) + r]
  {
    var i := 8 * q + r;
    assert i % 16 == 8 * (q % 2) + r;
    SwapAt(a, 8, i);
    hide Swap;
  }

  lemma Swap16At(a: Word, q: nat, r: nat)
    requires q < 8 && r < 8
    ensures Swap(a, 16)[8 * q + r] == if q % 4 < 2 then a[8 * (q + 2) + r] else a[8 * (q - 2) + r]
  {
    var i := 8 * q + r;
    assert i % 32 == 8 * (q % 4) + r;
    SwapAt(a, 16, i);
    hide Swap;
  }

  /** A bit moves up or down by `n`, according to its place in its pair of groups. */
  lemma SwapAt(a: Word, n: nat, i: nat)
    requires 0 < n <= 64 && i < 64
    ensures Swap(a, n)[i] ==
      ((i + n < 64 && i % (2 * n) < n && a[i + n]) || (i >= n && (i - n) % (2 * n) < n && a[i - n]))
  {
  }

  lemma HalvesAt(a: Word, q: nat, r: nat)
    requires q < 8 && r < 8
    ensures Or(Shr(a, 32), Shl(a, 32))[8 * q + r] == if q < 4 then a[8 * (q + 4) + r] else a[8 * (q - 4) + r]
  {
  }
}
