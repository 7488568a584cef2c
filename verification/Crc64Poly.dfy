/** CRC-64 is the remainder of a division of polynomials over the field of two elements. A polynomial is the set of its
    exponents; addition is symmetric difference. */
module Crc64Poly {
  import opened Words
  import opened Crc64Spec

  type Poly = set<nat>

  /** The generator: 64 and the exponents of the 64-bit constant. */
  ghost function Jones(): Poly {
    {64, 63, 61, 59, 58, 56, 55, 52, 49, 48, 47, 46, 44, 41, 37, 36, 34, 32, 31, 28, 26, 23, 22, 19, 16, 13, 12,
     10, 8, 7, 5, 3, 0}
  }

  ghost function Plus(a: Poly, b: Poly): Poly {
    (a - b) + (b - a)
  }

  /** `a` times `x` to the power `k`. */
  ghost function Up(a: Poly, k: nat): Poly {
    set e | e in a :: e + k
  }

  /** One more coefficient, of the lowest exponent. */
  ghost function Then(a: Poly, bit: bool, p: Poly): Poly {
    Plus(Up(a, 1), if bit then p else {})
  }

  /** The polynomial with these coefficients, the leading one first. */
  ghost function Message(bits: Bits): Poly {
    if bits == [] then {} else Then(Message(bits[..|bits| - 1]), bits[|bits| - 1], {0})
  }

  /** The product of the generator and the polynomial with these coefficients. */
  ghost function Multiple(q: Bits): Poly {
    if q == [] then {} else Then(Multiple(q[..|q| - 1]), q[|q| - 1], Jones())
  }

  /** The register as a polynomial. */
  ghost function Terms(w: Word): Poly {
    set i | 0 <= i < 64 && w[i]
  }

  /** `r` is what division by the generator leaves of `m`. */
  ghost predicate IsRemainder(m: Poly, r: Poly) {
    (forall e :: e in r ==> e < 64) && exists q :: m == Plus(Multiple(q), r)
  }

  // ------------------------------------------------------------------
  // The constant

  lemma {:induction false} Split(b: nat, m: nat, p: nat, j: nat, w: nat)
    requires j <= w && b < p == Pow2(j)
    ensures OfNat(b + p * m, w) == OfNat(b, j) + OfNat(m, w - j)
    decreases j
  {
    if j == 0 {
      assert p * m == m;
    } else {
      var half := Pow2(j - 1);
      var x := half * m;
      assert p * m == 2 * x;
      assert (b + 2 * x) % 2 == b % 2 && (b + 2 * x) / 2 == b / 2 + x;
      Split(b / 2, m, half, j - 1, w - 1);
    }
  }

  lemma EightBits()
    ensures Pow2(8) == 256
  {
  }

  lemma ByteFirst(n: nat, b: nat, m: nat, w: nat)
    requires w >= 8 && b < 256 && n == b + 256 * m
    ensures OfNat(n, w) == OfNat(b, 8) + OfNat(m, w - 8)
  {
    hide *;
    EightBits();
    Split(b, m, 256, 8, w);
  }

  lemma Byte0()
    ensures OfNat(0xa9, 8) == [true, false, false, true, false, true, false, true]
  {
  }

  lemma Byte1()
    ensures OfNat(0x35, 8) == [true, false, true, false, true, true, false, false]
  {
  }

  lemma Byte2()
    ensures OfNat(0xc9, 8) == [true, false, false, true, false, false, true, true]
  {
  }

  lemma Byte3()
    ensures OfNat(0x94, 8) == [false, false, true, false, true, false, false, true]
  {
  }

  lemma Byte4()
    ensures OfNat(0x35, 8) == [true, false, true, false, true, true, false, false]
  {
  }

  lemma Byte5()
    ensures OfNat(0xd2, 8) == [false, true, false, false, true, false, true, true]
  {
  }

  lemma Byte6()
    ensures OfNat(0x93, 8) == [true, true, false, false, true, false, false, true]
  {
  }

  lemma Byte7()
    ensures OfNat(0xad, 8) == [true, false, true, true, false, true, false, true]
  {
  }

  /** The constant byte by byte, the lowest first. */
  lemma PolyBytes()
    ensures POLY ==
      OfNat(0xa9, 8) + (OfNat(0x35, 8) + (OfNat(0xc9, 8) + (OfNat(0x94, 8) +
      (OfNat(0x35, 8) + (OfNat(0xd2, 8) + (OfNat(0x93, 8) + OfNat(0xad, 8)))))))
  {
    hide OfNat;
    ByteFirst(0xad93d23594c935a9, 0xa9, 0xad93d23594c935, 64);
    ByteFirst(0xad93d23594c935, 0x35, 0xad93d23594c9, 56);
    ByteFirst(0xad93d23594c9, 0xc9, 0xad93d23594, 48);
    ByteFirst(0xad93d23594, 0x94, 0xad93d235, 40);
    ByteFirst(0xad93d235, 0x35, 0xad93d2, 32);
    ByteFirst(0xad93d2, 0xd2, 0xad93, 24);
    ByteFirst(0xad93, 0x93, 0xad, 16);
  }

  lemma PolyHalves()
    ensures POLY[..32] == OfNat(0xa9, 8) + OfNat(0x35, 8) + OfNat(0xc9, 8) + OfNat(0x94, 8)
    ensures POLY[32..] == OfNat(0x35, 8) + OfNat(0xd2, 8) + OfNat(0x93, 8) + OfNat(0xad, 8)
  {
    hide OfNat;
    PolyBytes();
  }

  lemma LowTerms(i: nat)
    requires i < 32
    ensures POLY[i] <==> i in Jones()
  {
    hide OfNat;
    PolyHalves();
    Byte0();
    Byte1();
    Byte2();
    Byte3();
    assert POLY[i] == POLY[..32][i];
  }

  lemma HighTerms(i: nat)
    requires 32 <= i < 64
    ensures POLY[i] <==> i in Jones()
  {
    hide OfNat;
    PolyHalves();
    Byte4();
    Byte5();
    Byte6();
    Byte7();
    assert POLY[i] == POLY[32..][i - 32];
  }

  /** The constant and the generator have the same coefficients below 64; above there is only the leading one. */
  lemma Generator(i: nat)
    ensures if i < 64 then POLY[i] <==> i in Jones() else i in Jones() <==> i == 64
  {
    if i < 32 {
      LowTerms(i);
    } else if i < 64 {
      HighTerms(i);
    }
  }

  // ------------------------------------------------------------------
  // Addition

  lemma PlusAt(a: Poly, b: Poly, e: nat)
    ensures e in Plus(a, b) <==> (e in a) != (e in b)
  {
  }

  lemma UpAt(a: Poly, k: nat, e: nat)
    ensures e in Up(a, k) <==> e >= k && e - k in a
  {
    if e >= k && e - k in a {
      assert (e - k) + k == e;
    }
  }

  lemma ThenAt(a: Poly, bit: bool, p: Poly, e: nat)
    ensures e in Then(a, bit, p) <==> (e >= 1 && e - 1 in a) != (bit && e in p)
  {
    UpAt(a, 1, e);
    PlusAt(Up(a, 1), if bit then p else {}, e);
  }

  // ------------------------------------------------------------------
  // One bit, and all of them

  /** Register and bit before, times `x`, are the register after, plus the generator if it was subtracted. */
  lemma OneBit(crc: Word, bit: bool, e: nat)
    ensures
      (e >= 1 && e - 1 in Terms(crc)) != (bit && e == 64)
      <==> ((crc[63] != bit) && e in Jones()) != (e in Terms(BitStep(crc, bit)))
  {
    hide Jones, OfNat;
    Generator(e);
    var next := BitStep(crc, bit);
    if e < 64 {
      assert next[e] == ((e >= 1 && crc[e - 1]) != ((crc[63] != bit) && POLY[e]));
    }
  }

  /** The dividend after `bits`: the first register moved up, and the message above it. */
  ghost function Dividend(crc: Word, bits: Bits): Poly {
    Plus(Up(Terms(crc), |bits|), Up(Message(bits), 64))
  }

  /** One more bit multiplies the dividend by `x` and adds the bit at 64. */
  lemma DividendNext(crc: Word, bits: Bits, bit: bool)
    ensures Dividend(crc, bits + [bit]) == Then(Dividend(crc, bits), bit, {64})
  {
    var more, n := bits + [bit], |bits|;
    assert more[..n] == bits;
    hide Then, Up, Plus, Terms, Message;
    MessageNext(bits, bit);
    var x, y := Dividend(crc, more), Then(Dividend(crc, bits), bit, {64});
    hide Dividend;
    forall e: nat ensures e in x <==> e in y {
      DividendAtNext(crc, bits, bit, e);
    }
    assert x == y;
  }

  lemma DividendAtNext(crc: Word, bits: Bits, bit: bool, e: nat)
    ensures e in Dividend(crc, bits + [bit]) <==> e in Then(Dividend(crc, bits), bit, {64})
  {
    hide Then, Terms, Message, Dividend;
    MessageNext(bits, bit);
    DividendAt(crc, bits + [bit], e);
    ThenAt(Dividend(crc, bits), bit, {64}, e);
    if e >= 1 {
      DividendAt(crc, bits, e - 1);
    }
    if e >= 64 {
      ThenAt(Message(bits), bit, {0}, e - 64);
    }
  }

  lemma MessageNext(bits: Bits, bit: bool)
    ensures Message(bits + [bit]) == Then(Message(bits), bit, {0})
  {
    assert (bits + [bit])[..|bits|] == bits;
  }

  lemma DividendAt(crc: Word, bits: Bits, e: nat)
    ensures e in Dividend(crc, bits) <==>
      (e >= |bits| && e - |bits| in Terms(crc)) != (e >= 64 && e - 64 in Message(bits))
  {
    UpAt(Terms(crc), |bits|, e);
    UpAt(Message(bits), 64, e);
    PlusAt(Up(Terms(crc), |bits|), Up(Message(bits), 64), e);
  }

  /** The bits at which the generator is subtracted. */
  ghost function Quotient(crc: Word, bits: Bits): Bits {
    if bits == [] then []
    else
      var n := |bits| - 1;
      Quotient(crc, bits[..n]) + [BitSteps(crc, bits[..n])[63] != bits[n]]
  }

  lemma {:induction false} Division(crc: Word, bits: Bits)
    ensures Dividend(crc, bits) == Plus(Multiple(Quotient(crc, bits)), Terms(BitSteps(crc, bits)))
    decreases |bits|
  {
    if bits == [] {
      NothingToDivide(crc);
    } else {
      hide *;
      var n := |bits| - 1;
      assert bits[..n] + [bits[n]] == bits;
      Division(crc, bits[..n]);
      DivisionNext(crc, bits[..n], bits[n]);
    }
  }

  lemma NothingToDivide(crc: Word)
    ensures Dividend(crc, []) == Plus(Multiple(Quotient(crc, [])), Terms(BitSteps(crc, [])))
  {
    hide Up, Plus, Terms;
    forall e: nat ensures e in Dividend(crc, []) <==> e in Plus({}, Terms(crc)) {
      DividendAt(crc, [], e);
      PlusAt({}, Terms(crc), e);
    }
  }

  lemma DivisionAt(m: Poly, a: Poly, now: Word, bit: bool, e: nat)
    requires m == Plus(a, Terms(now))
    ensures e in Then(m, bit, {64}) <==> e in Plus(Then(a, now[63] != bit, Jones()), Terms(BitStep(now, bit)))
  {
    hide Terms, Plus, Then, Jones, BitStep;
    ThenAt(m, bit, {64}, e);
    if e >= 1 {
      PlusAt(a, Terms(now), e - 1);
    }
    OneBit(now, bit, e);
    ThenAt(a, now[63] != bit, Jones(), e);
    PlusAt(Then(a, now[63] != bit, Jones()), Terms(BitStep(now, bit)), e);
  }

  lemma DivisionNext(crc: Word, bits: Bits, bit: bool)
    requires Dividend(crc, bits) == Plus(Multiple(Quotient(crc, bits)), Terms(BitSteps(crc, bits)))
    ensures Dividend(crc, bits + [bit])
         == Plus(Multiple(Quotient(crc, bits + [bit])), Terms(BitSteps(crc, bits + [bit])))
  {
    var more, now := bits + [bit], BitSteps(crc, bits);
    var q, take := Quotient(crc, bits), now[63] != bit;
    NextOf(crc, bits, bit);
    DividendNext(crc, bits, bit);
    hide Dividend, Multiple, Quotient, BitSteps, BitStep, Terms, Plus, Then, Jones;
    var m, a := Dividend(crc, bits), Multiple(q);
    var x, y := Then(m, bit, {64}), Plus(Then(a, take, Jones()), Terms(BitStep(now, bit)));
    forall e: nat ensures e in x <==> e in y {
      DivisionAt(m, a, now, bit, e);
    }
    assert x == y;
  }

  lemma NextOf(crc: Word, bits: Bits, bit: bool)
    ensures
      var now := BitSteps(crc, bits);
      var take := now[63] != bit;
      && BitSteps(crc, bits + [bit]) == BitStep(now, bit)
      && Quotient(crc, bits + [bit]) == Quotient(crc, bits) + [take]
      && Multiple(Quotient(crc, bits) + [take]) == Then(Multiple(Quotient(crc, bits)), take, Jones())
  {
    hide BitStep, Then, Jones;
    var more, q := bits + [bit], Quotient(crc, bits);
    var take := BitSteps(crc, bits)[63] != bit;
    assert more[..|bits|] == bits && (q + [take])[..|q|] == q;
  }

  // ------------------------------------------------------------------
  // The checksum

  /** The bits of the bytes in the order in which they are read. */
  function BitsOf(data: seq<Byte>): Bits {
    if data == [] then [] else BitsOf(data[..|data| - 1]) + data[|data| - 1]
  }

  lemma {:induction false} BitStepsAppend(crc: Word, a: Bits, b: Bits)
    ensures BitSteps(crc, a + b) == BitSteps(BitSteps(crc, a), b)
    decreases |b|
  {
    hide BitStep;
    if b == [] {
      assert a + b == a;
    } else {
      BitStepsAppend(crc, a, b[..|b| - 1]);
      assert (a + b)[..|a + b| - 1] == a + b[..|b| - 1];
    }
  }

  lemma {:induction false} BytesAreBits(crc: Word, data: seq<Byte>)
    ensures BitBytes(crc, data) == BitSteps(crc, BitsOf(data))
    decreases |data|
  {
    hide BitSteps;
    if data == [] {
      NoBits(crc);
    } else {
      var n := |data| - 1;
      BytesAreBits(crc, data[..n]);
      BitStepsAppend(crc, BitsOf(data[..n]), data[n]);
    }
  }

  lemma NoBits(crc: Word)
    ensures BitSteps(crc, []) == crc
  {
  }

  /** The checksum of any bytes is the remainder of the message, moved up by 64 and with the first register added to
      its leading terms, with respect to the generator. The checksum shows it with its bits reversed. */
  lemma ReferenceIsRemainder(crc: Word, data: seq<Byte>)
    ensures IsRemainder(Dividend(crc, BitsOf(data)), Terms(Reversed(Reference(crc, data))))
  {
    BytesAreBits(crc, data);
    Division(crc, BitsOf(data));
    var w := BitSteps(crc, BitsOf(data));
    assert Reversed(Reversed(w)) == w;
    hide Dividend, Multiple, Plus, BitSteps;
    assert Dividend(crc, BitsOf(data)) == Plus(Multiple(Quotient(crc, BitsOf(data))), Terms(w));
  }

  // ------------------------------------------------------------------
  // There is only one remainder

  ghost predicate AllFalse(q: Bits) {
    forall i :: 0 <= i < |q| ==> !q[i]
  }

  /** A multiple of the generator is zero or has a term from 64 on. */
  lemma {:induction false} MultipleIsHigh(q: Bits)
    ensures if AllFalse(q) then Multiple(q) == {} else exists e :: e in Multiple(q) && e >= 64 && TopOf(Multiple(q), e)
    decreases |q|
  {
    hide Jones, Then;
    if q != [] {
      var n := |q| - 1;
      var a := Multiple(q[..n]);
      MultipleIsHigh(q[..n]);
      assert q == q[..n] + [q[n]];
      if AllFalse(q[..n]) {
        assert Multiple(q) == if q[n] then Jones() else {} by { EmptyThen(q[n]); }
        if q[n] {
          Top();
          assert 64 in Multiple(q) && TopOf(Multiple(q), 64);
        }
      } else {
        var e :| e in a && e >= 64 && TopOf(a, e);
        TopThen(a, q[n], e);
        assert e + 1 in Multiple(q) && TopOf(Multiple(q), e + 1);
      }
    }
  }

  ghost predicate TopOf(a: Poly, e: nat) {
    forall f :: f in a ==> f <= e
  }

  lemma Top()
    ensures 64 in Jones() && TopOf(Jones(), 64)
  {
    hide Jones;
    Generator(64);
    forall f: nat ensures f in Jones() ==> f <= 64 {
      Generator(f);
    }
  }

  lemma EmptyThen(bit: bool)
    ensures Then({}, bit, Jones()) == if bit then Jones() else {}
  {
    hide Jones;
    assert Up({}, 1) == {};
  }

  lemma TopThen(a: Poly, bit: bool, e: nat)
    requires e in a && e >= 64 && TopOf(a, e)
    ensures e + 1 in Then(a, bit, Jones()) && TopOf(Then(a, bit, Jones()), e + 1)
  {
    hide Then, Jones;
    Top();
    forall f: nat ensures f in Then(a, bit, Jones()) ==> f <= e + 1 {
      ThenAt(a, bit, Jones(), f);
    }
    ThenAt(a, bit, Jones(), e + 1);
  }

  lemma {:induction false} LeadingZero(q: Bits)
    ensures Multiple([false] + q) == Multiple(q)
    decreases |q|
  {
    hide Then, Jones;
    if q == [] {
      assert [false] + q == [false] && [false][..0] == [];
      EmptyThen(false);
    } else {
      LeadingZero(q[..|q| - 1]);
      assert ([false] + q)[..|q|] == [false] + q[..|q| - 1];
    }
  }

  lemma {:induction false} Padded(q: Bits, n: nat) returns (p: Bits)
    requires |q| <= n
    ensures |p| == n && Multiple(p) == Multiple(q)
    decreases n - |q|
  {
    if |q| == n {
      p := q;
    } else {
      LeadingZero(q);
      p := Padded([false] + q, n);
    }
  }

  lemma {:induction false} SumOfMultiples(p: Bits, q: Bits, e: nat)
    requires |p| == |q|
    ensures e in Multiple(Xor(p, q)) <==> (e in Multiple(p)) != (e in Multiple(q))
    decreases |p|
  {
    hide Jones, Then;
    if p != [] {
      var n := |p| - 1;
      assert Xor(p, q)[..n] == Xor(p[..n], q[..n]);
      ThenAt(Multiple(p[..n]), p[n], Jones(), e);
      ThenAt(Multiple(q[..n]), q[n], Jones(), e);
      ThenAt(Multiple(Xor(p[..n], q[..n])), p[n] != q[n], Jones(), e);
      if e >= 1 {
        SumOfMultiples(p[..n], q[..n], e - 1);
      }
    }
  }

  lemma RemainderIsUnique(m: Poly, r: Poly, s: Poly)
    requires IsRemainder(m, r) && IsRemainder(m, s)
    ensures r == s
  {
    hide Multiple, Plus;
    var q :| m == Plus(Multiple(q), r);
    var t :| m == Plus(Multiple(t), s);
    var n := |q| + |t|;
    var a := Padded(q, n);
    var b := Padded(t, n);
    var d := Xor(a, b);
    forall e: nat ensures e in Multiple(d) <==> (e in r) != (e in s) {
      SumOfMultiples(a, b, e);
      PlusAt(Multiple(q), r, e);
      PlusAt(Multiple(t), s, e);
    }
    MultipleIsHigh(d);
    assert forall e :: e in r <==> e in s;
  }
}
