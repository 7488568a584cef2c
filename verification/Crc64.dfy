/** The CRC-64 routines: reflection, bit by bit, table building and slice-by-8 for both byte orders. */
module Crc64 {
  import opened Words
  import opened Crc64Spec

  /** `crc_reflect`: the low `len` bits in the opposite order. */
  method CrcReflect(data: Word, len: nat) returns (ret: Word)
    requires 1 <= len <= 64
    ensures ret == Extend(Reversed(data[..len]), 64)
  {
    var d := data;
    ret := Extend([d[0]], 64);
    assert ret == Extend(Reversed(data[..1]), 64);
    for i := 1 to len
      invariant d == Shr(data, i - 1)
      invariant ret == Extend(Reversed(data[..i]), 64)
    {
      ReflectNext(data, i);
      d := Shr(d, 1);
      ret := Or(Shl(ret, 1), Extend([d[0]], 64));
    }
  }

  lemma ReflectNext(data: Word, i: nat)
    requires 1 <= i < 64
    ensures Shr(Shr(data, i - 1), 1) == Shr(data, i)
    ensures Or(Shl(Extend(Reversed(data[..i]), 64), 1), Extend([Shr(data, i)[0]], 64))
         == Extend(Reversed(data[..i + 1]), 64)
  {
    var x := Or(Shl(Extend(Reversed(data[..i]), 64), 1), Extend([Shr(data, i)[0]], 64));
    forall j | 0 <= j < 64 ensures x[j] == Extend(Reversed(data[..i + 1]), 64)[j] {
      if j == 0 {
        assert Shr(data, i)[0] == data[i];
      } else if j <= i {
        assert Extend(Reversed(data[..i]), 64)[j - 1] == data[i - j];
      }
    }
  }

  /** The byte with only bit `k` set, nothing when `k` is 8. */
  function OneBit(k: nat): (r: Byte)
    ensures forall i :: 0 <= i < 8 ==> r[i] == (i == k)
  {
    seq(8, i => i == k)
  }

  /** `_crc64`. */
  method BitByBit(crc0: Word, data: seq<Byte>) returns (r: Word)
    ensures r == Reference(crc0, data)
  {
    var crc := crc0;
    for offset := 0 to |data|
      invariant crc == BitBytes(crc0, data[..offset])
    {
      var c := data[offset];
      var mask := OneBit(0);
      ghost var k := 0;
      ghost var start := crc;
      while mask != Zeros(8)
        invariant 0 <= k <= 8 && mask == OneBit(k)
        invariant crc == BitSteps(start, c[..k])
        decreases 8 - k
      {
        MaskBit(c, k);
        BitStepsLast(start, c, k);
        var bit := crc[63];
        if And(c, mask) != Zeros(8) {
          bit := !bit;
        }
        crc := Shl(crc, 1);
        if bit {
          crc := Xor(crc, POLY);
        }
        mask := Shl(mask, 1);
        k := k + 1;
      }
      OneBitIsZero(k);
      assert c[..8] == c;
      assert data[..offset + 1][..offset] == data[..offset];
    }
    assert data[..|data|] == data;
    r := CrcReflect(crc, 64);
    assert crc[..64] == crc;
    assert Extend(Reversed(crc), 64) == Reversed(crc);
  }

  lemma OneBitIsZero(k: nat)
    ensures OneBit(k) == Zeros(8) <==> k >= 8
  {
    assert k < 8 ==> OneBit(k)[k];
  }

  lemma MaskBit(c: Byte, k: nat)
    requires k <= 8 && OneBit(k) != Zeros(8)
    ensures k < 8
    ensures And(c, OneBit(k)) != Zeros(8) <==> c[k]
    ensures Shl(OneBit(k), 1) == OneBit(k + 1)
  {
    OneBitIsZero(k);
    if c[k] {
      assert And(c, OneBit(k))[k];
    } else {
      assert And(c, OneBit(k)) == Zeros(8);
    }
  }

  lemma BitStepsLast(crc: Word, c: Byte, k: nat)
    requires k < 8
    ensures BitSteps(crc, c[..k + 1]) == BitStep(BitSteps(crc, c[..k]), c[k])
  {
    assert c[..k + 1][..k] == c[..k];
  }

  // ------------------------------------------------------------------
  // Tables

  ghost predicate LittleTable(t: array2<Word>)
    reads t
  {
    && t.Length0 == 8 && t.Length1 == 256
    && forall k, n :: 0 <= k < 8 && 0 <= n < 256 ==> t[k, n] == Entry(k, n)
  }

  ghost predicate BigTable(t: array2<Word>)
    reads t
  {
    && t.Length0 == 8 && t.Length1 == 256
    && forall k, n :: 0 <= k < 8 && 0 <= n < 256 ==> t[k, n] == Rev8(Entry(k, n))
  }

  /** The low byte of a word, as an index. */
  function Low(x: Word): (r: nat)
    ensures r < 256
  {
    OfNatValue(x[..8]);
    assert Pow2(8) == 256;
    Value(x[..8])
  }

  /** `crcspeed64little_init` with `_crc64` as its function. */
  method InitLittle(table: array2<Word>)
    requires table.Length0 == 8 && table.Length1 == 256
    modifies table
    ensures LittleTable(table)
  {
    hide Entry, Reference;
    FillFirst(table);
    for n := 0 to 256
      invariant forall m :: 0 <= m < 256 ==> table[0, m] == Entry(0, m)
      invariant forall k, m :: 0 <= k < 8 && 0 <= m < n ==> table[k, m] == Entry(k, m)
    {
      FillColumn(table, n);
    }
  }

  /** The first pass: the checksums of single bytes. */
  method FillFirst(table: array2<Word>)
    requires table.Length0 == 8 && table.Length1 == 256
    modifies table
    ensures forall m :: 0 <= m < 256 ==> table[0, m] == Entry(0, m)
  {
    hide Entry, Reference, OfNat, Zeros;
    for n := 0 to 256
      invariant forall m :: 0 <= m < n ==> table[0, m] == Entry(0, m)
    {
      var v := OfNat(n, 8);
      var e := BitByBit(Zeros(64), [v]);
      FirstEntry(n);
      table[0, n] := e;
    }
  }

  /** The inner loop of the second pass. */
  method FillColumn(table: array2<Word>, n: nat)
    requires table.Length0 == 8 && table.Length1 == 256 && n < 256
    requires forall m :: 0 <= m < 256 ==> table[0, m] == Entry(0, m)
    modifies table
    ensures forall k :: 0 <= k < 8 ==> table[k, n] == Entry(k, n)
    ensures forall k, m :: 0 <= k < 8 && 0 <= m < 256 && m != n ==> table[k, m] == old(table[k, m])
  {
    hide Entry, Xor, Shr, Low;
    var crc := table[0, n];
    for k := 1 to 8
      invariant crc == Entry(k - 1, n)
      invariant forall m :: 0 <= m < 256 ==> table[0, m] == Entry(0, m)
      invariant forall j :: 0 <= j < k ==> table[j, n] == Entry(j, n)
      invariant forall j, m :: 0 <= j < 8 && 0 <= m < 256 && m != n ==> table[j, m] == old(table[j, m])
    {
      NextEntry(k, n);
      crc := Xor(table[0, Low(crc)], Shr(crc, 8));
      table[k, n] := crc;
    }
  }

  lemma FirstEntry(n: nat)
    ensures Reference(Zeros(64), [OfNat(n, 8)]) == Entry(0, n)
  {
    hide Step, Steps, BitStep;
    var v: Byte := OfNat(n, 8);
    ReferenceIsAbsorbAll(Zeros(64), [v]);
    assert Reversed(Zeros(64)) == Zeros(64);
    AbsorbOne(Zeros(64), v);
    XorZero(Extend(v, 64));
  }

  lemma AbsorbOne(x: Word, c: Byte)
    ensures AbsorbAll(x, [c]) == Absorb(x, c)
  {
    assert [c][..0] == [];
  }

  lemma NextEntry(k: nat, n: nat)
    requires k > 0
    ensures Xor(Entry(0, Low(Entry(k - 1, n))), Shr(Entry(k - 1, n), 8)) == Entry(k, n)
  {
    hide Step, Shr, Extend;
    var e := Entry(k - 1, n);
    Peel(e, 0);
    StepsAdd(Extend(OfNat(n, 8), 64), 8 * k, 8);
  }

  /** `crcspeed64big_init`. */
  method InitBig(table: array2<Word>)
    requires table.Length0 == 8 && table.Length1 == 256
    modifies table
    ensures BigTable(table)
  {
    hide Entry, Rev8;
    InitLittle(table);
    for k := 0 to 8
      invariant forall j, n :: 0 <= j < k && 0 <= n < 256 ==> table[j, n] == Rev8(Entry(j, n))
      invariant forall j, n :: k <= j < 8 && 0 <= n < 256 ==> table[j, n] == Entry(j, n)
    {
      for n := 0 to 256
        invariant forall j, m :: 0 <= j < k && 0 <= m < 256 ==> table[j, m] == Rev8(Entry(j, m))
        invariant forall m :: 0 <= m < n ==> table[k, m] == Rev8(Entry(k, m))
        invariant forall m :: n <= m < 256 ==> table[k, m] == Entry(k, m)
        invariant forall j, m :: k < j < 8 && 0 <= m < 256 ==> table[j, m] == Entry(j, m)
      {
        table[k, n] := Rev8(table[k, n]);
      }
    }
  }

  // ------------------------------------------------------------------
  // The fast loops

  /** Which byte of the address space the data starts at decides how many bytes go one by one. */
  method Little(table: array2<Word>, crc0: Word, data: seq<Byte>, address: nat) returns (crc: Word)
    requires LittleTable(table)
    ensures crc == AbsorbAll(crc0, data)
  {
    hide AbsorbAll, Entry, Xor, Shr, Low, Extend, Concat, Xor8;
    crc := crc0;
    AbsorbNothing(crc0);
    var next := 0;
    while next < |data| && (address + next) % 8 != 0
      invariant 0 <= next <= |data|
      invariant crc == AbsorbAll(crc0, data[..next])
    {
      AbsorbByteLow(crc0, data, next);
      crc := Xor(table[0, Low(Xor(crc, Extend(data[next], 64)))], Shr(crc, 8));
      next := next + 1;
    }
    while |data| - next >= 8
      invariant 0 <= next <= |data|
      invariant crc == AbsorbAll(crc0, data[..next])
    {
      ConcatSize(data[next..next + 8]);
      AbsorbWord(crc0, data, next);
      crc := Xor(crc, Concat(data[next..next + 8]));
      LittleWord(crc);
      LowBelow(crc);
      crc := Xor8(table[7, Low(crc)], table[6, Low(Shr(crc, 8))], table[5, Low(Shr(crc, 16))],
                  table[4, Low(Shr(crc, 24))], table[3, Low(Shr(crc, 32))], table[2, Low(Shr(crc, 40))],
                  table[1, Low(Shr(crc, 48))], table[0, Value(Shr(crc, 56))]);
      next := next + 8;
    }
    while next < |data|
      invariant 0 <= next <= |data|
      invariant crc == AbsorbAll(crc0, data[..next])
    {
      AbsorbByteLow(crc0, data, next);
      crc := Xor(table[0, Low(Xor(crc, Extend(data[next], 64)))], Shr(crc, 8));
      next := next + 1;
    }
    assert data[..next] == data;
  }

  lemma AbsorbNothing(x: Word)
    ensures AbsorbAll(x, []) == x
  {
  }

  lemma ConcatSize(data: seq<Byte>)
    ensures |Concat(data)| == 8 * |data|
  {
  }

  lemma LowBelow(x: Word)
    ensures Value(Shr(x, 56)) == Value(x[56..64]) < 256
  {
    ValueExtend(x[56..64], 56);
    assert Shr(x, 56) == x[56..64] + Zeros(56);
    OfNatValue(x[56..64]);
    assert Pow2(8) == 256;
  }

  lemma {:induction false} ValueExtend(a: Bits, n: nat)
    ensures Value(a + Zeros(n)) == Value(a)
    decreases |a| + n
  {
    if a != [] {
      assert (a + Zeros(n))[1..] == a[1..] + Zeros(n);
      ValueExtend(a[1..], n);
    } else if n > 0 {
      assert ([] + Zeros(n))[1..] == [] + Zeros(n - 1);
      ValueExtend([], n - 1);
    }
  }

  lemma AbsorbLast(x: Word, data: seq<Byte>, next: nat)
    requires next < |data|
    ensures AbsorbAll(x, data[..next + 1]) == Absorb(AbsorbAll(x, data[..next]), data[next])
  {
    assert data[..next + 1][..next] == data[..next];
  }

  lemma AbsorbByteLow(x: Word, data: seq<Byte>, next: nat)
    requires next < |data|
    ensures var crc := AbsorbAll(x, data[..next]);
      AbsorbAll(x, data[..next + 1])
        == Xor(Entry(0, Low(Xor(crc, Extend(data[next], 64)))), Shr(crc, 8))
  {
    hide AbsorbAll, Absorb, Entry, Xor, Shr, Extend;
    AbsorbLast(x, data, next);
    AbsorbByTable(AbsorbAll(x, data[..next]), data[next]);
  }

  lemma AbsorbWord(x: Word, data: seq<Byte>, next: nat)
    requires next + 8 <= |data|
    ensures AbsorbAll(x, data[..next + 8])
         == Steps(Xor(AbsorbAll(x, data[..next]), Concat(data[next..next + 8])), 64)
  {
    hide AbsorbAll, Steps, Xor;
    var w := data[next..next + 8];
    assert data[..next + 8] == data[..next] + w;
    AbsorbAppend(x, data[..next], w);
    AbsorbAtOnce(AbsorbAll(x, data[..next]), w);
    assert Extend(Concat(w), 64) == Concat(w);
  }

  lemma LowSlice(v: Word, k: nat)
    requires k < 8
    ensures Entry(k, Low(Shr(v, 56 - 8 * k))) == Slice(v, k)
  {
    hide Entry, Shr;
    ShiftTwice(v, 56 - 8 * k);
  }

  lemma LittleWord(v: Word)
    ensures Steps(v, 64) ==
      Xor8(Entry(7, Low(v)), Entry(6, Low(Shr(v, 8))), Entry(5, Low(Shr(v, 16))),
           Entry(4, Low(Shr(v, 24))), Entry(3, Low(Shr(v, 32))), Entry(2, Low(Shr(v, 40))),
           Entry(1, Low(Shr(v, 48))), Entry(0, Value(Shr(v, 56))))
  {
    assert Shr(v, 0) == v;
    hide Steps, Xor8, Entry, Shr, Low;
    SliceByEight(v);
    LowSlice(v, 7);
    LowSlice(v, 6);
    LowSlice(v, 5);
    LowSlice(v, 4);
    LowSlice(v, 3);
    LowSlice(v, 2);
    LowSlice(v, 1);
    LowBelow(v);
  }

  /** The big-endian routine keeps the register byte-reversed; a word read from memory
      has its first byte on top. */
  method Big(table: array2<Word>, crc0: Word, data: seq<Byte>, address: nat) returns (crc: Word)
    requires BigTable(table)
    ensures crc == AbsorbAll(crc0, data)
  {
    hide AbsorbAll, Entry, Xor, Shr, Shl, Low, Extend, Concat, Xor8, Rev8;
    AbsorbNothing(crc0);
    crc := Rev8(crc0);
    var next := 0;
    while next < |data| && (address + next) % 8 != 0
      invariant 0 <= next <= |data|
      invariant crc == Rev8(AbsorbAll(crc0, data[..next]))
    {
      BigByte(crc0, data, next);
      crc := Xor(table[0, Value(Xor(Shr(crc, 56), Extend(data[next], 64)))], Shl(crc, 8));
      next := next + 1;
    }
    while |data| - next >= 8
      invariant 0 <= next <= |data|
      invariant crc == Rev8(AbsorbAll(crc0, data[..next]))
    {
      ConcatSize(data[next..next + 8]);
      AbsorbWord(crc0, data, next);
      Rev8Xor(AbsorbAll(crc0, data[..next]), Concat(data[next..next + 8]));
      BigWord(Xor(AbsorbAll(crc0, data[..next]), Concat(data[next..next + 8])));
      crc := Xor(crc, Rev8(Concat(data[next..next + 8])));
      LowBelow(crc);
      crc := Xor8(table[0, Low(crc)], table[1, Low(Shr(crc, 8))], table[2, Low(Shr(crc, 16))],
                  table[3, Low(Shr(crc, 24))], table[4, Low(Shr(crc, 32))], table[5, Low(Shr(crc, 40))],
                  table[6, Low(Shr(crc, 48))], table[7, Value(Shr(crc, 56))]);
      next := next + 8;
    }
    while next < |data|
      invariant 0 <= next <= |data|
      invariant crc == Rev8(AbsorbAll(crc0, data[..next]))
    {
      BigByte(crc0, data, next);
      crc := Xor(table[0, Value(Xor(Shr(crc, 56), Extend(data[next], 64)))], Shl(crc, 8));
      next := next + 1;
    }
    assert data[..next] == data;
    Rev8Twice(AbsorbAll(crc0, data));
    crc := Rev8(crc);
  }

  lemma TopByte(x: Word, c: Byte)
    ensures Value(Xor(Shr(Rev8(x), 56), Extend(c, 64))) == Low(Xor(x, Extend(c, 64)))
  {
    var y := Xor(x, Extend(c, 64));
    ValueExtend(y[..8], 56);
    assert Xor(Shr(Rev8(x), 56), Extend(c, 64)) == y[..8] + Zeros(56);
  }

  lemma BigByte(x: Word, data: seq<Byte>, next: nat)
    requires next < |data|
    ensures var crc := Rev8(AbsorbAll(x, data[..next]));
      var n := Value(Xor(Shr(crc, 56), Extend(data[next], 64)));
      n < 256 && Rev8(AbsorbAll(x, data[..next + 1])) == Xor(Rev8(Entry(0, n)), Shl(crc, 8))
  {
    hide AbsorbAll, Entry, Xor, Shr, Shl, Extend, Rev8;
    var y := AbsorbAll(x, data[..next]);
    AbsorbByteLow(x, data, next);
    TopByte(y, data[next]);
    Rev8Xor(Entry(0, Low(Xor(y, Extend(data[next], 64)))), Shr(y, 8));
    Rev8Shift(y);
  }

  lemma Xor8Opposite(a: Word, b: Word, c: Word, d: Word, e: Word, f: Word, g: Word, h: Word)
    ensures Xor8(a, b, c, d, e, f, g, h) == Xor8(h, g, f, e, d, c, b, a)
  {
    Xor8Nested(h, g, f, e, d, c, b, a);
    XorZero(a);
    XorComm(Xor(Xor(Xor(Xor(Xor(Xor(a, b), c), d), e), f), g), h);
    XorComm(Xor(Xor(Xor(Xor(Xor(a, b), c), d), e), f), g);
    XorComm(Xor(Xor(Xor(Xor(a, b), c), d), e), f);
    XorComm(Xor(Xor(Xor(a, b), c), d), e);
    XorComm(Xor(Xor(a, b), c), d);
    XorComm(Xor(a, b), c);
    XorComm(a, b);
  }

  lemma Rev8Xor8(a: Word, b: Word, c: Word, d: Word, e: Word, f: Word, g: Word, h: Word)
    ensures Rev8(Xor8(a, b, c, d, e, f, g, h))
         == Xor8(Rev8(a), Rev8(b), Rev8(c), Rev8(d), Rev8(e), Rev8(f), Rev8(g), Rev8(h))
  {
    hide Rev8;
    Rev8Xor(a, b);
    Rev8Xor(Xor(a, b), c);
    Rev8Xor(Xor(Xor(a, b), c), d);
    Rev8Xor(Xor(Xor(Xor(a, b), c), d), e);
    Rev8Xor(Xor(Xor(Xor(Xor(a, b), c), d), e), f);
    Rev8Xor(Xor(Xor(Xor(Xor(Xor(a, b), c), d), e), f), g);
    Rev8Xor(Xor(Xor(Xor(Xor(Xor(Xor(a, b), c), d), e), f), g), h);
  }

  lemma BigSlice(v: Word, k: nat)
    requires k < 8
    ensures Entry(k, Low(Shr(Rev8(v), 8 * k))) == Slice(v, k)
  {
    hide Entry, Shr, Rev8;
    Rev8Byte(v, k);
  }

  lemma BigLast(v: Word)
    ensures Entry(7, Value(Shr(Rev8(v), 56))) == Slice(v, 7)
    ensures Entry(0, Low(Rev8(v))) == Slice(v, 0)
  {
    hide Entry;
    LowBelow(Rev8(v));
    assert Rev8(v)[56..64] == v[0..8];
    assert Rev8(v)[..8] == v[56..64];
  }

  lemma BigWord(v: Word)
    ensures var c := Rev8(v);
      Rev8(Steps(v, 64)) ==
        Xor8(Rev8(Entry(0, Low(c))), Rev8(Entry(1, Low(Shr(c, 8)))), Rev8(Entry(2, Low(Shr(c, 16)))),
             Rev8(Entry(3, Low(Shr(c, 24)))), Rev8(Entry(4, Low(Shr(c, 32)))), Rev8(Entry(5, Low(Shr(c, 40)))),
             Rev8(Entry(6, Low(Shr(c, 48)))), Rev8(Entry(7, Value(Shr(c, 56)))))
  {
    hide Steps, Xor8, Entry, Shr, Low, Rev8, Slice;
    SliceByEight(v);
    Xor8Opposite(Slice(v, 7), Slice(v, 6), Slice(v, 5), Slice(v, 4),
                 Slice(v, 3), Slice(v, 2), Slice(v, 1), Slice(v, 0));
    Rev8Xor8(Slice(v, 0), Slice(v, 1), Slice(v, 2), Slice(v, 3),
             Slice(v, 4), Slice(v, 5), Slice(v, 6), Slice(v, 7));
    BigLast(v);
    BigSlice(v, 1);
    BigSlice(v, 2);
    BigSlice(v, 3);
    BigSlice(v, 4);
    BigSlice(v, 5);
    BigSlice(v, 6);
  }

  /** `crc64`: on either byte order, from a zero register, the bit-by-bit result. */
  method Native(table: array2<Word>, littleEndian: bool, crc0: Word, data: seq<Byte>, address: nat)
    returns (crc: Word)
    requires if littleEndian then LittleTable(table) else BigTable(table)
    ensures crc == Reference(Reversed(crc0), data)
    ensures crc0 == Zeros(64) ==> crc == Reference(crc0, data)
  {
    ReferenceIsAbsorbAll(Reversed(crc0), data);
    assert Reversed(Reversed(crc0)) == crc0;
    if littleEndian {
      crc := Little(table, crc0, data, address);
    } else {
      crc := Big(table, crc0, data, address);
    }
    assert Reversed(Zeros(64)) == Zeros(64);
  }

  /** `crc64_init`. */
  method Init(table: array2<Word>, littleEndian: bool)
    requires table.Length0 == 8 && table.Length1 == 256
    modifies table
    ensures if littleEndian then LittleTable(table) else BigTable(table)
  {
    if littleEndian {
      InitLittle(table);
    } else {
      InitBig(table);
    }
  }
}
