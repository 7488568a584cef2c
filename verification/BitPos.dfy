/** BITPOS: the position of the first bit with a given value. */
module BitPos {
  import opened Words
  import opened BitFieldSpec

  /** `pos` is the first bit equal to `bit`. A missing one is -1; a missing zero is found just past the
      end, because the string counts as padded with zeros. */
  ghost predicate IsFirst(s: seq<Byte>, bit: bool, pos: int) {
    if exists n :: 0 <= n < 8 * |s| && BitOf(s, n) == bit
    then 0 <= pos < 8 * |s| && BitOf(s, pos) == bit && forall n :: 0 <= n < pos ==> BitOf(s, n) != bit
    else pos == if bit then -1 else 8 * |s|
  }

  /** The byte that holds no bit equal to `bit`. */
  function SkipByte(bit: bool): Byte {
    if bit then Zeros(8) else FULL
  }

  /** No bit before byte `c` equals `bit`. */
  ghost predicate Skipped(s: seq<Byte>, bit: bool, c: nat) {
    forall n :: 0 <= n < 8 * c ==> BitOf(s, n) != bit
  }

  lemma SkipOne(s: seq<Byte>, bit: bool, c: nat)
    requires c < |s| && s[c] == SkipByte(bit) && Skipped(s, bit, c)
    ensures Skipped(s, bit, c + 1)
  {
    forall n | 0 <= n < 8 * (c + 1) ensures BitOf(s, n) != bit {
      if n >= 8 * c {
        assert n / 8 == c;
      }
    }
  }

  lemma SkipByteIs(b: Byte, bit: bool)
    ensures (forall k :: 0 <= k < 8 ==> b[k] != bit) ==> b == SkipByte(bit)
  {
  }

  /** A byte that is not skipped holds the bit. */
  lemma NotSkipped(s: seq<Byte>, bit: bool, c: nat) returns (n: nat)
    requires c < |s| && s[c] != SkipByte(bit)
    ensures n < 8 && BitOf(s, 8 * c + n) == bit
  {
    SkipByteIs(s[c], bit);
    hide SkipByte;
    var k :| 0 <= k < 8 && s[c][k] == bit;
    n := 7 - k;
    assert (8 * c + n) / 8 == c && (8 * c + n) % 8 == n;
  }

  /** The word built from the bytes at `c` so far, first byte on top. */
  ghost predicate Holds(word: Bits, s: seq<Byte>, c: nat, j: nat) {
    && |word| == 64 && j <= 8
    && (forall i {:trigger word[i]} :: 0 <= i < 8 * j ==> word[i] == BitOf(s, 8 * (c + j) - 1 - i))
    && forall i {:trigger word[i]} :: 8 * j <= i < 64 ==> !word[i]
  }

  /** Eight more bits at the low end of the word. */
  function Append(word: Bits, b: Byte): (r: Bits)
    requires |word| == 64
    ensures |r| == 64
  {
    Or(Shl(word, 8), Extend(b, 64))
  }

  lemma AppendAt(word: Bits, b: Byte, i: nat)
    requires |word| == 64 && i < 64 && forall k :: 56 <= k < 64 ==> !word[k]
    ensures Append(word, b)[i] == if i < 8 then b[i] else word[i - 8]
  {
  }

  lemma AppendHolds(word: Bits, s: seq<Byte>, c: nat, j: nat)
    requires j < 8 && Holds(word, s, c, j)
    ensures Holds(Append(word, if c + j < |s| then s[c + j] else Zeros(8)), s, c, j + 1)
  {
    hide Append, BitOf;
    var b: Byte := if c + j < |s| then s[c + j] else Zeros(8);
    var w := Append(word, b);
    forall i | 0 <= i < 64
      ensures w[i] == if i < 8 * (j + 1) then BitOf(s, 8 * (c + j + 1) - 1 - i) else false
    {
      AppendAt(word, b, i);
      if i < 8 {
        ByteAt(s, c + j, i);
      }
    }
  }

  lemma ByteAt(s: seq<Byte>, c: nat, i: nat)
    requires i < 8
    ensures BitOf(s, 8 * (c + 1) - 1 - i) == (c < |s| && s[c][i])
  {
    var n := 8 * (c + 1) - 1 - i;
    assert n == 8 * c + (7 - i);
    assert n / 8 == c && n % 8 == 7 - i;
  }

  /** Eight bytes that are not all skipped, compared as one word. */
  predicate WordDiffers(s: seq<Byte>, c: nat, skip: Byte)
    requires c + 8 <= |s|
  {
    Eight(s[c], s[c + 1], s[c + 2], s[c + 3], s[c + 4], s[c + 5], s[c + 6], s[c + 7])
      != Eight(skip, skip, skip, skip, skip, skip, skip, skip)
  }

  lemma SkipWord(s: seq<Byte>, bit: bool, c: nat)
    requires c + 8 <= |s| && !WordDiffers(s, c, SkipByte(bit)) && Skipped(s, bit, c)
    ensures Skipped(s, bit, c + 8)
  {
    var skip := SkipByte(bit);
    EightSame(s[c], s[c + 1], s[c + 2], s[c + 3], s[c + 4], s[c + 5], s[c + 6], s[c + 7], skip);
    hide Skipped, SkipByte;
    SkipOne(s, bit, c);
    SkipOne(s, bit, c + 1);
    SkipOne(s, bit, c + 2);
    SkipOne(s, bit, c + 3);
    SkipOne(s, bit, c + 4);
    SkipOne(s, bit, c + 5);
    SkipOne(s, bit, c + 6);
    SkipOne(s, bit, c + 7);
  }

  lemma EightSame(a: Byte, b: Byte, c: Byte, d: Byte, e: Byte, f: Byte, g: Byte, h: Byte, s: Byte)
    requires Eight(a, b, c, d, e, f, g, h) == Eight(s, s, s, s, s, s, s, s)
    ensures a == s && b == s && c == s && d == s && e == s && f == s && g == s && h == s
  {
    var x, y := Eight(a, b, c, d, e, f, g, h), Eight(s, s, s, s, s, s, s, s);
    EightParts(a, b, c, d, e, f, g, h);
    EightParts(s, s, s, s, s, s, s, s);
    hide Eight;
  }

  lemma EightParts(a: Byte, b: Byte, c: Byte, d: Byte, e: Byte, f: Byte, g: Byte, h: Byte)
    ensures var x := Eight(a, b, c, d, e, f, g, h);
      && |x| == 64 && x[0..8] == a && x[8..16] == b && x[16..24] == c && x[24..32] == d
      && x[32..40] == e && x[40..48] == f && x[48..56] == g && x[56..64] == h
  {
    FourParts(a, b, c, d);
    FourParts(e, f, g, h);
    var x, low, high := Eight(a, b, c, d, e, f, g, h), a + b + c + d, e + f + g + h;
    assert x == low + high && x[..32] == low && x[32..] == high;
    assert x[0..8] == low[0..8] && x[8..16] == low[8..16] && x[16..24] == low[16..24] && x[24..32] == low[24..32];
    assert x[32..40] == high[0..8] && x[40..48] == high[8..16];
    assert x[48..56] == high[16..24] && x[56..64] == high[24..32];
  }

  lemma FourParts(a: Byte, b: Byte, c: Byte, d: Byte)
    ensures var x := a + b + c + d;
      |x| == 32 && x[0..8] == a && x[8..16] == b && x[16..24] == c && x[24..32] == d
  {
  }

  /** `redisBitpos`. `address` is where the string starts in memory; `panicked` is the end of the function
      that must not be reached. */
  method Bitpos(s: seq<Byte>, bit: bool, address: nat) returns (pos: int, panicked: bool)
    ensures IsFirst(s, bit, pos) && !panicked
  {
    hide Skipped, SkipByte, WordDiffers, Holds, Append, BitOf, IsFirst, Zeros;
    panicked := false;
    var skip := SkipByte(bit);
    var c := 0;
    SkipNone(s, bit);
    var found := false;
    while (address + c) % 8 != 0 && c < |s| && !found
      invariant 0 <= c <= |s| && Skipped(s, bit, c) && (found ==> c < |s| && s[c] != skip)
      decreases |s| - c, !found
    {
      if s[c] != skip {
        found := true;
      } else {
        SkipOne(s, bit, c);
        c := c + 1;
      }
    }
    var differs := found;
    if !found {
      while |s| - c >= 8 && !differs
        invariant 0 <= c <= |s| && Skipped(s, bit, c) && (differs ==> c + 8 <= |s| && WordDiffers(s, c, skip))
        decreases |s| - c, !differs
      {
        if WordDiffers(s, c, skip) {
          differs := true;
        } else {
          SkipWord(s, bit, c);
          c := c + 8;
        }
      }
    }
    var word := LoadWord(s, c);
    if bit && word == Zeros(64) {
      NothingLeft(s, c, word, differs, found);
      return -1, panicked;
    }
    ghost var k := Somewhere(s, bit, c, word, differs, found);
    var i := 0;
    var hit := false;
    while i < 64 && !hit
      invariant 0 <= i <= 64 && (hit ==> i < 64 && word[63 - i] == bit)
      invariant forall m :: 64 - i <= m < 64 ==> word[m] != bit
      decreases 64 - i, !hit
    {
      if word[63 - i] == bit {
        hit := true;
      } else {
        i := i + 1;
      }
    }
    assert word[63 - k] == bit;
    FoundFirst(s, bit, c, word, i);
    return 8 * c + i, !hit;
  }

  lemma SkipNone(s: seq<Byte>, bit: bool)
    ensures Skipped(s, bit, 0)
  {
  }

  /** The bytes from `c` on, first byte on top, zero past the end. */
  method LoadWord(s: seq<Byte>, c: nat) returns (word: Bits)
    ensures |word| == 64 && Holds(word, s, c, 8)
  {
    word := Zeros(64);
    for j := 0 to 8
      invariant Holds(word, s, c, j)
    {
      AppendHolds(word, s, c, j);
      hide Holds, BitOf;
      word := Append(word, if c + j < |s| then s[c + j] else Zeros(8));
    }
  }

  lemma WindowBit(s: seq<Byte>, c: nat, word: Bits, n: nat)
    requires |word| == 64 && Holds(word, s, c, 8) && n < 64
    ensures word[63 - n] == BitOf(s, 8 * c + n)
  {
    hide BitOf;
    assert 8 * (c + 8) - 1 - (63 - n) == 8 * c + n;
  }

  lemma WindowByteBit(s: seq<Byte>, c: nat, word: Bits, j: nat, n: nat)
    requires |word| == 64 && Holds(word, s, c, 8) && j < 8 && n < 8
    ensures word[63 - (8 * j + n)] == BitOf(s, 8 * (c + j) + n)
  {
    WindowBit(s, c, word, 8 * j + n);
    assert 8 * (c + j) + n == 8 * c + (8 * j + n);
  }

  /** Of eight bytes that differ from the skipped ones, one is not skipped. */
  lemma WordNotSkipped(s: seq<Byte>, bit: bool, c: nat) returns (j: nat)
    requires c + 8 <= |s| && WordDiffers(s, c, SkipByte(bit))
    ensures j < 8 && s[c + j] != SkipByte(bit)
  {
    hide SkipByte, Eight;
    var skip := SkipByte(bit);
    j := if s[c] != skip then 0 else if s[c + 1] != skip then 1 else if s[c + 2] != skip then 2
         else if s[c + 3] != skip then 3 else if s[c + 4] != skip then 4 else if s[c + 5] != skip then 5
         else if s[c + 6] != skip then 6 else 7;
  }

  /** The word holds the bit: it differs from the skipped one, or it reaches past the end of the string. */
  lemma Somewhere(s: seq<Byte>, bit: bool, c: nat, word: Bits, differs: bool, found: bool) returns (k: nat)
    requires c <= |s| && |word| == 64 && Holds(word, s, c, 8) && !(bit && word == Zeros(64))
    requires found ==> differs && c < |s| && s[c] != SkipByte(bit)
    requires differs && !found ==> c + 8 <= |s| && WordDiffers(s, c, SkipByte(bit))
    requires !differs ==> |s| - c < 8
    ensures k < 64 && word[63 - k] == bit
  {
    hide SkipByte, WordDiffers, Holds, BitOf;
    if found {
      k := NotSkipped(s, bit, c);
      WindowBit(s, c, word, k);
    } else if differs {
      var j := WordNotSkipped(s, bit, c);
      var n := NotSkipped(s, bit, c + j);
      k := 8 * j + n;
      WindowByteBit(s, c, word, j, n);
    } else if bit {
      k := SomeOne(word);
    } else {
      k := 8 * (|s| - c);
      WindowBit(s, c, word, k);
      PastTheEnd(s, 8 * c + k);
    }
  }

  lemma AllZero(word: Bits)
    requires |word| == 64
    ensures (forall i :: 0 <= i < 64 ==> !word[i]) ==> word == Zeros(64)
  {
  }

  lemma SomeOne(word: Bits) returns (k: nat)
    requires |word| == 64 && word != Zeros(64)
    ensures k < 64 && word[63 - k]
  {
    AllZero(word);
    var i :| 0 <= i < 64 && word[i];
    k := 63 - i;
  }

  lemma PastTheEnd(s: seq<Byte>, n: nat)
    requires n >= 8 * |s|
    ensures !BitOf(s, n)
  {
  }

  /** An all-zero word is only read when nothing but zeros was left. */
  lemma ZeroIsTheEnd(s: seq<Byte>, c: nat, word: Bits, differs: bool, found: bool)
    requires c <= |s| && |word| == 64 && Holds(word, s, c, 8) && word == Zeros(64)
    requires found ==> differs && c < |s| && s[c] != SkipByte(true)
    requires differs && !found ==> c + 8 <= |s| && WordDiffers(s, c, SkipByte(true))
    ensures !differs
  {
    hide SkipByte, WordDiffers, Holds, BitOf;
    if found {
      var k := NotSkipped(s, true, c);
      WindowBit(s, c, word, k);
    } else if differs {
      var j := WordNotSkipped(s, true, c);
      var n := NotSkipped(s, true, c + j);
      WindowByteBit(s, c, word, j, n);
    }
  }

  /** An all-zero word at the end means that there is no one in the string. */
  lemma NothingLeft(s: seq<Byte>, c: nat, word: Bits, differs: bool, found: bool)
    requires c <= |s| && |word| == 64 && Holds(word, s, c, 8) && word == Zeros(64) && Skipped(s, true, c)
    requires found ==> differs && c < |s| && s[c] != SkipByte(true)
    requires differs && !found ==> c + 8 <= |s| && WordDiffers(s, c, SkipByte(true))
    requires !differs ==> |s| - c < 8
    ensures IsFirst(s, true, -1)
  {
    hide SkipByte, WordDiffers, Holds, BitOf;
    ZeroIsTheEnd(s, c, word, differs, found);
    forall n | 0 <= n < 8 * |s| ensures !BitOf(s, n) {
      if n >= 8 * c {
        WindowBit(s, c, word, n - 8 * c);
      }
    }
  }

  lemma FoundFirst(s: seq<Byte>, bit: bool, c: nat, word: Bits, i: nat)
    requires c <= |s| && |word| == 64 && Holds(word, s, c, 8) && Skipped(s, bit, c) && i < 64 && word[63 - i] == bit
    requires forall m :: 64 - i <= m < 64 ==> word[m] != bit
    ensures IsFirst(s, bit, 8 * c + i)
  {
    hide Holds, BitOf;
    var pos := 8 * c + i;
    WindowBit(s, c, word, i);
    forall n | 0 <= n < pos ensures BitOf(s, n) != bit {
      if n >= 8 * c {
        WindowBit(s, c, word, n - 8 * c);
      }
    }
    if pos >= 8 * |s| {
      PastTheEnd(s, pos);
      PastTheEnd(s, 8 * |s|);
    }
  }
}
