/** BITCOUNT: seven 32-bit words at a time, with partial sums inside the words. */
module PopCount {
  import opened Words
  import opened SwarCount

  /** The number of ones. */
  function Ones(b: Bits): nat {
    if b == [] then 0 else (if b[0] then 1 else 0) + Ones(b[1..])
  }

  function Total(s: seq<Byte>): nat {
    if s == [] then 0 else Total(s[..|s| - 1]) + Ones(s[|s| - 1])
  }

  lemma {:induction false} CountOfValue(b: Bits)
    ensures Count(Value(b)) == Ones(b)
  {
    if b != [] {
      CountOfValue(b[1..]);
      assert Value(b) / 2 == Value(b[1..]) && Value(b) % 2 == if b[0] then 1 else 0;
      CountHalf(Value(b));
    }
  }

  /** The top byte after the multiplication, in 32 bits. */
  function Top(sum: nat): nat {
    ((sum % M32 * 0x0101_0101) % M32) / 0x100_0000
  }

  /** The bits counted in 28 bytes at once. */
  function Swar7(w: seq<nat>): nat
    requires |w| == 7 && forall i :: 0 <= i < 7 ==> Pairs(w[i]) >= 0
  {
    Top(Swar(w[0]) + Swar(w[1]) + Swar(w[2]) + Swar(w[3]) + Swar(w[4]) + Swar(w[5]) + Swar(w[6]))
  }

  /** The four bytes of a word at position `i`, as the words are read. */
  function Load(s: seq<Byte>, i: nat): nat
    requires i + 4 <= |s|
  {
    Word32(Value(s[i]), Value(s[i + 1]), Value(s[i + 2]), Value(s[i + 3]))
  }

  /** The seven words of 28 bytes. */
  function Seven(s: seq<Byte>, i: nat): seq<nat>
    requires i + 28 <= |s|
  {
    [Load(s, i), Load(s, i + 4), Load(s, i + 8), Load(s, i + 12), Load(s, i + 16), Load(s, i + 20), Load(s, i + 24)]
  }

  /** The counts of the four bytes at `i`. */
  function Lane(s: seq<Byte>, i: nat): nat
    requires i < |s|
  {
    Ones(s[i])
  }

  lemma ByteValue(b: Byte)
    ensures Value(b) < 256 && Count(Value(b)) == Ones(b)
  {
    OfNatValue(b);
    assert Pow2(8) == 256;
    CountOfValue(b);
  }

  lemma LoadCounts(s: seq<Byte>, i: nat)
    requires i + 4 <= |s|
    ensures Pairs(Load(s, i)) >= 0
    ensures Swar(Load(s, i)) == Word32(Lane(s, i), Lane(s, i + 1), Lane(s, i + 2), Lane(s, i + 3))
    ensures Lane(s, i) <= 8 && Lane(s, i + 1) <= 8 && Lane(s, i + 2) <= 8 && Lane(s, i + 3) <= 8
  {
    hide Pairs, Swar, Count, Value, Ones;
    ByteValue(s[i]);
    ByteValue(s[i + 1]);
    ByteValue(s[i + 2]);
    ByteValue(s[i + 3]);
    SwarCounts(Value(s[i]), Value(s[i + 1]), Value(s[i + 2]), Value(s[i + 3]));
  }

  /** Ones in `n` bytes from `i` on. */
  function Stretch(s: seq<Byte>, i: nat, n: nat): nat
    requires i + n <= |s|
  {
    if n == 0 then 0 else Stretch(s, i, n - 1) + Ones(s[i + n - 1])
  }

  lemma Stretch4(s: seq<Byte>, i: nat, n: nat)
    requires i + n + 4 <= |s|
    ensures Stretch(s, i, n + 4)
         == Stretch(s, i, n) + Lane(s, i + n) + Lane(s, i + n + 1) + Lane(s, i + n + 2) + Lane(s, i + n + 3)
  {
    hide Ones;
    assert Stretch(s, i, n + 1) == Stretch(s, i, n) + Ones(s[i + n]);
    assert Stretch(s, i, n + 2) == Stretch(s, i, n + 1) + Ones(s[i + n + 1]);
    assert Stretch(s, i, n + 3) == Stretch(s, i, n + 2) + Ones(s[i + n + 2]);
  }

  /** The counts of the first `k` words added up. */
  function SumSwar(s: seq<Byte>, i: nat, k: nat): nat
    requires i + 4 * k <= |s|
    decreases k
  {
    if k == 0 then 0 else
    LoadCounts(s, i + 4 * (k - 1));
    SumSwar(s, i, k - 1) + Swar(Load(s, i + 4 * (k - 1)))
  }

  /** Each byte of the sum holds at most eight per word, and together they hold the ones of all the bytes. */
  lemma {:induction false} SumLanes(s: seq<Byte>, i: nat, k: nat) returns (a: nat, b: nat, c: nat, d: nat)
    requires i + 4 * k <= |s|
    ensures SumSwar(s, i, k) == Word32(a, b, c, d)
    ensures a <= 8 * k && b <= 8 * k && c <= 8 * k && d <= 8 * k
    ensures Stretch(s, i, 4 * k) == a + b + c + d
    decreases k
  {
    hide Pairs, Swar, Lane, Stretch, Load, Word32, SumSwar;
    if k == 0 {
      a, b, c, d := 0, 0, 0, 0;
      StretchNone(s, i);
      SumNone(s, i);
      WordNested(0, 0, 0, 0);
    } else {
      var n := 4 * (k - 1);
      a, b, c, d := SumLanes(s, i, k - 1);
      LoadCounts(s, i + n);
      SumOpen(s, i, k - 1);
      Stretch4(s, i, n);
      AddWords(a, b, c, d, Lane(s, i + n), Lane(s, i + n + 1), Lane(s, i + n + 2), Lane(s, i + n + 3));
      a, b, c, d := a + Lane(s, i + n), b + Lane(s, i + n + 1), c + Lane(s, i + n + 2), d + Lane(s, i + n + 3);
    }
  }

  lemma SumOpen(s: seq<Byte>, i: nat, k: nat)
    requires i + 4 * (k + 1) <= |s|
    ensures Pairs(Load(s, i + 4 * k)) >= 0
    ensures SumSwar(s, i, k + 1) == SumSwar(s, i, k) + Swar(Load(s, i + 4 * k))
  {
    hide Pairs, Swar, Load;
    LoadCounts(s, i + 4 * k);
  }

  /** The partial sums of seven words, added up, do not reach 2^32. */
  lemma SevenFit(s: seq<Byte>, i: nat)
    requires i + 28 <= |s|
    ensures SumSwar(s, i, 7) < M32
  {
    var a, b, c, d := SumLanes(s, i, 7);
  }

  /** Seven words at once give the ones of the 28 bytes; no byte of the partial sums exceeds 56. */
  lemma Swar7Counts(s: seq<Byte>, i: nat)
    requires i + 28 <= |s|
    ensures var w := Seven(s, i);
      && (forall k :: 0 <= k < 7 ==> Pairs(w[k]) >= 0)
      && Swar7(w) == Stretch(s, i, 28)
  {
    hide Pairs, Swar, Stretch, Load, SumSwar, Top, Word32;
    SevenSum(s, i);
    var a, b, c, d := SumLanes(s, i, 7);
    TopOf(a, b, c, d);
  }

  lemma TopOf(a: nat, b: nat, c: nat, d: nat)
    requires a <= 56 && b <= 56 && c <= 56 && d <= 56
    ensures Top(Word32(a, b, c, d)) == a + b + c + d
  {
    TopByte(a, b, c, d);
    Remainder(Word32(a, b, c, d), 0);
  }

  lemma SevenSum(s: seq<Byte>, i: nat)
    requires i + 28 <= |s|
    ensures var w := Seven(s, i);
      && (forall k :: 0 <= k < 7 ==> Pairs(w[k]) >= 0)
      && SumSwar(s, i, 7)
      == Swar(w[0]) + Swar(w[1]) + Swar(w[2]) + Swar(w[3]) + Swar(w[4]) + Swar(w[5]) + Swar(w[6])
  {
    hide Pairs, Swar, Load, SumSwar;
    SumNone(s, i);
    SumOpen(s, i, 0);
    SumOpen(s, i, 1);
    SumOpen(s, i, 2);
    SumOpen(s, i, 3);
    SumOpen(s, i, 4);
    SumOpen(s, i, 5);
    SumOpen(s, i, 6);
  }

  lemma SumNone(s: seq<Byte>, i: nat)
    requires i <= |s|
    ensures SumSwar(s, i, 0) == 0
  {
  }

  lemma StretchNone(s: seq<Byte>, i: nat)
    requires i <= |s|
    ensures Stretch(s, i, 0) == 0
  {
  }

  lemma {:induction false} TotalStretch(s: seq<Byte>, i: nat, n: nat)
    requires i + n <= |s|
    ensures Total(s[..i + n]) == Total(s[..i]) + Stretch(s, i, n)
    decreases n
  {
    if n > 0 {
      TotalStretch(s, i, n - 1);
      assert s[..i + n][..i + n - 1] == s[..i + n - 1];
    }
  }

  /** `redisPopcount`; `address` is where the string starts in memory. */
  method Popcount(s: seq<Byte>, address: nat) returns (bits: nat)
    ensures bits == Total(s)
  {
    hide Total, Ones, Stretch, Load, Pairs, Swar7;
    bits := 0;
    var p := 0;
    TotalNone(s);
    while (address + p) % 4 != 0 && p < |s|
      invariant 0 <= p <= |s| && bits == Total(s[..p])
      decreases |s| - p
    {
      TotalOne(s, p);
      bits := bits + Ones(s[p]);
      p := p + 1;
    }
    while |s| - p >= 28
      invariant 0 <= p <= |s| && bits == Total(s[..p])
    {
      Swar7Counts(s, p);
      TotalStretch(s, p, 28);
      bits := bits + Swar7(Seven(s, p));
      p := p + 28;
    }
    while p < |s|
      invariant 0 <= p <= |s| && bits == Total(s[..p])
    {
      TotalOne(s, p);
      bits := bits + Ones(s[p]);
      p := p + 1;
    }
    assert s[..p] == s;
  }

  lemma TotalNone(s: seq<Byte>)
    ensures Total(s[..0]) == 0
  {
  }

  lemma TotalOne(s: seq<Byte>, p: nat)
    requires p < |s|
    ensures Total(s[..p + 1]) == Total(s[..p]) + Ones(s[p])
  {
    assert s[..p + 1][..p] == s[..p];
  }

  // ------------------------------------------------------------------
  // The count is the number of positions that hold a one

  ghost function Positions(s: seq<Byte>): set<nat> {
    set n | 0 <= n < 8 * |s| && s[n / 8][7 - n % 8]
  }

  /** The first `m` positions in byte `k`; a byte is read from its highest bit down. */
  ghost function InByte(b: Byte, k: nat, m: nat): set<nat> {
    set n | 8 * k <= n < 8 * k + m && b[7 - n % 8]
  }

  lemma InByteAt(b: Byte, k: nat, m: nat, n: nat)
    requires m <= 8
    ensures n in InByte(b, k, m) <==> 8 * k <= n < 8 * k + m && b[7 - (n - 8 * k)]
  {
    if 8 * k <= n < 8 * k + 8 {
      InEight(k, n - 8 * k);
    }
  }

  lemma InEight(k: nat, j: nat)
    requires j < 8
    ensures (8 * k + j) % 8 == j
  {
  }

  lemma OnesFirst(b: Bits)
    requires b != []
    ensures Ones(b) == (if b[0] then 1 else 0) + Ones(b[1..])
  {
  }

  lemma {:induction false} InByteCount(b: Byte, k: nat, m: nat)
    requires m <= 8
    ensures |InByte(b, k, m)| == Ones(b[8 - m..])
    decreases m
  {
    if m == 0 {
      assert InByte(b, k, 0) == {} && b[8..] == [];
    } else {
      hide InByte;
      var last := 8 * k + m - 1;
      InByteCount(b, k, m - 1);
      var before, now := InByte(b, k, m - 1), InByte(b, k, m);
      forall n: nat ensures n in now <==> n in before || (n == last && b[8 - m]) {
        InByteAt(b, k, m, n);
        InByteAt(b, k, m - 1, n);
      }
      InByteAt(b, k, m - 1, last);
      assert now == before + if b[8 - m] then {last} else {};
      OnesFirst(b[8 - m..]);
      assert b[8 - m..][1..] == b[8 - (m - 1)..];
    }
  }

  /** BITCOUNT is the number of positions that hold a one. */
  lemma {:induction false} TotalCounts(s: seq<Byte>)
    ensures Total(s) == |Positions(s)|
    decreases |s|
  {
    if s == [] {
      assert Positions(s) == {};
    } else {
      var k := |s| - 1;
      TotalCounts(s[..k]);
      InByteCount(s[k], k, 8);
      assert s[k][0..] == s[k];
      var a, b := Positions(s[..k]), InByte(s[k], k, 8);
      forall n: nat ensures n in Positions(s) <==> n in a || n in b {
        assert n < 8 * k <==> n / 8 < k;
      }
      assert Positions(s) == a + b && a * b == {};
    }
  }
}
