/** BITFIELD: integers of any width at any bit offset of a string, seen as fields of an endless string
    of bits that is zero past the end of the stored bytes. */
module BitFieldSpec {
  import opened Words

  /** Bit `n` of the stored string; bit 0 is the most significant bit of the first byte. */
  predicate BitOf(s: seq<Byte>, n: nat) {
    n / 8 < |s| && s[n / 8][7 - n % 8]
  }

  /** The endless string as the set of positions that hold a one. */
  function Ones(s: seq<Byte>): set<nat> {
    set n | 0 <= n < 8 * |s| && BitOf(s, n)
  }

  /** The unsigned integer in `n` bits at `offset`, most significant bit first. */
  function Get(ones: set<nat>, offset: nat, n: nat): nat {
    if n == 0 then 0 else 2 * Get(ones, offset, n - 1) + if offset + n - 1 in ones then 1 else 0
  }

  /** `v >> k`. */
  function Shift(v: nat, k: nat): nat
    decreases k
  {
    if k == 0 then v else Shift(v / 2, k - 1)
  }

  /** The low `n` bits of `v`. */
  function Low(v: nat, n: nat): (r: nat)
    ensures r < Pow2(n)
    decreases n
  {
    if n == 0 then 0 else 2 * Low(v / 2, n - 1) + v % 2
  }

  /** Bit `k` of a number. */
  predicate Digit(v: nat, k: nat) {
    Shift(v, k) % 2 == 1
  }

  /** The bit of `v` that belongs at position `k` of a field. */
  predicate Stored(v: nat, offset: nat, n: nat, k: nat)
    requires k < offset + n
  {
    Digit(v, offset + n - 1 - k)
  }

  /** The low `n` bits of `v` stored at `offset`. */
  function Put(ones: set<nat>, offset: nat, n: nat, v: nat): set<nat> {
    (set k | k in ones && !(offset <= k < offset + n)) + (set k | offset <= k < offset + n && Stored(v, offset, n, k))
  }

  // ------------------------------------------------------------------
  // Storing and fetching

  lemma ModStep(w: nat, m: nat)
    requires m > 0
    ensures 2 * ((w / 2) % m) + w % 2 == w % (2 * m)
  {
    var q, r := (w / 2) / m, (w / 2) % m;
    assert w == 2 * (q * m + r) + w % 2;
    assert w == q * (2 * m) + (2 * r + w % 2);
    assert 2 * r + w % 2 < 2 * m;
    DivModUnique(w, 2 * m, q, 2 * r + w % 2);
  }

  lemma NoMultiple(d: int, m: int)
    requires d > 0 && m >= 0
    ensures d * m >= m
  {
    assert d * m == (d - 1) * m + m;
  }

  lemma DivModUnique(x: nat, m: nat, q: nat, r: nat)
    requires m > 0 && x == q * m + r && r < m
    ensures x % m == r && x / m == q
  {
    var q', r' := x / m, x % m;
    assert x == q' * m + r';
    assert (q - q') * m == q * m - q' * m == r' - r;
    assert (q' - q) * m == r - r';
    if q' < q {
      NoMultiple(q - q', m);
    } else if q < q' {
      NoMultiple(q' - q, m);
    }
  }

  lemma {:induction false} GetBound(ones: set<nat>, offset: nat, n: nat)
    ensures Get(ones, offset, n) < Pow2(n)
    decreases n
  {
    if n > 0 {
      GetBound(ones, offset, n - 1);
    }
  }

  lemma PutMember(ones: set<nat>, offset: nat, n: nat, v: nat, k: nat)
    ensures k in Put(ones, offset, n, v) <==> if offset <= k < offset + n then Stored(v, offset, n, k) else k in ones
  {
  }

  lemma {:induction false} ShiftNext(v: nat, k: nat)
    ensures Shift(v, k + 1) == Shift(v, k) / 2
    decreases k
  {
    if k > 0 {
      ShiftNext(v / 2, k - 1);
    }
  }

  /** The low bits are the remainder. */
  lemma {:induction false} LowIsMod(v: nat, n: nat)
    ensures Low(v, n) == v % Pow2(n)
    decreases n
  {
    if n > 0 {
      LowIsMod(v / 2, n - 1);
      ModStep(v, Pow2(n - 1));
    }
  }

  lemma {:induction false} LowOfSmall(v: nat, n: nat)
    requires v < Pow2(n)
    ensures Low(v, n) == v
    decreases n
  {
    if n > 0 {
      LowOfSmall(v / 2, n - 1);
    }
  }

  /** The first `j` bits of a stored field are the top `j` bits of the value. */
  lemma {:induction false} GetPutPrefix(ones: set<nat>, offset: nat, n: nat, v: nat, j: nat)
    requires j <= n
    ensures Get(Put(ones, offset, n, v), offset, j) == Low(Shift(v, n - j), j)
    decreases j
  {
    if j > 0 {
      GetPutPrefix(ones, offset, n, v, j - 1);
      PutMember(ones, offset, n, v, offset + j - 1);
      ShiftNext(v, n - j);
      hide Put;
    }
  }

  /** Fetching what was stored gives the value modulo its width. */
  lemma GetPut(ones: set<nat>, offset: nat, n: nat, v: nat)
    ensures Get(Put(ones, offset, n, v), offset, n) == Low(v, n) == v % Pow2(n)
  {
    GetPutPrefix(ones, offset, n, v, n);
    LowIsMod(v, n);
  }

  /** A field that does not overlap is not changed. */
  lemma {:induction false} GetPutApart(ones: set<nat>, offset: nat, n: nat, v: nat, other: nat, m: nat)
    requires other + m <= offset || offset + n <= other
    ensures Get(Put(ones, offset, n, v), other, m) == Get(ones, other, m)
    decreases m
  {
    if m > 0 {
      GetPutApart(ones, offset, n, v, other, m - 1);
      PutMember(ones, offset, n, v, other + m - 1);
    }
  }

  lemma {:induction false} DigitLow(v: nat, n: nat, k: nat)
    requires k < n
    ensures Digit(Low(v, n), k) == Digit(v, k)
    decreases k
  {
    if k > 0 {
      DigitLow(v / 2, n - 1, k - 1);
    }
  }

  /** Only the low bits of a value matter when it is stored. */
  lemma PutLow(ones: set<nat>, offset: nat, n: nat, v: nat)
    ensures Put(ones, offset, n, Low(v, n)) == Put(ones, offset, n, v)
  {
    hide Digit, Low;
    forall k: nat ensures k in Put(ones, offset, n, Low(v, n)) <==> k in Put(ones, offset, n, v) {
      PutMember(ones, offset, n, Low(v, n), k);
      PutMember(ones, offset, n, v, k);
      if offset <= k < offset + n {
        DigitLow(v, n, offset + n - 1 - k);
      }
    }
  }

  // ------------------------------------------------------------------
  // Machine integers

  const M64: int := 0x1_0000_0000_0000_0000
  const M63: int := 0x8000_0000_0000_0000

  function U64(x: int): nat {
    x % M64
  }

  function I64(x: int): int {
    var y := x % M64;
    if y >= M63 then y - M64 else y
  }

  predicate IsI64(x: int) {
    -M63 <= x < M63
  }

  /** A power of two as an integer. */
  function P(n: nat): (r: int)
    ensures r >= 1
  {
    Pow2(n)
  }

  /** Two's complement in `n` bits. */
  function ToSigned(x: int, n: nat): int
    requires n > 0
  {
    if x >= P(n - 1) then x - P(n) else x
  }

  lemma I64Same(x: int)
    requires IsI64(x)
    ensures I64(x) == x
  {
  }

  lemma Powers()
    ensures P(63) == M63 && P(64) == M64
  {
    assert Pow2(8) == 0x100;
    assert Pow2(16) == 0x1_0000;
    assert Pow2(24) == 0x100_0000;
    assert Pow2(32) == 0x1_0000_0000;
    assert Pow2(40) == 0x100_0000_0000;
    assert Pow2(48) == 0x1_0000_0000_0000;
    assert Pow2(56) == 0x100_0000_0000_0000;
  }

  lemma {:induction false} PowGrows(a: nat, b: nat)
    requires a <= b
    ensures P(a) <= P(b)
    decreases b - a
  {
    if a < b {
      PowGrows(a, b - 1);
    }
  }

  lemma PowNext(n: nat)
    ensures P(n + 1) == 2 * P(n)
  {
  }

  lemma {:induction false} PowAdd(a: nat, b: nat)
    ensures P(a + b) == P(a) * P(b)
    decreases a
  {
    if a > 0 {
      PowAdd(a - 1, b);
      PowNext(a - 1 + b);
      PowNext(a - 1);
      Double(P(a - 1), P(b));
    }
  }

  lemma Double(x: int, y: int)
    ensures 2 * (x * y) == (2 * x) * y
  {
  }

  lemma ModShift(x: int, a: int, m: nat)
    requires m > 0
    ensures (x + a * m) % m == x % m
  {
    var q, r := x / m, x % m;
    var q', r' := (x + a * m) / m, (x + a * m) % m;
    assert x == q * m + r;
    assert x + a * m == q' * m + r';
    Distribute(q, a, q', m);
    SmallMultiple(q + a - q', m, r' - r);
  }

  lemma Distribute(q: int, a: int, q': int, m: int)
    ensures (q + a - q') * m == q * m + a * m - q' * m
  {
  }

  lemma SmallMultiple(d: int, m: nat, e: int)
    requires d * m == e && 0 - m < e < m
    ensures d == 0 && e == 0
  {
    var f := 0 - d;
    assert f * m == 0 - e;
    if d > 0 {
      NoMultiple(d, m);
    } else if f > 0 {
      NoMultiple(f, m);
    }
  }

  lemma ModOfMod(x: int, p: nat, t: nat, m: nat)
    requires p > 0 && m > 0 && m == p * t
    ensures (x % m) % p == x % p
  {
    var q, r := x / m, x % m;
    assert x == q * m + r;
    Reorder(q, p, t);
    ModShift(r, q * t, p);
  }

  lemma Reorder(q: int, p: int, t: int)
    ensures q * (p * t) == (q * t) * p
  {
  }

  /** Wrapping at 64 bits does not change the low bits. */
  lemma LowOfWrapped(x: int, n: nat)
    requires n <= 64
    ensures Low(U64(x), n) == x % P(n)
  {
    Powers();
    PowAdd(n, 64 - n);
    LowIsMod(U64(x), n);
    hide Low, Pow2;
    ModOfMod(x, P(n), P(64 - n), M64);
  }

  /** The sign bit tells whether the low bits reach the upper half. */
  lemma {:induction false} SignBit(v: nat, n: nat)
    requires n > 0
    ensures Digit(v, n - 1) <==> Low(v, n) >= P(n - 1)
    decreases n
  {
    if n > 1 {
      SignBit(v / 2, n - 1);
    }
  }

  // ------------------------------------------------------------------
  // Overflow

  datatype Overflow = Wrap | Sat | Fail

  /** The returned code, and the value put in `*limit` (0 when none is). */
  datatype Check = Check(code: int, limit: int)

  /** `checkUnsignedBitfieldOverflow`; 64-bit unsigned fields do not exist. */
  function CheckUnsigned(value: nat, incr: int, bits: nat, ow: Overflow): Check {
    UnsignedCases(value, incr, P(bits) - 1, Low(U64(value + incr), bits), ow)
  }

  function UnsignedCases(value: int, incr: int, max: int, wrapped: int, ow: Overflow): Check {
    var maxincr, minincr := I64(max - value), I64(-value);
    if value > max || (incr > 0 && incr > maxincr) then
      Check(1, match ow case Wrap => wrapped case Sat => max case Fail => 0)
    else if incr < 0 && incr < minincr then
      match ow case Wrap => Check(1, wrapped) case Sat => Check(-1, 0) case Fail => Check(-1, 0)
    else Check(0, 0)
  }

  /** `checkSignedBitfieldOverflow`. */
  function CheckSigned(value: int, incr: int, bits: nat, ow: Overflow): Check
    requires bits > 0
  {
    SignedCases(value, incr, bits == 64, P(bits - 1) - 1, WrapSigned(value + incr, bits), ow)
  }

  /** The sum taken to the sign bit of the field, which is then copied to all the bits above it. */
  function WrapSigned(sum: int, bits: nat): int
    requires bits > 0
  {
    var c := U64(sum);
    if bits == 64 then I64(c)
    else if Digit(c, bits - 1) then I64(Low(c, bits) + (M64 - P(bits)))
    else Low(c, bits)
  }

  function SignedCases(value: int, incr: int, whole: bool, max: int, wrapped: int, ow: Overflow): Check {
    var min := -max - 1;
    var maxincr, minincr := I64(max - value), I64(min - value);
    if value > max || (!whole && incr > maxincr) || (value >= 0 && incr > 0 && incr > maxincr) then
      Check(1, match ow case Wrap => wrapped case Sat => max case Fail => 0)
    else if value < min || (!whole && incr < minincr) || (value < 0 && incr < 0 && incr < minincr) then
      match ow case Wrap => Check(1, wrapped) case Sat => Check(-1, min) case Fail => Check(-1, 0)
    else Check(0, 0)
  }

  /** Overflow is reported exactly when the sum leaves the range, and the limit is the given wrapped sum or
      the nearer end of the range. */
  predicate Right(r: Check, sum: int, min: int, max: int, wrapped: int, ow: Overflow) {
    && (r.code == 0 <==> min <= sum <= max)
    && (r.code != 0 && ow == Wrap ==> r.limit == wrapped)
    && (r.code != 0 && ow == Sat ==> r.limit == if sum < min then min else max)
  }

  lemma UnsignedCasesRight(value: int, incr: int, max: int, wrapped: int, ow: Overflow)
    requires 0 <= value <= max < M63 && IsI64(incr)
    ensures Right(UnsignedCases(value, incr, max, wrapped, ow), value + incr, 0, max, wrapped, ow)
  {
    I64Same(max - value);
    I64Same(-value);
    hide I64;
  }

  lemma SignedCasesRight(value: int, incr: int, whole: bool, max: int, wrapped: int, ow: Overflow)
    requires 0 <= max && -max - 1 <= value <= max && IsI64(incr)
    requires if whole then max == M63 - 1 else 2 * max + 1 < M63
    ensures Right(SignedCases(value, incr, whole, max, wrapped, ow), value + incr, -max - 1, max, wrapped, ow)
  {
    if !whole || value >= 0 {
      I64Same(max - value);
    }
    if !whole || value < 0 {
      I64Same(-max - 1 - value);
    }
    hide I64;
  }

  /** INCRBY on an unsigned field. */
  lemma UnsignedOverflow(value: nat, incr: int, bits: nat, ow: Overflow)
    requires 1 <= bits <= 63 && value < P(bits) && IsI64(incr)
    ensures Right(CheckUnsigned(value, incr, bits, ow), value + incr, 0, P(bits) - 1, (value + incr) % P(bits), ow)
  {
    hide UnsignedCases, Right, Low, P;
    Powers();
    PowGrows(bits, 63);
    LowOfWrapped(value + incr, bits);
    UnsignedCasesRight(value, incr, P(bits) - 1, (value + incr) % P(bits), ow);
  }

  /** What a sum wraps to. */
  lemma WrappedSum(sum: int, bits: nat)
    requires 1 <= bits <= 64
    ensures WrapSigned(sum, bits) == ToSigned(sum % P(bits), bits)
  {
    hide P, Low, Digit;
    Powers();
    LowOfWrapped(sum, bits);
    SignBit(U64(sum), bits);
    PowNext(bits - 1);
    if bits < 64 {
      PowGrows(bits, 63);
      WrapNegative(sum % P(bits) - P(bits));
    }
  }

  lemma WrapNegative(x: int)
    ensures IsI64(x) ==> I64(x + M64) == x
  {
  }

  /** INCRBY on a signed field. */
  lemma SignedOverflow(value: int, incr: int, bits: nat, ow: Overflow)
    requires 1 <= bits <= 64 && -P(bits - 1) <= value < P(bits - 1) && IsI64(incr)
    ensures Right(CheckSigned(value, incr, bits, ow), value + incr, -P(bits - 1), P(bits - 1) - 1,
                  ToSigned((value + incr) % P(bits), bits), ow)
  {
    hide SignedCases, Right, P, WrapSigned, ToSigned;
    Powers();
    if bits < 64 {
      PowGrows(bits - 1, 62);
      PowNext(62);
    }
    WrappedSum(value + incr, bits);
    SignedCasesRight(value, incr, bits == 64, P(bits - 1) - 1, ToSigned((value + incr) % P(bits), bits), ow);
  }

  /** SET checks the new value with an increment of zero. The check is right exactly when the value is not
      so far below the range that its distance to the upper end leaves 64 bits. */
  lemma SetSaturates(value: int, bits: nat)
    requires 1 <= bits <= 64 && IsI64(value)
    ensures Right(CheckSigned(value, 0, bits, Sat), value, -P(bits - 1), P(bits - 1) - 1, 0, Sat)
      <==> bits == 64 || value >= P(bits - 1) - M63
  {
    hide P, WrapSigned, SignedCases, Right;
    Powers();
    if bits < 64 {
      PowGrows(bits - 1, 62);
      PowNext(62);
    }
    SetCases(value, bits == 64, P(bits - 1) - 1, WrapSigned(value, bits));
  }

  lemma SetCases(value: int, whole: bool, max: int, wrapped: int)
    requires IsI64(value) && 0 <= max && if whole then max == M63 - 1 else 2 * max + 1 < M63
    ensures Right(SignedCases(value, 0, whole, max, wrapped, Sat), value, -max - 1, max, 0, Sat)
      <==> whole || value >= max + 1 - M63
  {
    assert I64(max - value) == if max - value < M63 then max - value else max - value - M64;
    assert value < -max - 1 ==> I64(-max - 1 - value) == -max - 1 - value;
  }

  /** The lowest 64-bit integer, set in a signed byte with saturation, becomes the greatest signed byte. */
  lemma LowestSetsGreatest()
    ensures CheckSigned(-M63, 0, 8, Sat) == Check(1, 127)
  {
    assert P(7) == 128;
  }

  /** SET on an unsigned field reads its argument as an unsigned 64-bit number. Saturation takes it to the nearer end
      of the range exactly when it is not negative. */
  lemma SetSaturatesUnsigned(value: int, bits: nat)
    requires 1 <= bits <= 63 && IsI64(value)
    ensures Right(CheckUnsigned(U64(value), 0, bits, Sat), value, 0, P(bits) - 1, 0, Sat) <==> value >= 0
  {
    hide P, Low;
    Powers();
    PowGrows(1, bits);
    PowNext(0);
    PowGrows(bits, 63);
    SetUnsignedCases(value, P(bits) - 1, Low(U64(U64(value) + 0), bits));
  }

  lemma SetUnsignedCases(value: int, max: int, wrapped: int)
    requires IsI64(value) && 1 <= max < M63
    ensures Right(UnsignedCases(U64(value), 0, max, wrapped, Sat), value, 0, max, 0, Sat) <==> value >= 0
  {
    assert U64(value) == if value >= 0 then value else value + M64;
  }

  /** -1, set in an unsigned byte with saturation, becomes 255. */
  lemma MinusOneSetsGreatest()
    ensures CheckUnsigned(U64(-1), 0, 8, Sat) == Check(1, 255)
  {
    assert P(8) == 256;
  }
}
