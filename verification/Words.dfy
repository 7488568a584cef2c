/** Fixed-width machine words as bit strings, least significant bit first. */
module Words {

  type Bits = seq<bool>

  type Byte = b: Bits | |b| == 8 witness Zeros(8)

  function Zeros(n: nat): (r: Bits)
    ensures |r| == n && forall i {:trigger r[i]} :: 0 <= i < n ==> !r[i]
  {
    seq(n, _ => false)
  }

  /** The low `width` bits of `n`. */
  function OfNat(n: nat, width: nat): (r: Bits)
    ensures |r| == width
    decreases width
  {
    if width == 0 then [] else [n % 2 == 1] + OfNat(n / 2, width - 1)
  }

  function Value(a: Bits): nat {
    if a == [] then 0 else (if a[0] then 1 else 0) + 2 * Value(a[1..])
  }

  function Xor(a: Bits, b: Bits): (r: Bits)
    requires |a| == |b|
    ensures |r| == |a| && forall i {:trigger r[i]} :: 0 <= i < |a| ==> r[i] == (a[i] != b[i])
  {
    seq(|a|, i requires 0 <= i < |a| => a[i] != b[i])
  }

  function And(a: Bits, b: Bits): (r: Bits)
    requires |a| == |b|
    ensures |r| == |a| && forall i {:trigger r[i]} :: 0 <= i < |a| ==> r[i] == (a[i] && b[i])
  {
    seq(|a|, i requires 0 <= i < |a| => a[i] && b[i])
  }

  function Or(a: Bits, b: Bits): (r: Bits)
    requires |a| == |b|
    ensures |r| == |a| && forall i {:trigger r[i]} :: 0 <= i < |a| ==> r[i] == (a[i] || b[i])
  {
    seq(|a|, i requires 0 <= i < |a| => a[i] || b[i])
  }

  function Shr(a: Bits, k: nat): (r: Bits)
    requires k <= |a|
    ensures |r| == |a|
  {
    a[k..] + Zeros(k)
  }

  function Shl(a: Bits, k: nat): (r: Bits)
    requires k <= |a|
    ensures |r| == |a|
  {
    Zeros(k) + a[..|a| - k]
  }

  function Reversed(a: Bits): (r: Bits)
    ensures |r| == |a| && forall i {:trigger r[i]} :: 0 <= i < |a| ==> r[i] == a[|a| - 1 - i]
  {
    seq(|a|, i requires 0 <= i < |a| => a[|a| - 1 - i])
  }

  /** `a` with zero bits added above, up to `width`. */
  function Extend(a: Bits, width: nat): (r: Bits)
    requires |a| <= width
    ensures |r| == width
  {
    a + Zeros(width - |a|)
  }

  /** A value that fits its width survives the trip through its bits. */
  lemma {:induction false} ValueOfNat(n: nat, width: nat)
    requires n < Pow2(width)
    ensures Value(OfNat(n, width)) == n
    decreases width
  {
    if width > 0 {
      ValueOfNat(n / 2, width - 1);
      assert OfNat(n, width)[1..] == OfNat(n / 2, width - 1);
    }
  }

  lemma {:induction false} OfNatValue(a: Bits)
    ensures Value(a) < Pow2(|a|)
    ensures OfNat(Value(a), |a|) == a
  {
    if a != [] {
      OfNatValue(a[1..]);
      assert Value(a) / 2 == Value(a[1..]) && (Value(a) % 2 == 1) == a[0];
      assert a == [a[0]] + a[1..];
    }
  }

  function Pow2(n: nat): (r: nat)
    ensures r > 0
  {
    if n == 0 then 1 else 2 * Pow2(n - 1)
  }

  lemma XorComm(a: Bits, b: Bits)
    requires |a| == |b|
    ensures Xor(a, b) == Xor(b, a)
  {
  }

  lemma XorAssoc(a: Bits, b: Bits, c: Bits)
    requires |a| == |b| == |c|
    ensures Xor(Xor(a, b), c) == Xor(a, Xor(b, c))
  {
  }

  lemma XorZero(a: Bits)
    ensures Xor(a, Zeros(|a|)) == a
    ensures Xor(Zeros(|a|), a) == a
  {
  }

  /** The byte with every bit set. */
  const FULL: Byte := [true, true, true, true, true, true, true, true]

  /** Eight strings side by side, the first one lowest. */
  function Eight(a: Bits, b: Bits, c: Bits, d: Bits, e: Bits, f: Bits, g: Bits, h: Bits): (r: Bits)
    ensures |r| == |a| + |b| + |c| + |d| + |e| + |f| + |g| + |h|
  {
    a + b + c + d + e + f + g + h
  }
}
