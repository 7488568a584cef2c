/** What BITFIELD answers: every reply in terms of the bits of the string and ordinary arithmetic. */
module BitFieldReplies {
  import opened Options
  import opened Words
  import opened BitFieldSpec
  import opened BitField

  /** Bit `k` of a number. */
  predicate NumberBit(x: nat, k: nat) {
    x / Pow2(k) % 2 == 1
  }

  /** `y` is the number in the field: within the range of its type, and its two's complement has the bits of the
      string, the most significant first. */
  ghost predicate IsField(ones: set<nat>, op: Op, y: int)
    requires OpOk(op)
  {
    From(op) <= y <= To(op) && forall k | 0 <= k < op.bits :: HasBit(y % Pow2(op.bits), ones, op, k)
  }

  /** Position `k` of the field holds its bit of the number `u`. */
  ghost predicate HasBit(u: nat, ones: set<nat>, op: Op, k: nat)
    requires k < op.bits
  {
    NumberBit(u, op.bits - 1 - k) <==> op.offset + k in ones
  }

  /** The ends of the range of a type. */
  function From(op: Op): int
    requires OpOk(op)
  {
    if op.signed then 0 - Pow2(op.bits - 1) else 0
  }

  function To(op: Op): int
    requires OpOk(op)
  {
    if op.signed then Pow2(op.bits - 1) - 1 else Pow2(op.bits) - 1
  }

  lemma Ends(op: Op)
    requires OpOk(op)
    ensures From(op) == Lowest(op) && To(op) == Greatest(op) && Pow2(op.bits) == 2 * Pow2(op.bits - 1)
  {
    PowAsInt(op.bits);
    PowAsInt(op.bits - 1);
  }

  // ------------------------------------------------------------------
  // Fields and bits

  lemma {:induction false} ShiftIsDivision(v: nat, k: nat)
    ensures Shift(v, k) == v / Pow2(k)
    decreases k
  {
    if k > 0 {
      ShiftIsDivision(v / 2, k - 1);
      HalfFirst(v, Pow2(k - 1));
    }
  }

  lemma HalfFirst(v: nat, m: nat)
    requires m > 0
    ensures v / 2 / m == v / (2 * m)
  {
    var q, r := v / 2 / m, v / 2 % m;
    assert v == q * (2 * m) + (2 * r + v % 2) by {
      assert v == 2 * (v / 2) + v % 2 && v / 2 == q * m + r;
    }
    DivModUnique(v, 2 * m, q, 2 * r + v % 2);
  }

  lemma {:induction false} FieldDigits(ones: set<nat>, offset: nat, n: nat, k: nat)
    requires k < n
    ensures Digit(Get(ones, offset, n), n - 1 - k) <==> offset + k in ones
    decreases n
  {
    hide Get, Digit, Shift;
    GetHalves(ones, offset, n);
    if k < n - 1 {
      FieldDigits(ones, offset, n - 1, k);
      DigitNext(Get(ones, offset, n), n - 1 - k);
    } else {
      LowestDigit(Get(ones, offset, n));
    }
  }

  lemma GetHalves(ones: set<nat>, offset: nat, n: nat)
    requires n > 0
    ensures Get(ones, offset, n) / 2 == Get(ones, offset, n - 1)
    ensures Get(ones, offset, n) % 2 == if offset + n - 1 in ones then 1 else 0
  {
    var u := Get(ones, offset, n - 1);
    assert Get(ones, offset, n) == 2 * u + if offset + n - 1 in ones then 1 else 0;
    hide Get;
  }

  lemma DigitNext(v: nat, j: nat)
    requires j > 0
    ensures Digit(v, j) == Digit(v / 2, j - 1)
  {
  }

  lemma LowestDigit(v: nat)
    ensures Digit(v, 0) <==> v % 2 == 1
  {
  }

  lemma ShownModulo(ones: set<nat>, op: Op)
    requires OpOk(op)
    ensures Shown(ones, op) % Pow2(op.bits) == Get(ones, op.offset, op.bits)
  {
    GetBound(ones, op.offset, op.bits);
    PowNext(op.bits - 1);
    PowAsInt(op.bits);
    PowAsInt(op.bits - 1);
    hide Get, P;
    RangeMod(Shown(ones, op), Pow2(op.bits));
  }

  lemma ShownIsField(ones: set<nat>, op: Op)
    requires OpOk(op)
    ensures IsField(ones, op, Shown(ones, op))
  {
    ShownInRange(ones, op);
    ShownModulo(ones, op);
    Ends(op);
    var u := Get(ones, op.offset, op.bits);
    hide Shown, Get, Shift, P, Pow2, From, To, Lowest, Greatest;
    forall k | 0 <= k < op.bits ensures HasBit(u, ones, op, k) {
      FieldDigits(ones, op.offset, op.bits, k);
      ShiftIsDivision(u, op.bits - 1 - k);
    }
  }

  /** There is only one such number. */
  lemma FieldIsShown(ones: set<nat>, op: Op, y: int)
    requires OpOk(op) && IsField(ones, op, y)
    ensures y == Shown(ones, op)
  {
    ShownIsField(ones, op);
    Ends(op);
    var x, m := Shown(ones, op), Pow2(op.bits);
    hide Shown, NumberBit, Pow2, Lowest, Greatest;
    forall k | 0 <= k < op.bits ensures NumberBit(x % m, k) <==> NumberBit(y % m, k) {
      var i := op.bits - 1 - k;
      assert HasBit(x % m, ones, op, i) && HasBit(y % m, ones, op, i);
    }
    SameBits(x % m, y % m, op.bits);
    RangeMod(x, m);
    RangeMod(y, m);
  }

  lemma {:induction false} SameBits(x: nat, y: nat, n: nat)
    requires x < Pow2(n) && y < Pow2(n) && forall k | 0 <= k < n :: NumberBit(x, k) <==> NumberBit(y, k)
    ensures x == y
    decreases n
  {
    if n > 0 {
      forall k | 0 <= k < n - 1 ensures NumberBit(x / 2, k) <==> NumberBit(y / 2, k) {
        HalfFirst(x, Pow2(k));
        HalfFirst(y, Pow2(k));
        assert NumberBit(x, k + 1) <==> NumberBit(y, k + 1);
      }
      SameBits(x / 2, y / 2, n - 1);
      assert NumberBit(x, 0) <==> NumberBit(y, 0);
      assert x / Pow2(0) == x && y / Pow2(0) == y;
    }
  }

  // ------------------------------------------------------------------
  // One operation

  /** GET answers the number in the field and changes nothing. */
  lemma FetchAnswers(ones: set<nat>, op: Op)
    requires OpOk(op) && op.action == Fetch
    ensures var (after, reply) := Exec(ones, op); after == ones && reply.Some? && IsField(ones, op, reply.value)
  {
    hide Shown;
    ShownIsField(ones, op);
  }

  /** INCRBY of a field with the number `x` answers the sum if it is in the range. Otherwise it answers what the
      overflow type asks for: the number in range that differs from the sum by a multiple of the width, the nearer
      end of the range, or nothing. A field is written exactly if there is an answer, and then holds it. */
  lemma AddAnswers(ones: set<nat>, op: Op, x: int)
    requires OpOk(op) && op.action == Add && IsField(ones, op, x)
    ensures
      var (after, reply) := Exec(ones, op);
      var sum, m := x + op.arg, Pow2(op.bits);
      var low, high := From(op), To(op);
      && (if low <= sum <= high then reply == Some(sum)
          else match op.ow
               case Wrap => reply.Some? && low <= reply.value <= high && (reply.value - sum) % m == 0
               case Sat => reply == Some(if sum < low then low else high)
               case Fail => reply == None)
      && (if reply.Some? then IsField(after, op, reply.value) else after == ones)
  {
    FieldIsShown(ones, op, x);
    AddShowsReply(ones, op);
    Ends(op);
    var (after, reply) := Exec(ones, op);
    ShownIsField(after, op);
    WrapDiffers(op, x + op.arg);
    WrappedInRange(op, x + op.arg);
    hide Shown, Written, Wrapped, IsField, P, Pow2, Lowest, Greatest, From, To;
  }

  lemma WrapDiffers(op: Op, sum: int)
    requires OpOk(op)
    ensures (Wrapped(op, sum) - sum) % Pow2(op.bits) == 0
  {
    var m := Pow2(op.bits);
    PowAsInt(op.bits);
    var r := sum % m;
    var w := Wrapped(op, sum);
    assert w == r || w == r - m;
    hide Wrapped, P;
    assert sum == (sum / m) * m + r;
    var q := if w == r then -(sum / m) else -(sum / m) - 1;
    assert w - sum == q * m;
    MultipleMod(q, m);
  }

  lemma MultipleMod(q: int, m: nat)
    requires m > 0
    ensures (q * m) % m == 0
  {
    var x := q * m;
    var d := x / m;
    assert x == d * m + x % m;
    assert (q - d) * m == x % m;
    SmallMultiple(q - d, m, x % m);
  }

  /** SET with saturation answers the old number. The field then holds the argument if it is in the range, and the
      nearer end of the range if the argument is outside and not so far below that the check misjudges it. */
  lemma SaturatedSetAnswers(ones: set<nat>, op: Op)
    requires OpOk(op) && op.action == Store && op.ow == Sat
    ensures
      var (after, reply) := Exec(ones, op);
      var low, high := From(op), To(op);
      && reply.Some? && IsField(ones, op, reply.value)
      && (low <= op.arg <= high ==> IsField(after, op, op.arg))
      && (op.arg > high ==> IsField(after, op, high))
      && (op.arg < low ==> IsField(after, op,
            if op.signed && (op.bits == 64 || op.arg >= Pow2(op.bits - 1) - M63) then low else high))
  {
    SaturatedValue(op);
    ShownIsField(ones, op);
    Ends(op);
    PowAsInt(op.bits - 1);
    var x := SetValue(op).value;
    InRangeIsItself(op, x);
    StoredIsShown(ones, op, x);
    ShownIsField(Written(ones, op, x), op);
    hide Shown, Written, Wrapped, IsField, P, SetValue;
  }

  lemma SaturatedValue(op: Op)
    requires OpOk(op) && op.ow == Sat
    ensures SetValue(op).Some?
    ensures SetValue(op).value ==
      if op.arg > Greatest(op) then Greatest(op)
      else if op.arg >= Lowest(op) then op.arg
      else if op.signed && (op.bits == 64 || op.arg >= P(op.bits - 1) - M63) then Lowest(op)
      else Greatest(op)
    ensures Lowest(op) <= SetValue(op).value <= Greatest(op)
  {
    hide P, Low, WrapSigned;
    Powers();
    if op.signed {
      if op.bits < 64 {
        PowGrows(op.bits - 1, 62);
        PowNext(62);
      }
      SaturatedSigned(op.arg, op.bits == 64, P(op.bits - 1) - 1, WrapSigned(op.arg, op.bits));
    } else {
      PowGrows(op.bits, 63);
      SaturatedUnsigned(op.arg, P(op.bits) - 1, Low(U64(U64(op.arg)), op.bits));
    }
  }

  lemma SaturatedSigned(value: int, whole: bool, max: int, wrapped: int)
    requires IsI64(value) && 0 <= max && if whole then max == M63 - 1 else 2 * max + 1 < M63
    ensures SignedCases(value, 0, whole, max, wrapped, Sat) ==
      if value > max then Check(1, max)
      else if value >= -max - 1 then Check(0, 0)
      else if whole || value >= max + 1 - M63 then Check(-1, -max - 1)
      else Check(1, max)
  {
    assert I64(max - value) == if max - value < M63 then max - value else max - value - M64;
    assert value < -max - 1 ==> I64(-max - 1 - value) == -max - 1 - value;
  }

  lemma SaturatedUnsigned(value: int, max: int, wrapped: int)
    requires IsI64(value) && 0 <= max < M63
    ensures UnsignedCases(U64(value), 0, max, wrapped, Sat) == if 0 <= value <= max then Check(0, 0) else Check(1, max)
  {
    assert U64(value) == if value >= 0 then value else value + M64;
  }

  // ------------------------------------------------------------------
  // A whole command

  /** The string before operation `j`. */
  ghost function Before(ones: set<nat>, ops: seq<Op>, j: nat): set<nat>
    requires OpsOk(ops) && j <= |ops|
  {
    ExecAll(ones, ops[..j]).0
  }

  /** There is one reply for each operation, given for the string as the operations before it left it. */
  lemma {:induction false} RepliesInTurn(ones: set<nat>, ops: seq<Op>, j: nat)
    requires OpsOk(ops) && j < |ops|
    ensures
      var (after, replies) := ExecAll(ones, ops);
      && |replies| == |ops| && replies[j] == Exec(Before(ones, ops, j), ops[j]).1
      && Before(ones, ops, j + 1) == Exec(Before(ones, ops, j), ops[j]).0
      && after == Before(ones, ops, |ops|) && Before(ones, ops, 0) == ones
    decreases |ops|
  {
    hide Exec;
    var n := |ops| - 1;
    var init := ops[..n];
    assert ops[..|ops|] == ops;
    ExecNext(ones, ops, j);
    ReplyCount(ones, init);
    if j < n {
      RepliesInTurn(ones, init, j);
      assert init[..j] == ops[..j] && init[..j + 1] == ops[..j + 1];
    }
  }

  lemma {:induction false} ReplyCount(ones: set<nat>, ops: seq<Op>)
    requires OpsOk(ops)
    ensures |ExecAll(ones, ops).1| == |ops|
    decreases |ops|
  {
    hide Exec;
    if ops != [] {
      ReplyCount(ones, ops[..|ops| - 1]);
    }
  }

  lemma {:induction false} FetchesKeep(ones: set<nat>, ops: seq<Op>, j: nat)
    requires OpsOk(ops) && j <= |ops| && forall i | 0 <= i < j :: ops[i].action == Fetch
    ensures Before(ones, ops, j) == ones
    decreases j
  {
    hide Exec, ExecAll;
    if j > 0 {
      FetchesKeep(ones, ops, j - 1);
      RepliesInTurn(ones, ops, j - 1);
      FetchAnswers(ones, ops[j - 1]);
    } else {
      assert ops[..0] == [];
      ExecNone(ones);
    }
  }

  /** The same in bytes: bit `n` of a string is bit `7 - n % 8` of its byte `n / 8`, and zero past its end. */
  ghost predicate HoldsBit(u: nat, src: seq<Byte>, op: Op, k: nat)
    requires k < op.bits
  {
    var n := op.offset + k;
    NumberBit(u, op.bits - 1 - k) <==> n / 8 < |src| && src[n / 8][7 - n % 8]
  }

  /** A GET before anything was written answers the number that the stored bytes hold at its offset, with zeros past
      their end. */
  lemma FetchOfStored(src: seq<Byte>, ops: seq<Op>, j: nat)
    requires OpsOk(ops) && j < |ops| && forall i | 0 <= i <= j :: ops[i].action == Fetch
    ensures
      var replies, op := ExecAll(Ones(src), ops).1, ops[j];
      && |replies| == |ops| && replies[j].Some?
      && From(op) <= replies[j].value <= To(op)
      && forall k | 0 <= k < op.bits ::
           HoldsBit(replies[j].value % Pow2(op.bits), src, op, k)
  {
    hide Exec, ExecAll, Ones;
    RepliesInTurn(Ones(src), ops, j);
    FetchesKeep(Ones(src), ops, j);
    FetchAnswers(Ones(src), ops[j]);
    hide From, To, Pow2, NumberBit;
    var op, y := ops[j], ExecAll(Ones(src), ops).1[j].value;
    forall k | 0 <= k < op.bits ensures HoldsBit(y % Pow2(op.bits), src, op, k) {
      assert HasBit(y % Pow2(op.bits), Ones(src), op, k);
      InOnes(src, op.offset + k);
    }
  }

  /** The same field. */
  ghost predicate SameField(a: Op, b: Op) {
    a.offset == b.offset && a.bits == b.bits && a.signed == b.signed
  }

  ghost predicate Apart(a: Op, b: Op) {
    a.offset + a.bits <= b.offset || b.offset + b.bits <= a.offset
  }

  lemma {:induction false} FieldStays(ones: set<nat>, ops: seq<Op>, i: nat, j: nat, op: Op)
    requires OpsOk(ops) && OpOk(op) && i <= j <= |ops|
    requires forall k | i <= k < j :: ops[k].action == Fetch || Apart(ops[k], op)
    ensures Shown(Before(ones, ops, j), op) == Shown(Before(ones, ops, i), op)
    decreases j - i
  {
    hide Exec, ExecAll, Get;
    if i < j {
      FieldStays(ones, ops, i, j - 1, op);
      RepliesInTurn(ones, ops, j - 1);
      if ops[j - 1].action == Fetch {
        FetchAnswers(Before(ones, ops, j - 1), ops[j - 1]);
      } else {
        ExecElsewhere(Before(ones, ops, j - 1), ops[j - 1], op.offset, op.bits);
      }
    }
  }

  /** A GET in the same command sees what a SET of its field stored, as long as nothing between them writes there. */
  lemma SetThenGet(ones: set<nat>, ops: seq<Op>, i: nat, j: nat)
    requires OpsOk(ops) && i < j < |ops| && ops[i].action == Store && ops[j].action == Fetch
    requires SameField(ops[i], ops[j]) && Lowest(ops[i]) <= ops[i].arg <= Greatest(ops[i])
    requires forall k | i < k < j :: ops[k].action == Fetch || Apart(ops[k], ops[i])
    ensures |ExecAll(ones, ops).1| == |ops| && ExecAll(ones, ops).1[j] == Some(ops[i].arg)
  {
    hide ExecAll, Shown, Lowest, Greatest, SetCheck, Written, Wrapped;
    var s := Before(ones, ops, i);
    RepliesInTurn(ones, ops, i);
    RepliesInTurn(ones, ops, j);
    SetCheckFinds(ops[i]);
    StoredIsShown(s, ops[i], ops[i].arg);
    InRangeIsItself(ops[i], ops[i].arg);
    FieldStays(ones, ops, i + 1, j, ops[i]);
    SameShown(Before(ones, ops, j), ops[i], ops[j]);
  }

  lemma SameShown(ones: set<nat>, a: Op, b: Op)
    requires OpOk(a) && OpOk(b) && SameField(a, b)
    ensures Shown(ones, a) == Shown(ones, b)
  {
  }

  /** The string grows to hold the last bit that any writing operation of the command may write, and not further. */
  lemma {:induction false} LastBitIs(ops: seq<Op>)
    requires OpsOk(ops)
    ensures forall i | 0 <= i < |ops| && ops[i].action != Fetch :: ops[i].offset + ops[i].bits - 1 <= LastBit(ops)
    ensures !ReadOnly(ops) ==>
      exists i :: 0 <= i < |ops| && ops[i].action != Fetch && ops[i].offset + ops[i].bits - 1 == LastBit(ops)
    decreases |ops|
  {
    if ops != [] {
      var n := |ops| - 1;
      var init := ops[..n];
      LastBitIs(init);
      assert forall i | 0 <= i < n :: init[i] == ops[i];
      if !ReadOnly(init) {
        var i :| 0 <= i < |init| && init[i].action != Fetch && init[i].offset + init[i].bits - 1 == LastBit(init);
        assert ops[i].offset + ops[i].bits - 1 == LastBit(init);
      } else {
        NoneWritten(init);
      }
    }
  }

  lemma {:induction false} NoneWritten(ops: seq<Op>)
    requires OpsOk(ops) && ReadOnly(ops)
    ensures LastBit(ops) == 0
    decreases |ops|
  {
    if ops != [] {
      NoneWritten(ops[..|ops| - 1]);
    }
  }
}
