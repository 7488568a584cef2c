/** BITFIELD as a command: the loops over the stored bytes and over the operations. */
module BitField {
  import opened Options
  import opened Words
  import opened BitFieldSpec

  datatype Action = Fetch | Store | Add

  /** One parsed subcommand. */
  datatype Op = Op(action: Action, offset: nat, arg: int, ow: Overflow, bits: nat, signed: bool)

  /** The types are `i1` to `i64` and `u1` to `u63`. */
  predicate OpOk(op: Op) {
    1 <= op.bits <= (if op.signed then 64 else 63) && IsI64(op.arg)
  }

  function Lowest(op: Op): int
    requires OpOk(op)
  {
    if op.signed then -P(op.bits - 1) else 0
  }

  function Greatest(op: Op): int
    requires OpOk(op)
  {
    if op.signed then P(op.bits - 1) - 1 else P(op.bits) - 1
  }

  /** A number modulo the width of the field, as the field shows it. */
  function Wrapped(op: Op, x: int): int
    requires OpOk(op)
  {
    if op.signed then ToSigned(x % P(op.bits), op.bits) else x % P(op.bits)
  }

  /** The field as a number. */
  function Shown(ones: set<nat>, op: Op): int
    requires OpOk(op)
  {
    var u := Get(ones, op.offset, op.bits);
    if op.signed then ToSigned(u, op.bits) else u
  }

  /** Store `x` in the field of `op`. */
  function Written(ones: set<nat>, op: Op, x: int): set<nat> {
    Put(ones, op.offset, op.bits, U64(x))
  }

  /** The sum as INCRBY must store it, or nothing when it must not be stored. */
  function Sum(op: Op, old_: int): Option<int>
    requires OpOk(op)
  {
    var sum := old_ + op.arg;
    if Lowest(op) <= sum <= Greatest(op) then Some(sum)
    else
      match op.ow
      case Wrap => Some(Wrapped(op, sum))
      case Sat => Some(if sum < Lowest(op) then Lowest(op) else Greatest(op))
      case Fail => None
  }

  /** The overflow check that SET makes of its argument. */
  function SetCheck(op: Op): Check
    requires OpOk(op)
  {
    if op.signed then CheckSigned(op.arg, 0, op.bits, op.ow) else CheckUnsigned(U64(op.arg), 0, op.bits, op.ow)
  }

  function SetValue(op: Op): Option<int>
    requires OpOk(op)
  {
    var r := SetCheck(op);
    if r.code != 0 && op.ow == Fail then None else Some(if r.code != 0 then r.limit else op.arg)
  }

  /** One operation on the endless string of bits: the new string and the reply. */
  function Exec(ones: set<nat>, op: Op): (set<nat>, Option<int>)
    requires OpOk(op)
  {
    var now := Shown(ones, op);
    match op.action
    case Fetch => (ones, Some(now))
    case Add =>
      (match Sum(op, now) case None => (ones, None) case Some(x) => (Written(ones, op, x), Some(x)))
    case Store =>
      (match SetValue(op) case None => (ones, None) case Some(x) => (Written(ones, op, x), Some(now)))
  }

  ghost predicate OpsOk(ops: seq<Op>) {
    forall i :: 0 <= i < |ops| ==> OpOk(ops[i])
  }

  /** A whole command is a fold. */
  function ExecAll(ones: set<nat>, ops: seq<Op>): (set<nat>, seq<Option<int>>)
    requires OpsOk(ops)
  {
    if ops == [] then (ones, []) else
    var (s, replies) := ExecAll(ones, ops[..|ops| - 1]);
    var (t, reply) := Exec(s, ops[|ops| - 1]);
    (t, replies + [reply])
  }

  // ------------------------------------------------------------------
  // What the operations mean

  lemma ShownInRange(ones: set<nat>, op: Op)
    requires OpOk(op)
    ensures Lowest(op) <= Shown(ones, op) <= Greatest(op)
  {
    GetBound(ones, op.offset, op.bits);
    PowNext(op.bits - 1);
  }

  lemma RangeMod(x: int, m: nat)
    requires m > 0 && 0 - m <= x < m
    ensures x % m == if x < 0 then x + m else x
  {
    var q, r := x / m, x % m;
    var q', r' := if x < 0 then -1 else 0, if x < 0 then x + m else x;
    assert x == q * m + r && x == q' * m + r';
    Distribute(q', 0, q, m);
    assert (q' - q) * m == r - r';
    SmallMultiple(q' - q, m, r - r');
  }

  /** What is stored is shown modulo the width of the field. */
  lemma StoredIsShown(ones: set<nat>, op: Op, x: int)
    requires OpOk(op)
    ensures Shown(Written(ones, op, x), op) == Wrapped(op, x)
  {
    hide Put, Get, Low;
    GetPut(ones, op.offset, op.bits, U64(x));
    LowOfWrapped(x, op.bits);
  }

  lemma InRangeIsItself(op: Op, x: int)
    requires OpOk(op) && Lowest(op) <= x <= Greatest(op)
    ensures Wrapped(op, x) == x
  {
    hide P;
    PowNext(op.bits - 1);
    RangeMod(x, P(op.bits));
  }

  /** After INCRBY the field shows the reply; when the reply is null nothing was written. */
  lemma AddShowsReply(ones: set<nat>, op: Op)
    requires OpOk(op) && op.action == Add
    ensures var (after, reply) := Exec(ones, op);
      match reply
      case None => after == ones && op.ow == Fail && !(Lowest(op) <= Shown(ones, op) + op.arg <= Greatest(op))
      case Some(x) => Shown(after, op) == x && Lowest(op) <= x <= Greatest(op)
  {
    hide Shown, Written, Wrapped;
    ShownInRange(ones, op);
    var now := Shown(ones, op);
    var r := Sum(op, now);
    if r.Some? {
      WrappedInRange(op, now + op.arg);
      InRangeIsItself(op, r.value);
      StoredIsShown(ones, op, r.value);
    }
  }

  /** The check that SET makes finds overflow exactly when the argument is outside the range of the field. */
  lemma SetCheckFinds(op: Op)
    requires OpOk(op)
    ensures SetCheck(op).code != 0 <==> !(Lowest(op) <= op.arg <= Greatest(op))
  {
    hide P, Low, WrapSigned;
    Powers();
    if op.signed {
      PowGrows(0, op.bits - 1);
      if op.bits < 64 {
        PowGrows(op.bits - 1, 62);
        PowNext(62);
      }
      SignedCode(op.arg, op.bits == 64, P(op.bits - 1) - 1, WrapSigned(op.arg, op.bits), op.ow);
    } else {
      PowGrows(0, op.bits);
      PowGrows(op.bits, 63);
      UnsignedCode(op.arg, P(op.bits) - 1, Low(U64(U64(op.arg)), op.bits), op.ow);
    }
  }

  lemma SignedCode(value: int, whole: bool, max: int, wrapped: int, ow: Overflow)
    requires IsI64(value) && 0 <= max && if whole then max == M63 - 1 else 2 * max + 1 < M63
    ensures SignedCases(value, 0, whole, max, wrapped, ow).code != 0 <==> !(-max - 1 <= value <= max)
  {
    assert I64(max - value) == if max - value < M63 then max - value else max - value - M64;
    assert value < -max - 1 ==> I64(-max - 1 - value) == -max - 1 - value;
  }

  lemma UnsignedCode(value: int, max: int, wrapped: int, ow: Overflow)
    requires IsI64(value) && 0 <= max < M63
    ensures UnsignedCases(U64(value), 0, max, wrapped, ow).code != 0 <==> !(0 <= value <= max)
  {
    assert U64(value) == if value >= 0 then value else value + M64;
  }

  /** SET under FAIL writes nothing and answers null exactly when its argument is outside the range. */
  lemma SetFails(ones: set<nat>, op: Op)
    requires OpOk(op) && op.action == Store && op.ow == Fail
    ensures var (after, reply) := Exec(ones, op);
      if Lowest(op) <= op.arg <= Greatest(op)
      then reply == Some(Shown(ones, op)) && Shown(after, op) == op.arg
      else reply == None && after == ones
  {
    hide Shown, Written, SetCheck, Wrapped;
    SetCheckFinds(op);
    if Lowest(op) <= op.arg <= Greatest(op) {
      StoredIsShown(ones, op, op.arg);
      InRangeIsItself(op, op.arg);
    }
  }

  /** SET under WRAP stores its argument modulo the width of the field, whatever it is, and answers the old value. */
  lemma SetWraps(ones: set<nat>, op: Op)
    requires OpOk(op) && op.action == Store && op.ow == Wrap
    ensures var (after, reply) := Exec(ones, op);
      reply == Some(Shown(ones, op)) && Shown(after, op) == Wrapped(op, op.arg)
  {
    hide Shown, Written, Wrapped, Lowest, Greatest;
    var x := SetValue(op).value;
    SetWrapped(op);
    StoredIsShown(ones, op, x);
    if x != op.arg {
      WrappedInRange(op, op.arg);
      InRangeIsItself(op, x);
    }
  }

  lemma SetWrapped(op: Op)
    requires OpOk(op) && op.ow == Wrap
    ensures SetValue(op).Some? && SetValue(op).value in {op.arg, Wrapped(op, op.arg)}
  {
    hide P, Low, WrapSigned;
    if op.signed {
      WrappedSum(op.arg, op.bits);
    } else {
      assert U64(U64(op.arg) + 0) == U64(op.arg);
      LowOfWrapped(op.arg, op.bits);
    }
  }

  lemma WrappedInRange(op: Op, x: int)
    requires OpOk(op)
    ensures Lowest(op) <= Wrapped(op, x) <= Greatest(op)
  {
    PowNext(op.bits - 1);
    PowGrows(0, op.bits - 1);
  }

  /** An operation leaves every field alone that does not overlap its own. */
  lemma ExecElsewhere(ones: set<nat>, op: Op, other: nat, m: nat)
    requires OpOk(op) && (other + m <= op.offset || op.offset + op.bits <= other)
    ensures Get(Exec(ones, op).0, other, m) == Get(ones, other, m)
  {
    hide Get, Put, Shown, Sum, SetValue;
    forall v: nat ensures Get(Put(ones, op.offset, op.bits, v), other, m) == Get(ones, other, m) {
      GetPutApart(ones, op.offset, op.bits, v, other, m);
    }
  }

  // ------------------------------------------------------------------
  // The loops over bits

  lemma SamePlace(n: nat, m: nat)
    ensures n / 8 == m / 8 && n % 8 == m % 8 <==> n == m
  {
  }

  /** Changing one bit of the string. */
  function WithBit(s: seq<Byte>, m: nat, v: bool): (r: seq<Byte>)
    requires m / 8 < |s|
    ensures |r| == |s|
  {
    s[m / 8 := s[m / 8][7 - m % 8 := v]]
  }

  lemma BitOfWithBit(s: seq<Byte>, m: nat, v: bool, n: nat)
    requires m / 8 < |s|
    ensures BitOf(WithBit(s, m, v), n) == if n == m then v else BitOf(s, n)
  {
    SamePlace(n, m);
  }

  lemma InOnes(s: seq<Byte>, n: nat)
    ensures n in Ones(s) <==> BitOf(s, n)
  {
    assert n / 8 < |s| ==> n < 8 * |s|;
  }

  lemma OnesWithBit(s: seq<Byte>, m: nat, v: bool)
    requires m / 8 < |s|
    ensures Ones(WithBit(s, m, v)) == if v then Ones(s) + {m} else Ones(s) - {m}
  {
    hide BitOf, WithBit, Ones;
    forall n: nat ensures n in Ones(WithBit(s, m, v)) <==> if n == m then v else n in Ones(s) {
      InOnes(s, n);
      InOnes(WithBit(s, m, v), n);
      BitOfWithBit(s, m, v, n);
    }
  }

  /** The first `j` bits of a field stored. */
  function PutSome(ones: set<nat>, offset: nat, n: nat, v: nat, j: nat): set<nat>
    requires j <= n
  {
    (set k | k in ones && !(offset <= k < offset + j)) + (set k | offset <= k < offset + j && Stored(v, offset, n, k))
  }

  lemma PutSomeNext(ones: set<nat>, offset: nat, n: nat, v: nat, j: nat)
    requires j < n
    ensures var s := PutSome(ones, offset, n, v, j);
      PutSome(ones, offset, n, v, j + 1) == if Digit(v, n - 1 - j) then s + {offset + j} else s - {offset + j}
  {
    hide Digit;
    var s, t := PutSome(ones, offset, n, v, j), PutSome(ones, offset, n, v, j + 1);
    forall k: nat ensures k in t <==> if k == offset + j then Digit(v, n - 1 - j) else k in s {
    }
  }

  lemma PutSomeEnds(ones: set<nat>, offset: nat, n: nat, v: nat)
    ensures PutSome(ones, offset, n, v, 0) == ones && PutSome(ones, offset, n, v, n) == Put(ones, offset, n, v)
  {
  }

  /** `setUnsignedBitfield`. */
  method SetUnsignedBitfield(p: array<Byte>, offset: nat, bits: nat, value: nat)
    requires offset + bits <= 8 * p.Length
    modifies p
    ensures Ones(p[..]) == Put(old(Ones(p[..])), offset, bits, value)
  {
    hide Ones, BitOf, Put, PutSome, Digit;
    ghost var ones := Ones(p[..]);
    PutSomeEnds(ones, offset, bits, value);
    for j := 0 to bits
      invariant Ones(p[..]) == PutSome(ones, offset, bits, value, j)
    {
      var bitval := Digit(value, bits - 1 - j);
      var m := offset + j;
      PutSomeNext(ones, offset, bits, value, j);
      OnesWithBit(p[..], m, bitval);
      ghost var s := p[..];
      p[m / 8] := p[m / 8][7 - m % 8 := bitval];
      assert p[..] == WithBit(s, m, bitval);
    }
  }

  /** `getUnsignedBitfield`. */
  method GetUnsignedBitfield(p: array<Byte>, offset: nat, bits: nat) returns (value: nat)
    requires offset + bits <= 8 * p.Length
    ensures value == Get(Ones(p[..]), offset, bits)
  {
    hide Ones;
    value := 0;
    for j := 0 to bits
      invariant value == Get(Ones(p[..]), offset, j)
    {
      var m := offset + j;
      InOnes(p[..], m);
      value := 2 * value + if p[m / 8][7 - m % 8] then 1 else 0;
    }
  }

  /** `getSignedBitfield`: the sign bit of the field is copied to all the bits above it. */
  method GetSignedBitfield(p: array<Byte>, offset: nat, bits: nat) returns (value: int)
    requires offset + bits <= 8 * p.Length && 1 <= bits <= 64
    ensures value == ToSigned(Get(Ones(p[..]), offset, bits), bits)
  {
    hide Ones, Get, Low, Digit, P;
    ghost var ones := Ones(p[..]);
    var u := GetUnsignedBitfield(p, offset, bits);
    GetBound(ones, offset, bits);
    SignOf(u, bits);
    value := I64(u);
    if bits < 64 && Digit(u, bits - 1) {
      value := I64(u + (M64 - P(bits)));
    }
  }

  lemma SignOf(u: nat, bits: nat)
    requires 1 <= bits <= 64 && u < Pow2(bits)
    ensures ToSigned(u, bits) == if bits < 64 && Digit(u, bits - 1) then I64(u + (M64 - P(bits))) else I64(u)
  {
    hide P, Low, Digit;
    LowOfSmall(u, bits);
    SignBit(u, bits);
    Powers();
    PowNext(bits - 1);
    PowAsInt(bits);
    if bits < 64 {
      PowGrows(bits, 63);
    }
    SignCases(u, P(bits - 1), P(bits), bits == 64, Digit(u, bits - 1));
  }

  lemma PowAsInt(n: nat)
    ensures P(n) == Pow2(n)
  {
  }

  lemma SignCases(u: int, half: int, whole: int, widest: bool, negative: bool)
    requires 0 <= u < whole == 2 * half && (negative <==> u >= half)
    requires if widest then whole == M64 else whole <= M63
    ensures (if u >= half then u - whole else u) == if !widest && negative then I64(u + (M64 - whole)) else I64(u)
  {
  }

  // ------------------------------------------------------------------
  // The command

  /** `bitfieldGeneric` from the parsed operations on: `src` is the stored string, empty when there is none.
      The string grows when something may be written past its end. */
  method Execute(src: seq<Byte>, ops: seq<Op>) returns (dst: seq<Byte>, replies: seq<Option<int>>)
    requires OpsOk(ops)
    ensures (Ones(dst), replies) == ExecAll(Ones(src), ops)
    ensures ReadOnly(ops) ==> dst == src
    ensures !ReadOnly(ops) ==> |dst| == Longer(|src|, LastBit(ops) / 8 + 1)
  {
    hide Ones, Exec, ExecAll, LastBit;
    var readonly, highest := Scan(ops);
    var size := if readonly || highest / 8 + 1 <= |src| then |src| else highest / 8 + 1;
    var p := Grown(src, size);
    OnesGrow(src, p[..]);
    replies := [];
    ExecNone(Ones(src));
    assert ops[..0] == [];
    for j := 0 to |ops|
      invariant (Ones(p[..]), replies) == ExecAll(Ones(src), ops[..j])
      invariant readonly ==> p[..] == src
    {
      ExecNext(Ones(src), ops, j);
      var reply := ExecuteOne(p, ops[j]);
      replies := replies + [reply];
    }
    assert ops[..|ops|] == ops;
    dst := p[..];
  }

  /** `sdsgrowzero`: the string with zero bytes appended up to the size. */
  method Grown(src: seq<Byte>, size: nat) returns (p: array<Byte>)
    requires |src| <= size
    ensures fresh(p) && p.Length == size && p[..|src|] == src && forall i :: |src| <= i < size ==> p[i] == Zeros(8)
  {
    var blank: Byte := Zeros(8);
    p := new Byte[size](_ => blank);
    for i := 0 to |src|
      invariant forall j :: 0 <= j < size ==> p[j] == if j < i then src[j] else blank
    {
      p[i] := src[i];
    }
  }

  ghost predicate ReadOnly(ops: seq<Op>) {
    forall i :: 0 <= i < |ops| ==> ops[i].action == Fetch
  }

  function Longer(a: nat, b: nat): nat {
    if a < b then b else a
  }

  /** The last bit that any of the operations may write, 0 if none writes. */
  function LastBit(ops: seq<Op>): nat
    requires OpsOk(ops)
  {
    if ops == [] then 0 else
    var op := ops[|ops| - 1];
    var last := LastBit(ops[..|ops| - 1]);
    if op.action == Fetch then last else Longer(last, op.offset + op.bits - 1)
  }

  lemma LastBitNext(ops: seq<Op>, j: nat)
    requires OpsOk(ops) && j < |ops|
    ensures LastBit(ops[..j + 1]) ==
      if ops[j].action == Fetch then LastBit(ops[..j]) else Longer(LastBit(ops[..j]), ops[j].offset + ops[j].bits - 1)
  {
    assert ops[..j + 1][..j] == ops[..j];
  }

  /** The pass that finds how far the command may write. */
  method Scan(ops: seq<Op>) returns (readonly: bool, highest: nat)
    requires OpsOk(ops)
    ensures readonly <==> ReadOnly(ops)
    ensures highest == LastBit(ops)
    ensures forall i :: 0 <= i < |ops| && ops[i].action != Fetch ==> ops[i].offset + ops[i].bits - 1 <= highest
  {
    readonly, highest := true, 0;
    for j := 0 to |ops|
      invariant highest == LastBit(ops[..j])
      invariant readonly <==> forall i :: 0 <= i < j ==> ops[i].action == Fetch
      invariant forall i :: 0 <= i < j && ops[i].action != Fetch ==> ops[i].offset + ops[i].bits - 1 <= highest
    {
      LastBitNext(ops, j);
      if ops[j].action != Fetch {
        readonly := false;
        if highest < ops[j].offset + ops[j].bits - 1 {
          highest := ops[j].offset + ops[j].bits - 1;
        }
      }
    }
    assert ops[..|ops|] == ops;
  }

  lemma ExecNone(ones: set<nat>)
    ensures ExecAll(ones, []) == (ones, [])
  {
  }

  lemma ExecNext(ones: set<nat>, ops: seq<Op>, j: nat)
    requires OpsOk(ops) && j < |ops|
    ensures var (s, replies) := ExecAll(ones, ops[..j]);
      ExecAll(ones, ops[..j + 1]) == (Exec(s, ops[j]).0, replies + [Exec(s, ops[j]).1])
  {
    hide Exec;
    assert ops[..j + 1][..j] == ops[..j];
  }

  /** Zero bytes at the end change nothing. */
  lemma OnesGrow(s: seq<Byte>, t: seq<Byte>)
    requires |s| <= |t| && t[..|s|] == s && forall i :: |s| <= i < |t| ==> t[i] == Zeros(8)
    ensures Ones(t) == Ones(s)
  {
    forall n: nat ensures BitOf(t, n) == BitOf(s, n) {
      if n / 8 < |s| {
        assert t[..|s|][n / 8] == t[n / 8];
      }
    }
  }

  /** One operation on the buffer. */
  method ExecuteOne(p: array<Byte>, op: Op) returns (reply: Option<int>)
    requires OpOk(op) && (op.action != Fetch ==> op.offset + op.bits <= 8 * p.Length)
    modifies p
    ensures (Ones(p[..]), reply) == Exec(old(Ones(p[..])), op)
    ensures op.action == Fetch ==> p[..] == old(p[..])
  {
    hide Ones, Get, Put, CheckSigned, CheckUnsigned, Sum;
    ghost var ones := Ones(p[..]);
    if op.action == Fetch {
      var now := FetchWindow(p, op);
      return Some(now);
    }
    var now := ReadField(p, op);
    ShownInRange(ones, op);
    var newval, check := op.arg, Check(0, 0);
    if op.action == Add {
      newval := now + op.arg;
      check := AddCheck(op, now);
      AddCheckRight(op, now);
    } else {
      check := SetCheck(op);
    }
    if check.code != 0 {
      newval := check.limit;
    }
    if check.code != 0 && op.ow == Fail {
      return None;
    }
    SetUnsignedBitfield(p, op.offset, op.bits, U64(newval));
    return Some(if op.action == Add then newval else now);
  }

  function AddCheck(op: Op, now: int): Check
    requires OpOk(op) && now >= Lowest(op)
  {
    if op.signed then CheckSigned(now, op.arg, op.bits, op.ow) else CheckUnsigned(now, op.arg, op.bits, op.ow)
  }

  /** The overflow checks give what INCRBY must store. */
  lemma AddCheckRight(op: Op, now: int)
    requires OpOk(op) && Lowest(op) <= now <= Greatest(op)
    ensures var r := AddCheck(op, now);
      Sum(op, now) == if r.code != 0 && op.ow == Fail then None else Some(if r.code != 0 then r.limit else now + op.arg)
  {
    hide P, CheckSigned, CheckUnsigned, ToSigned;
    if op.signed {
      SignedOverflow(now, op.arg, op.bits, op.ow);
    } else {
      UnsignedOverflow(now, op.arg, op.bits, op.ow);
    }
  }

  method ReadField(p: array<Byte>, op: Op) returns (value: int)
    requires OpOk(op) && op.offset + op.bits <= 8 * p.Length
    ensures value == Shown(Ones(p[..]), op)
  {
    if op.signed {
      value := GetSignedBitfield(p, op.offset, op.bits);
    } else {
      value := GetUnsignedBitfield(p, op.offset, op.bits);
    }
  }

  /** GET copies nine bytes, zero past the end of the string, and reads the field from the copy. */
  method FetchWindow(p: array<Byte>, op: Op) returns (value: int)
    requires OpOk(op)
    ensures value == Shown(Ones(p[..]), op)
  {
    hide Ones, Get;
    var byte := op.offset / 8;
    var buf := new Byte[9](_ => Zeros(8));
    var i := 0;
    while i < 9 && i + byte < p.Length
      invariant 0 <= i <= 9 && (i > 0 ==> i + byte <= p.Length)
      invariant forall k :: 0 <= k < 9 ==> buf[k] == if k < i then p[k + byte] else Zeros(8)
      invariant p[..] == old(p[..])
    {
      buf[i] := p[i + byte];
      i := i + 1;
    }
    WindowIsEnough(p[..], buf[..], byte, op.offset - 8 * byte, op.bits);
    value := ReadField(buf, op.(offset := op.offset - 8 * byte));
  }

  /** Nine bytes hold any field of up to 64 bits that starts in the first of them. */
  lemma {:induction false} WindowIsEnough(s: seq<Byte>, w: seq<Byte>, byte: nat, offset: nat, bits: nat)
    requires |w| == 9 && offset < 8 && bits <= 64
    requires forall k :: 0 <= k < 9 ==> w[k] == if k + byte < |s| then s[k + byte] else Zeros(8)
    ensures Get(Ones(w), offset, bits) == Get(Ones(s), 8 * byte + offset, bits)
    decreases bits
  {
    hide Ones, BitOf;
    if bits > 0 {
      WindowIsEnough(s, w, byte, offset, bits - 1);
      var n := offset + bits - 1;
      InOnes(w, n);
      InOnes(s, 8 * byte + n);
      WindowBit(s, w, byte, n);
    }
  }

  lemma WindowBit(s: seq<Byte>, w: seq<Byte>, byte: nat, n: nat)
    requires |w| == 9 && n < 72
    requires forall k :: 0 <= k < 9 ==> w[k] == if k + byte < |s| then s[k + byte] else Zeros(8)
    ensures BitOf(w, n) == BitOf(s, 8 * byte + n)
  {
    assert (8 * byte + n) / 8 == byte + n / 8 && (8 * byte + n) % 8 == n % 8;
  }
}
