/** BITOP: a bitwise operation over any number of strings, word by word while all of them have data. */
module BitOp {
  import opened Words
  import opened Names

  datatype Operation = AndOp | OrOp | XorOp | NotOp

  function Complement(b: Bits): (r: Bits)
    ensures |r| == |b| && forall i {:trigger r[i]} :: 0 <= i < |b| ==> r[i] == !b[i]
  {
    seq(|b|, i requires 0 <= i < |b| => !b[i])
  }

  /** The operation on two bytes or two words; NOT has no second operand. */
  function Combine(op: Operation, a: Bits, b: Bits): (r: Bits)
    requires |a| == |b|
    ensures |r| == |a|
  {
    match op
    case AndOp => And(a, b)
    case OrOp => Or(a, b)
    case XorOp => Xor(a, b)
    case NotOp => a
  }

  /** What the first operand contributes. */
  function Start(op: Operation, a: Bits): (r: Bits)
    ensures |r| == |a|
  {
    if op == NotOp then Complement(a) else a
  }

  /** Byte `j` of a source, zero past its end. */
  function Pad(s: seq<Byte>, j: nat): Byte {
    if j < |s| then s[j] else Zeros(8)
  }

  /** The operation over byte `j` of the first `n` sources. */
  function Fold(op: Operation, srcs: seq<seq<Byte>>, j: nat, n: nat): (r: Byte)
    requires 1 <= n <= |srcs|
    decreases n
  {
    if n == 1 then Start(op, Pad(srcs[0], j)) else Combine(op, Fold(op, srcs, j, n - 1), Pad(srcs[n - 1], j))
  }

  function MaxLen(srcs: seq<seq<Byte>>): (m: nat)
    ensures forall i :: 0 <= i < |srcs| ==> |srcs[i]| <= m
    ensures m > 0 ==> exists i :: 0 <= i < |srcs| && |srcs[i]| == m
  {
    if srcs == [] then 0 else
    var m := MaxLen(srcs[..|srcs| - 1]);
    var l := |srcs[|srcs| - 1]|;
    assert forall i :: 0 <= i < |srcs| - 1 ==> srcs[i] == srcs[..|srcs| - 1][i];
    if l > m then l else m
  }

  /** The first `j` bytes of `res` are done. */
  ghost predicate Done(res: seq<Byte>, op: Operation, srcs: seq<seq<Byte>>, j: nat)
    requires srcs != []
  {
    j <= |res| && forall k :: 0 <= k < j ==> res[k] == Fold(op, srcs, k, |srcs|)
  }

  // ------------------------------------------------------------------
  // Bytes that no longer change

  lemma Settled(op: Operation, a: Byte, b: Byte)
    ensures op == AndOp && a == Zeros(8) ==> Combine(op, a, b) == a
    ensures op == OrOp && a == FULL ==> Combine(op, a, b) == a
  {
  }

  /** Once an AND is all zero or an OR all one, the remaining sources do not matter. */
  lemma {:induction false} StaysSettled(op: Operation, srcs: seq<seq<Byte>>, j: nat, i: nat, n: nat)
    requires 1 <= i <= n <= |srcs|
    requires (op == AndOp && Fold(op, srcs, j, i) == Zeros(8)) || (op == OrOp && Fold(op, srcs, j, i) == FULL)
    ensures Fold(op, srcs, j, n) == Fold(op, srcs, j, i)
    decreases n
  {
    hide Combine;
    if n > i {
      StaysSettled(op, srcs, j, i, n - 1);
      Settled(op, Fold(op, srcs, j, n - 1), Pad(srcs[n - 1], j));
    }
  }

  // ------------------------------------------------------------------
  // Words

  /** Eight bytes as one word. */
  function Word(s: seq<Byte>, at: nat): (w: Bits)
    requires at + 8 <= |s|
    ensures |w| == 64
  {
    Eight(s[at], s[at + 1], s[at + 2], s[at + 3], s[at + 4], s[at + 5], s[at + 6], s[at + 7])
  }

  lemma WordByte(s: seq<Byte>, at: nat, k: nat)
    requires at + 8 <= |s| && k < 8
    ensures Word(s, at)[8 * k..8 * k + 8] == s[at + k]
  {
  }

  /** Combining words combines their bytes. */
  lemma CombineSlice(op: Operation, a: Bits, b: Bits, i: nat, j: nat)
    requires |a| == |b| && i <= j <= |a|
    ensures Combine(op, a, b)[i..j] == Combine(op, a[i..j], b[i..j])
    ensures Complement(a)[i..j] == Complement(a[i..j])
  {
  }

  /** Store a word over eight bytes. */
  method StoreWord(res: array<Byte>, at: nat, w: Bits)
    requires at + 8 <= res.Length && |w| == 64
    modifies res
    ensures forall k :: 0 <= k < 8 ==> res[at + k] == w[8 * k..8 * k + 8]
    ensures forall k :: 0 <= k < res.Length && !(at <= k < at + 8) ==> res[k] == old(res[k])
  {
    for k := 0 to 8
      invariant forall m {:trigger w[8 * m..8 * m + 8]} :: 0 <= m < k ==> res[at + m] == w[8 * m..8 * m + 8]
      invariant forall m :: 0 <= m < res.Length && !(at <= m < at + k) ==> res[m] == old(res[m])
    {
      res[at + k] := w[8 * k..8 * k + 8];
    }
  }

  /** `lres[k] op= lp[i][k]` for one word. */
  method CombineWord(res: array<Byte>, op: Operation, src: seq<Byte>, at: nat)
    requires at + 8 <= res.Length && at + 8 <= |src|
    modifies res
    ensures forall k :: at <= k < at + 8 ==> res[k] == Combine(op, old(res[k]), src[k])
    ensures forall k :: 0 <= k < res.Length && !(at <= k < at + 8) ==> res[k] == old(res[k])
  {
    hide Combine, Word;
    ghost var before := res[..];
    var w := Combine(op, Word(res[..], at), Word(src, at));
    StoreWord(res, at, w);
    forall k | at <= k < at + 8 ensures res[k] == Combine(op, before[k], src[k]) {
      var m := k - at;
      CombineSlice(op, Word(before, at), Word(src, at), 8 * m, 8 * m + 8);
      WordByte(before, at, m);
      WordByte(src, at, m);
      assert res[at + m] == w[8 * m..8 * m + 8];
    }
  }

  /** `lres[k] = ~lres[k]` for one word. */
  method ComplementWord(res: array<Byte>, at: nat)
    requires at + 8 <= res.Length
    modifies res
    ensures forall k :: at <= k < at + 8 ==> res[k] == Complement(old(res[k]))
    ensures forall k :: 0 <= k < res.Length && !(at <= k < at + 8) ==> res[k] == old(res[k])
  {
    hide Complement, Word;
    ghost var before := res[..];
    var w := Complement(Word(res[..], at));
    StoreWord(res, at, w);
    forall k | at <= k < at + 8 ensures res[k] == Complement(before[k]) {
      var m := k - at;
      CombineSlice(NotOp, Word(before, at), Word(before, at), 8 * m, 8 * m + 8);
      WordByte(before, at, m);
      assert res[at + m] == w[8 * m..8 * m + 8];
    }
  }

  /** Four words of one more source. */
  method CombineBlock(res: array<Byte>, op: Operation, srcs: seq<seq<Byte>>, i: nat, j: nat)
    requires 1 <= i < |srcs| && j + 32 <= res.Length && j + 32 <= |srcs[i]|
    requires forall k :: j <= k < j + 32 ==> res[k] == Fold(op, srcs, k, i)
    modifies res
    ensures forall k :: j <= k < j + 32 ==> res[k] == Fold(op, srcs, k, i + 1)
    ensures forall k :: 0 <= k < res.Length && !(j <= k < j + 32) ==> res[k] == old(res[k])
  {
    hide Combine;
    CombineWord(res, op, srcs[i], j);
    CombineWord(res, op, srcs[i], j + 8);
    CombineWord(res, op, srcs[i], j + 16);
    CombineWord(res, op, srcs[i], j + 24);
  }

  /** The fast path: blocks of four words as long as every source has data. */
  method FastPath(res: array<Byte>, op: Operation, srcs: seq<seq<Byte>>, minlen: nat) returns (j: nat)
    requires srcs != [] && (op == NotOp ==> |srcs| == 1)
    requires minlen <= res.Length && forall i :: 0 <= i < |srcs| ==> minlen <= |srcs[i]|
    requires forall k :: 0 <= k < minlen ==> res[k] == srcs[0][k]
    modifies res
    ensures j <= minlen && Done(res[..], op, srcs, j)
  {
    hide Combine, Complement;
    j := 0;
    while minlen - j >= 32
      invariant 0 <= j <= minlen
      invariant forall k :: 0 <= k < j ==> res[k] == Fold(op, srcs, k, |srcs|)
      invariant forall k :: j <= k < minlen ==> res[k] == srcs[0][k]
    {
      if op == NotOp {
        ComplementWord(res, j);
        ComplementWord(res, j + 8);
        ComplementWord(res, j + 16);
        ComplementWord(res, j + 24);
      } else {
        for i := 1 to |srcs|
          invariant forall k :: 0 <= k < j ==> res[k] == Fold(op, srcs, k, |srcs|)
          invariant forall k :: j <= k < j + 32 ==> res[k] == Fold(op, srcs, k, i)
          invariant forall k :: j + 32 <= k < minlen ==> res[k] == srcs[0][k]
        {
          CombineBlock(res, op, srcs, i, j);
        }
      }
      j := j + 32;
    }
  }

  /** One byte of the result, stopping early when the rest cannot change it. */
  method OneByte(op: Operation, srcs: seq<seq<Byte>>, j: nat) returns (output: Byte)
    requires srcs != [] && (op == NotOp ==> |srcs| == 1)
    ensures output == Fold(op, srcs, j, |srcs|)
  {
    hide Combine, Complement;
    output := Pad(srcs[0], j);
    if op == NotOp {
      output := Complement(output);
    }
    var i := 1;
    var skip := false;
    while i < |srcs| && !skip
      invariant 1 <= i <= |srcs| && output == Fold(op, srcs, j, i)
      invariant skip ==> (op == AndOp && output == Zeros(8)) || (op == OrOp && output == FULL)
      decreases |srcs| - i, !skip
    {
      output := Combine(op, output, Pad(srcs[i], j));
      skip := (op == AndOp && output == Zeros(8)) || (op == OrOp && output == FULL);
      i := i + 1;
    }
    if skip {
      StaysSettled(op, srcs, j, i, |srcs|);
    }
  }

  // ------------------------------------------------------------------
  // What each operation means for one bit

  /** How many of the first `n` sources have bit `b` of byte `j` set. */
  function SetCount(srcs: seq<seq<Byte>>, j: nat, b: nat, n: nat): (c: nat)
    requires n <= |srcs| && b < 8
    ensures c <= n
  {
    if n == 0 then 0 else SetCount(srcs, j, b, n - 1) + (if Pad(srcs[n - 1], j)[b] then 1 else 0)
  }

  lemma CombineBit(op: Operation, x: Byte, y: Byte, b: nat)
    requires b < 8
    ensures Start(op, x)[b] == (if op == NotOp then !x[b] else x[b])
    ensures op == AndOp ==> Combine(op, x, y)[b] == (x[b] && y[b])
    ensures op == OrOp ==> Combine(op, x, y)[b] == (x[b] || y[b])
    ensures op == XorOp ==> Combine(op, x, y)[b] == (x[b] != y[b])
  {
  }

  /** AND needs every source, OR at least one, XOR an odd number, NOT the absence of its only one. */
  lemma {:induction false} FoldCounts(op: Operation, srcs: seq<seq<Byte>>, j: nat, b: nat, n: nat)
    requires 1 <= n <= |srcs| && b < 8 && (op == NotOp ==> n == 1)
    ensures op == AndOp ==> (Fold(op, srcs, j, n)[b] <==> SetCount(srcs, j, b, n) == n)
    ensures op == OrOp ==> (Fold(op, srcs, j, n)[b] <==> SetCount(srcs, j, b, n) > 0)
    ensures op == XorOp ==> (Fold(op, srcs, j, n)[b] <==> SetCount(srcs, j, b, n) % 2 == 1)
    ensures op == NotOp ==> (Fold(op, srcs, j, n)[b] <==> SetCount(srcs, j, b, n) == 0)
  {
    hide Start, Combine, Pad;
    if n == 1 {
      assert SetCount(srcs, j, b, 0) == 0;
      CombineBit(op, Pad(srcs[0], j), Pad(srcs[0], j), b);
    } else {
      FoldCounts(op, srcs, j, b, n - 1);
      CombineBit(op, Fold(op, srcs, j, n - 1), Pad(srcs[n - 1], j), b);
    }
  }

  // ------------------------------------------------------------------
  // The command

  /** What a source key holds. */
  datatype Key = Missing | Text(value: seq<Byte>) | OtherType

  /** What the command answers and does to the target key. */
  datatype Outcome = SyntaxError | OneKeyOnly | WrongType | Stored(value: seq<Byte>) | Deleted

  datatype Parsed = Unknown | Known(op: Operation)

  function ParseName(name: string): Parsed {
    if SameName(name, "and") then Known(AndOp) else
    if SameName(name, "or") then Known(OrOp) else
    if SameName(name, "xor") then Known(XorOp) else
    if SameName(name, "not") then Known(NotOp) else Unknown
  }

  function Source(k: Key): seq<Byte> {
    if k.Text? then k.value else []
  }

  /** A missing key is an empty string. */
  function Sources(keys: seq<Key>): (r: seq<seq<Byte>>)
    ensures |r| == |keys| && forall i {:trigger r[i]} :: 0 <= i < |keys| ==> r[i] == Source(keys[i])
  {
    seq(|keys|, i requires 0 <= i < |keys| => Source(keys[i]))
  }

  /** Byte by byte over the zero-padded sources. */
  function Bytewise(op: Operation, srcs: seq<seq<Byte>>): seq<Byte>
    requires srcs != []
  {
    seq(MaxLen(srcs), j requires 0 <= j => Fold(op, srcs, j, |srcs|))
  }

  function Answer(name: string, keys: seq<Key>): Outcome
    requires keys != []
  {
    match ParseName(name)
    case Unknown => SyntaxError
    case Known(op) =>
      if op == NotOp && |keys| != 1 then OneKeyOnly else
      if OtherType in keys then WrongType else
      if MaxLen(Sources(keys)) == 0 then Deleted else Stored(Bytewise(op, Sources(keys)))
  }

  /** Bit `n` of the string of a key, counted from the first bit of the first byte; a missing key has none. */
  predicate KeyBit(k: Key, n: nat) {
    k.Text? && n / 8 < |k.value| && k.value[n / 8][7 - n % 8]
  }

  /** How many of the first `m` keys have the bit. */
  function Having(keys: seq<Key>, n: nat, m: nat): nat
    requires m <= |keys|
  {
    if m == 0 then 0 else Having(keys, n, m - 1) + if KeyBit(keys[m - 1], n) then 1 else 0
  }

  lemma {:induction false} HavingIsSetCount(keys: seq<Key>, n: nat, m: nat)
    requires m <= |keys|
    ensures Having(keys, n, m) == SetCount(Sources(keys), n / 8, 7 - n % 8, m)
    decreases m
  {
    if m > 0 {
      HavingIsSetCount(keys, n, m - 1);
    }
  }

  /** The length of the string of a key. */
  function KeyLength(k: Key): nat {
    if k.Text? then |k.value| else 0
  }

  /** The string stored by BITOP is as long as the longest source, and each bit of it depends on how many sources have
      that bit: for AND all, for OR at least one, for XOR an odd number, for NOT none. */
  lemma AnswerBits(name: string, keys: seq<Key>, n: nat)
    requires keys != [] && Answer(name, keys).Stored?
    ensures
      var dst, m := Answer(name, keys).value, Having(keys, n, |keys|);
      && (forall i :: 0 <= i < |keys| ==> KeyLength(keys[i]) <= |dst|)
      && (exists i :: 0 <= i < |keys| && KeyLength(keys[i]) == |dst|)
      && (n / 8 < |dst| ==>
            (dst[n / 8][7 - n % 8] <==>
               if Lower(name) == "and" then m == |keys|
               else if Lower(name) == "or" then m > 0
               else if Lower(name) == "xor" then m % 2 == 1
               else m == 0))
  {
    hide Answer, MaxLen, ParseName, Lower, KeyLength, Bytewise, Fold, SetCount, Having;
    Spelling(name);
    LongestSource(keys);
    StoredAnswer(name, keys);
    var op, dst := ParseName(name).op, Answer(name, keys).value;
    if n / 8 < |dst| {
      HavingIsSetCount(keys, n, |keys|);
      BitOfBytewise(op, Sources(keys), n / 8, 7 - n % 8);
    }
  }

  lemma StoredAnswer(name: string, keys: seq<Key>)
    requires keys != [] && Answer(name, keys).Stored?
    ensures ParseName(name).Known? && (ParseName(name).op == NotOp ==> |keys| == 1)
    ensures Answer(name, keys).value == Bytewise(ParseName(name).op, Sources(keys))
  {
    hide ParseName, Bytewise, MaxLen;
  }

  lemma LongestSource(keys: seq<Key>)
    requires keys != []
    ensures forall i :: 0 <= i < |keys| ==> KeyLength(keys[i]) <= MaxLen(Sources(keys))
    ensures exists i :: 0 <= i < |keys| && KeyLength(keys[i]) == MaxLen(Sources(keys))
    ensures forall op :: |Bytewise(op, Sources(keys))| == MaxLen(Sources(keys))
  {
    var srcs := Sources(keys);
    assert forall i :: 0 <= i < |keys| ==> KeyLength(keys[i]) == |srcs[i]|;
    if MaxLen(srcs) > 0 {
      var i :| 0 <= i < |srcs| && |srcs[i]| == MaxLen(srcs);
      assert KeyLength(keys[i]) == MaxLen(srcs);
    } else {
      assert KeyLength(keys[0]) == 0;
    }
    hide MaxLen, Fold;
  }

  lemma BitOfBytewise(op: Operation, srcs: seq<seq<Byte>>, j: nat, b: nat)
    requires srcs != [] && j < |Bytewise(op, srcs)| && b < 8 && (op == NotOp ==> |srcs| == 1)
    ensures
      var m := SetCount(srcs, j, b, |srcs|);
      Bytewise(op, srcs)[j][b] <==>
        match op case AndOp => m == |srcs| case OrOp => m > 0 case XorOp => m % 2 == 1 case NotOp => m == 0
  {
    hide MaxLen;
    FoldCounts(op, srcs, j, b, |srcs|);
    hide Fold, SetCount;
  }

  lemma Spelling(name: string)
    ensures
      ParseName(name) ==
        if Lower(name) == "and" then Known(AndOp)
        else if Lower(name) == "or" then Known(OrOp)
        else if Lower(name) == "xor" then Known(XorOp)
        else if Lower(name) == "not" then Known(NotOp)
        else Unknown
  {
    assert Lower("and") == "and" && Lower("or") == "or" && Lower("xor") == "xor" && Lower("not") == "not";
  }

  /** When it stores nothing: an unknown operation, NOT of several keys, a key of another type, or only empty sources,
      in this order. */
  lemma AnswerRefused(name: string, keys: seq<Key>)
    requires keys != []
    ensures
      var r, w := Answer(name, keys), Lower(name);
      if w !in {"and", "or", "xor", "not"} then r == SyntaxError
      else if w == "not" && |keys| > 1 then r == OneKeyOnly
      else if exists i :: 0 <= i < |keys| && keys[i].OtherType? then r == WrongType
      else if forall i :: 0 <= i < |keys| ==> KeyLength(keys[i]) == 0 then r == Deleted
      else r.Stored?
  {
    Spelling(name);
    var srcs := Sources(keys);
    assert forall i | 0 <= i < |keys| :: KeyLength(keys[i]) == |srcs[i]|;
    if MaxLen(srcs) > 0 {
      var i :| 0 <= i < |srcs| && |srcs[i]| == MaxLen(srcs);
      assert keys[i].OtherType? || KeyLength(keys[i]) > 0;
    }
    assert (exists i :: 0 <= i < |keys| && keys[i].OtherType?) <==> OtherType in keys;
    hide ParseName, Lower, Bytewise;
  }

  lemma MaxLenStep(srcs: seq<seq<Byte>>, j: nat)
    requires j < |srcs|
    ensures MaxLen(srcs[..j + 1]) == if |srcs[j]| > MaxLen(srcs[..j]) then |srcs[j]| else MaxLen(srcs[..j])
  {
    assert srcs[..j + 1][..j] == srcs[..j];
  }

  /** The shortest and the longest source, as the loop over the keys finds them. */
  method Lengths(keys: seq<Key>) returns (ok: bool, minlen: nat, maxlen: nat)
    requires keys != []
    ensures ok <==> OtherType !in keys
    ensures ok ==> maxlen == MaxLen(Sources(keys))
    ensures ok ==> forall i :: 0 <= i < |keys| ==> minlen <= |Source(keys[i])|
    ensures ok ==> minlen <= maxlen
  {
    hide MaxLen, Source;
    ghost var srcs := Sources(keys);
    assert srcs[..0] == [];
    ok, minlen, maxlen := true, 0, 0;
    MaxLenOfNone();
    for j := 0 to |keys|
      invariant ok && OtherType !in keys[..j]
      invariant maxlen == MaxLen(srcs[..j])
      invariant forall i :: 0 <= i < j ==> minlen <= |Source(keys[i])|
      invariant minlen <= maxlen
    {
      MaxLenStep(srcs, j);
      SourceLength(keys[j]);
      if keys[j].Missing? {
        minlen := 0;
      } else if keys[j].OtherType? {
        ok := false;
        return;
      } else {
        var len := |keys[j].value|;
        if len > maxlen {
          maxlen := len;
        }
        if j == 0 || len < minlen {
          minlen := len;
        }
      }
    }
    assert srcs[..|keys|] == srcs && keys[..|keys|] == keys;
  }

  lemma MaxLenOfNone()
    ensures MaxLen([]) == 0
  {
  }

  lemma SourceLength(k: Key)
    ensures |Source(k)| == if k.Text? then |k.value| else 0
  {
  }

  /** The result buffer: zeroed, then the fast path where the machine and the sources allow it, then byte by byte. */
  method Compute(op: Operation, srcs: seq<seq<Byte>>, minlen: nat, maxlen: nat, wordAccess: bool)
    returns (dst: seq<Byte>)
    requires srcs != [] && (op == NotOp ==> |srcs| == 1)
    requires minlen <= maxlen && maxlen == MaxLen(srcs) && forall i :: 0 <= i < |srcs| ==> minlen <= |srcs[i]|
    ensures dst == Bytewise(op, srcs)
  {
    hide Fold, MaxLen;
    var blank: Byte := Zeros(8);
    var res := new Byte[maxlen](_ => blank);
    var j := 0;
    if wordAccess && minlen >= 32 && |srcs| <= 16 {
      for k := 0 to minlen
        invariant forall m :: 0 <= m < k ==> res[m] == srcs[0][m]
      {
        res[k] := srcs[0][k];
      }
      j := FastPath(res, op, srcs, minlen);
    }
    while j < maxlen
      invariant 0 <= j <= maxlen && Done(res[..], op, srcs, j)
    {
      var output := OneByte(op, srcs, j);
      ghost var before := res[..];
      res[j] := output;
      assert forall k :: 0 <= k < j ==> res[..][k] == before[k];
      j := j + 1;
    }
    dst := res[..];
    assert |dst| == |Bytewise(op, srcs)|;
    assert forall k :: 0 <= k < maxlen ==> dst[k] == Bytewise(op, srcs)[k];
  }

  /** `bitopCommand`. `wordAccess` says whether the machine is compiled with the fast path. */
  method Bitop(name: string, keys: seq<Key>, wordAccess: bool) returns (r: Outcome)
    requires keys != []
    ensures r == Answer(name, keys)
  {
    hide MaxLen, Bytewise, SameName;
    var op;
    if SameName(name, "and") {
      op := AndOp;
    } else if SameName(name, "or") {
      op := OrOp;
    } else if SameName(name, "xor") {
      op := XorOp;
    } else if SameName(name, "not") {
      op := NotOp;
    } else {
      return SyntaxError;
    }
    if op == NotOp && |keys| != 1 {
      return OneKeyOnly;
    }
    var ok, minlen, maxlen := Lengths(keys);
    if !ok {
      return WrongType;
    }
    if maxlen == 0 {
      return Deleted;
    }
    var dst := Compute(op, Sources(keys), minlen, maxlen, wordAccess);
    return Stored(dst);
  }
}
