/** The text of the append only file: arrays of bulk strings (RESP2), and the loader that tolerates
    a file cut short. */
module AofLog {
  import opened Options
  import opened Names

  type Argv = seq<string>

  // ------------------------------------------------------------------
  // Printing

  function Digit(d: nat): char
    requires d < 10
  {
    '0' + d as char
  }

  function Dec(n: nat): (s: string)
    ensures s != ""
  {
    if n < 10 then [Digit(n)] else Dec(n / 10) + [Digit(n % 10)]
  }

  const CRLF: string := "\r\n"

  function Bulk(a: string): string {
    "$" + Dec(|a|) + CRLF + a + CRLF
  }

  function Bulks(args: Argv): string {
    if args == [] then "" else Bulk(args[0]) + Bulks(args[1..])
  }

  /** One command as `catAppendOnlyGenericCommand` writes it. */
  function Encode(argv: Argv): string {
    "*" + Dec(|argv|) + CRLF + Bulks(argv)
  }

  function EncodeAll(cmds: seq<Argv>): string {
    if cmds == [] then "" else Encode(cmds[0]) + EncodeAll(cmds[1..])
  }

  // ------------------------------------------------------------------
  // Reading numbers

  predicate IsDigit(c: char) {
    '0' <= c <= '9'
  }

  predicate IsBlank(c: char) {
    c == ' ' || 9 as char <= c <= 13 as char
  }

  /** The value of the leading digits of `s` after `acc`. */
  function Digits(s: string, acc: nat): nat {
    if s == "" || !IsDigit(s[0]) then acc else Digits(s[1..], 10 * acc + (s[0] as int - '0' as int))
  }

  const LONG_MAX: int := 0x7fff_ffff_ffff_ffff

  function Clamp(x: int): int {
    if x > LONG_MAX then LONG_MAX else if x < -LONG_MAX - 1 then -LONG_MAX - 1 else x
  }

  /** `strtol(s, NULL, 10)`. */
  function Strtol(s: string): int {
    if s != "" && IsBlank(s[0]) then Strtol(s[1..])
    else if s != "" && s[0] == '-' then Clamp(0 - Digits(s[1..], 0))
    else if s != "" && s[0] == '+' then Clamp(Digits(s[1..], 0))
    else Clamp(Digits(s, 0))
  }

  /** `atoi`: the low 32 bits as a signed number. */
  function Atoi(s: string): int {
    var x := Strtol(s) % 0x1_0000_0000;
    if x < 0x8000_0000 then x else x - 0x1_0000_0000
  }

  // ------------------------------------------------------------------
  // Reading commands

  /** How many characters `fgets` takes when it may take `limit`. */
  function LineEnd(s: string, limit: nat): (k: nat)
    ensures k <= |s| && k <= limit
    ensures s != "" && limit > 0 ==> k > 0
    decreases limit
  {
    if s == "" || limit == 0 then 0
    else if s[0] == '\n' then 1
    else 1 + LineEnd(s[1..], limit - 1)
  }

  const LINE := 127

  datatype Parsed = Whole(argv: Argv, rest: string) | Short | Bad | Abort | Broken

  /** `n` arguments. A negative length is a request for more memory than there is. */
  function ParseArgs(s: string, n: nat): (r: Parsed)
    ensures r.Whole? ==> |r.argv| == n && |r.rest| <= |s|
    decreases n
  {
    if n == 0 then Whole([], s)
    else if s == "" then Short
    else
      var k := LineEnd(s, LINE);
      if s[0] != '$' then Bad else
      var len := Strtol(s[1..k]);
      var t := s[k..];
      if len < 0 then Abort
      else if |t| < len + 2 then Short
      else
        match ParseArgs(t[len + 2..], n - 1)
        case Whole(args, rest) => Whole([t[..len]] + args, rest)
        case other => other
  }

  /** A line that ends because the file does. */
  predicate ReachesEof(line: string) {
    line != "" && line[|line| - 1] != '\n' && |line| < LINE
  }

  /** A count that is missing because the file ends is a short read; a zero byte in its place is a read error. */
  function ParseCommand(s: string): (r: Parsed)
    requires s != ""
    ensures r.Whole? ==> r.argv != [] && |r.rest| < |s|
  {
    var k := LineEnd(s, LINE);
    if s[0] != '*' then Bad
    else if k == 1 || s[1] == '\0' then
      if ReachesEof(s[..k]) then Short else Broken
    else
      var argc := Atoi(s[1..k]);
      if argc < 1 then Bad else ParseArgs(s[k..], argc)
  }

  // ------------------------------------------------------------------
  // Loading

  predicate IsMulti(argv: Argv) {
    argv != [] && SameName(argv[0], "multi")
  }

  predicate IsExec(argv: Argv) {
    argv != [] && SameName(argv[0], "exec")
  }

  /** The fake client: what it has executed, and the open transaction if there is one. */
  datatype Client = Client(executed: seq<Argv>, queue: Option<seq<Argv>>)

  /** One command in the context of the fake client. */
  function Run(c: Client, argv: Argv): Client {
    if c.queue.Some? && !IsExec(argv) then c.(queue := Some(c.queue.value + [argv]))
    else if IsExec(argv) then
      if c.queue.Some? then Client(c.executed + c.queue.value, None) else c
    else if IsMulti(argv) then c.(queue := Some([]))
    else c.(executed := c.executed + [argv])
  }

  function RunAll(c: Client, cmds: seq<Argv>): Client {
    if cmds == [] then c else Run(RunAll(c, cmds[..|cmds| - 1]), cmds[|cmds| - 1])
  }

  datatype Loaded =
    | Empty
    | Preamble
    | Complete(executed: seq<Argv>)
    | Truncated(executed: seq<Argv>, offset: nat)
    | UnexpectedEof
    | BadFormat
    | Unknown
    | OutOfMemory
    | ReadError

  /** Positions kept by the loader. */
  datatype Marks = Marks(validUpTo: nat, beforeMulti: nat)

  datatype Config = Config(loadTruncated: bool, known: set<string>)

  predicate Known(config: Config, argv: Argv) {
    argv != [] && Lower(argv[0]) in config.known
  }

  /** The end of a file that is not whole. */
  function Cut(config: Config, executed: seq<Argv>, offset: nat): Loaded {
    if config.loadTruncated then Truncated(executed, offset) else UnexpectedEof
  }

  /** The loading loop from offset `pos`. */
  function LoadFrom(config: Config, file: string, pos: nat, c: Client, m: Marks): Loaded
    requires pos <= |file|
    decreases |file| - pos
  {
    if pos == |file| then
      if c.queue.Some? then Cut(config, c.executed, m.beforeMulti) else Complete(c.executed)
    else
      match ParseCommand(file[pos..])
      case Short => Cut(config, c.executed, m.validUpTo)
      case Bad => BadFormat
      case Abort => OutOfMemory
      case Broken => ReadError
      case Whole(argv, rest) =>
        if !Known(config, argv) then Unknown else
        var next := |file| - |rest|;
        LoadFrom(config, file, next, Run(c, argv), NextMarks(config, m, argv, next))
  }

  function NextMarks(config: Config, m: Marks, argv: Argv, next: nat): Marks {
    Marks(if config.loadTruncated then next else m.validUpTo,
          if IsMulti(argv) then m.validUpTo else m.beforeMulti)
  }

  predicate HasPreamble(file: string) {
    |file| >= 5 && file[..5] == "REDIS"
  }

  /** `loadAppendOnlyFile`, up to the point where an RDB preamble would be read. */
  function Load(config: Config, file: string): Loaded {
    if file == "" then Empty
    else if HasPreamble(file) then Preamble
    else LoadFrom(config, file, 0, Client([], None), Marks(0, 0))
  }

  // ------------------------------------------------------------------
  // Numbers that were printed

  function Pow10(n: nat): (r: nat)
    ensures r > 0
  {
    if n == 0 then 1 else 10 * Pow10(n - 1)
  }

  lemma {:induction false} DecShape(n: nat, m: nat)
    requires m > 0 && n < Pow10(m)
    ensures |Dec(n)| <= m
    ensures forall i :: 0 <= i < |Dec(n)| ==> IsDigit(Dec(n)[i])
    ensures n > 0 ==> Dec(n)[0] != '0'
    decreases n
  {
    assert Pow10(1) == 10;
    if n >= 10 {
      DecShape(n / 10, m - 1);
    }
  }

  lemma {:induction false} DigitsOfDec(n: nat, t: string)
    ensures Digits(Dec(n) + t, 0) == Digits(t, n)
    decreases n
  {
    if n < 10 {
      assert ([Digit(n)] + t)[1..] == t;
    } else {
      var d := Digit(n % 10);
      DigitsOfDec(n / 10, [d] + t);
      assert Dec(n) + t == Dec(n / 10) + ([d] + t);
      assert ([d] + t)[1..] == t;
    }
  }

  lemma {:induction false} DigitsGrow(a: string, b: string, acc: nat)
    requires forall i :: 0 <= i < |a| ==> IsDigit(a[i])
    ensures acc <= Digits(a, acc) <= Digits(a + b, acc)
    decreases |a| + |b|
  {
    if a != "" {
      assert (a + b)[1..] == a[1..] + b;
      DigitsGrow(a[1..], b, 10 * acc + (a[0] as int - '0' as int));
    } else {
      assert "" + b == b;
      if b != "" && IsDigit(b[0]) {
        var acc' := 10 * acc + (b[0] as int - '0' as int);
        DigitsGrow("", b[1..], acc');
        assert "" + b[1..] == b[1..];
      }
    }
  }

  /** A string that starts with a digit is read without blanks or a sign. */
  lemma PlainNumber(s: string)
    requires s != "" && IsDigit(s[0])
    ensures Strtol(s) == Clamp(Digits(s, 0))
    ensures Digits(s, 0) < 0x8000_0000 ==> Atoi(s) == Digits(s, 0)
  {
    hide Digits;
  }

  /** A printed number is read back, whatever follows it on the line. */
  lemma ReadNumber(n: nat, t: string)
    requires n <= LONG_MAX && (t == "" || !IsDigit(t[0]))
    ensures Strtol(Dec(n) + t) == n
    ensures n < 0x8000_0000 ==> Atoi(Dec(n) + t) == n
  {
    Pow10Of19();
    DecShape(n, 19);
    DigitsOfDec(n, t);
    hide Strtol, Atoi, Dec, Pow10;
    PlainNumber(Dec(n) + t);
  }

  lemma Pow10Of19()
    ensures Pow10(19) == 10_000_000_000_000_000_000
  {
    assert Pow10(4) == 10_000;
    assert Pow10(8) == 100_000_000;
    assert Pow10(12) == 1_000_000_000_000;
    assert Pow10(16) == 10_000_000_000_000_000;
  }

  /** Digits whose first is not zero make a positive number. */
  lemma PositiveDigits(a: string)
    requires a != "" && a[0] != '0' && forall i :: 0 <= i < |a| ==> IsDigit(a[i])
    ensures Digits(a, 0) >= 1
  {
    DigitsGrow(a[1..], "", a[0] as int - '0' as int);
  }

  /** The first digits of a printed count are a count too. */
  lemma ReadPrefix(n: nat, k: nat)
    requires 0 < n < 0x8000_0000 && 0 < k <= |Dec(n)|
    ensures 1 <= Atoi(Dec(n)[..k]) <= n
  {
    hide Strtol, Atoi, Dec, Pow10, Digits;
    Pow10Of19();
    DecShape(n, 19);
    DecValue(n);
    var d := Dec(n);
    var a, b := d[..k], d[k..];
    assert a + b == d;
    DigitsGrow(a, b, 0);
    PositiveDigits(a);
    PlainNumber(a);
  }

  lemma DecValue(n: nat)
    ensures Digits(Dec(n), 0) == n
  {
    DigitsOfDec(n, "");
    assert Dec(n) + "" == Dec(n);
  }

  lemma {:induction false} LineOfHeader(h: string, t: string, limit: nat)
    requires forall i :: 0 <= i < |h| ==> h[i] != '\n'
    requires |h| < limit
    ensures LineEnd(h + "\n" + t, limit) == |h| + 1
    decreases |h|
  {
    var s := h + "\n" + t;
    if h == "" {
      assert s[0] == '\n';
    } else {
      assert s[1..] == h[1..] + "\n" + t;
      LineOfHeader(h[1..], t, limit - 1);
    }
  }

  lemma {:induction false} LineOfRest(h: string, limit: nat)
    requires forall i :: 0 <= i < |h| ==> h[i] != '\n'
    requires |h| <= limit
    ensures LineEnd(h, limit) == |h|
    decreases |h|
  {
    if h != "" {
      LineOfRest(h[1..], limit - 1);
    }
  }

  // ------------------------------------------------------------------
  // Commands that were printed

  /** The sizes the loader's integers can hold. */
  predicate Fits(argv: Argv) {
    && 0 < |argv| < 0x8000_0000
    && forall i :: 0 <= i < |argv| ==> |argv[i]| <= LONG_MAX
  }

  lemma HeaderShape(c: char, n: nat)
    requires c != '\n' && n <= LONG_MAX
    ensures var h := [c] + Dec(n) + "\r";
      |h| <= 21 && forall i :: 0 <= i < |h| ==> h[i] != '\n'
  {
    Pow10Of19();
    DecShape(n, 19);
    hide Dec, Pow10;
  }

  lemma HeaderParts(c: char, d: string, t: string)
    ensures var s := [c] + d + CRLF + t;
      var k := 1 + |d| + 2;
      s == ([c] + d + "\r") + "\n" + t && k <= |s| && s[k..] == t && s[1..k] == d + CRLF
  {
  }

  /** A header line is read as a whole, and the number on it is the one printed. */
  lemma ReadHeader(c: char, n: nat, t: string)
    requires c != '\n' && n <= LONG_MAX
    ensures var s := [c] + Dec(n) + CRLF + t;
      var k := 1 + |Dec(n)| + 2;
      LineEnd(s, LINE) == k <= |s| && s[k..] == t
      && Strtol(s[1..k]) == n && (n < 0x8000_0000 ==> Atoi(s[1..k]) == n)
  {
    hide Dec, Strtol, Atoi, LineEnd;
    HeaderShape(c, n);
    HeaderParts(c, Dec(n), t);
    LineOfHeader([c] + Dec(n) + "\r", t, LINE);
    ReadNumber(n, CRLF);
  }

  lemma {:induction false} ReadArgs(args: Argv, t: string)
    requires forall i :: 0 <= i < |args| ==> |args[i]| <= LONG_MAX
    ensures ParseArgs(Bulks(args) + t, |args|) == Whole(args, t)
    decreases |args|
  {
    hide ParseArgs, Bulk;
    if args == [] {
      assert Bulks(args) + t == t;
      ParseNone(t);
    } else {
      var a := args[0];
      var u := Bulks(args[1..]) + t;
      ReadArgs(args[1..], t);
      ReadArg(a, u, |args|);
      assert Bulks(args) + t == Bulk(a) + u;
      assert [a] + args[1..] == args;
    }
  }

  lemma ParseNone(t: string)
    ensures ParseArgs(t, 0) == Whole([], t)
  {
  }

  lemma ArgAt(s: string, k: nat, a: string, u: string, n: nat)
    requires n > 0 && 1 <= k <= |s| && s[0] == '$' && LineEnd(s, LINE) == k && Strtol(s[1..k]) == |a|
    requires s[k..] == a + CRLF + u
    ensures ParseArgs(s, n) ==
      match ParseArgs(u, n - 1)
      case Whole(args, rest) => Whole([a] + args, rest)
      case other => other
  {
    hide LineEnd, Strtol;
    assert s[k..][..|a|] == a && s[k..][|a| + 2..] == u;
  }

  lemma ReadArg(a: string, u: string, n: nat)
    requires |a| <= LONG_MAX && n > 0
    ensures ParseArgs(Bulk(a) + u, n) ==
      match ParseArgs(u, n - 1)
      case Whole(args, rest) => Whole([a] + args, rest)
      case other => other
  {
    var t := a + CRLF + u;
    var s := ['$'] + Dec(|a|) + CRLF + t;
    assert Bulk(a) + u == s;
    ReadHeader('$', |a|, t);
    hide LineEnd, Strtol, Dec, Bulk, ParseArgs;
    ArgAt(s, 1 + |Dec(|a|)| + 2, a, u, n);
  }

  /** Parsing after a whole header line. */
  lemma AfterHeader(n: nat, u: string)
    requires 0 < n < 0x8000_0000
    ensures ParseCommand(['*'] + Dec(n) + CRLF + u) == ParseArgs(u, n)
  {
    var s := ['*'] + Dec(n) + CRLF + u;
    ReadHeader('*', n, u);
    StartsWithDigit('*', n, CRLF + u);
    hide LineEnd, Atoi, Strtol, Dec, ParseArgs;
    assert ['*'] + Dec(n) + (CRLF + u) == s;
  }

  lemma EncodeParts(argv: Argv, t: string)
    ensures Encode(argv) + t == ['*'] + Dec(|argv|) + CRLF + (Bulks(argv) + t)
  {
    hide Dec, Bulks;
  }

  /** A printed command is read back. */
  lemma ReadCommand(argv: Argv, t: string)
    requires Fits(argv)
    ensures Encode(argv) + t != "" && ParseCommand(Encode(argv) + t) == Whole(argv, t)
  {
    hide Dec, Bulks, ParseArgs, ParseCommand, Encode;
    EncodeParts(argv, t);
    AfterHeader(|argv|, Bulks(argv) + t);
    ReadArgs(argv, t);
  }

  // ------------------------------------------------------------------
  // Commands that were cut

  /** Part of a header line is read to the end of the file. */
  lemma CutHeader(c: char, n: nat, k: nat)
    requires c != '\n' && n <= LONG_MAX && 0 < k < 1 + |Dec(n)| + 2
    ensures var p := ([c] + Dec(n) + CRLF)[..k];
      && p[0] == c && LineEnd(p, LINE) == k
      && p[1..] == (if k - 1 <= |Dec(n)| then Dec(n)[..k - 1] else Dec(n) + "\r")
      && (k > 1 ==> IsDigit(p[1]))
  {
    hide Dec, LineEnd;
    HeaderShape(c, n);
    StartsWithDigit(c, n, CRLF);
    CutParts(c, Dec(n), k);
    var p := ([c] + Dec(n) + CRLF)[..k];
    LineOfRest(p, LINE);
  }

  lemma CutParts(c: char, d: string, k: nat)
    requires 0 < k < 1 + |d| + 2
    ensures var p := ([c] + d + CRLF)[..k];
      && p == ([c] + d + "\r")[..k]
      && p[1..] == if k - 1 <= |d| then d[..k - 1] else d + "\r"
  {
    var p := ([c] + d + CRLF)[..k];
    if k - 1 <= |d| {
      assert p[1..] == d[..k - 1];
    } else {
      assert p[1..] == d + "\r";
    }
  }

  lemma CutArg(a: string, k: nat, n: nat)
    requires |a| <= LONG_MAX && n > 0 && k < |Bulk(a)|
    ensures ParseArgs(Bulk(a)[..k], n) == Short
  {
    var h, t := ['$'] + Dec(|a|) + CRLF, a + CRLF;
    assert Bulk(a) == h + t;
    hide Bulk, Dec;
    PrefixOfConcat(h, t, k);
    if 0 < k < |h| {
      CutLength(|a|, k, n);
    } else if k >= |h| {
      CutContents(|a|, t[..k - |h|], n);
    }
  }

  lemma CutLength(m: nat, k: nat, n: nat)
    requires m <= LONG_MAX && n > 0 && 0 < k < 1 + |Dec(m)| + 2
    ensures ParseArgs((['$'] + Dec(m) + CRLF)[..k], n) == Short
  {
    CutHeader('$', m, k);
    var p := (['$'] + Dec(m) + CRLF)[..k];
    hide Dec, LineEnd, Digits;
    if k == 1 {
      assert p[1..k] == "" && Strtol("") == 0 by { assert Digits("", 0) == 0 by { NoDigits(); } }
    } else {
      PlainNumber(p[1..k]);
    }
  }

  lemma NoDigits()
    ensures Digits("", 0) == 0
  {
  }

  lemma CutContents(m: nat, t: string, n: nat)
    requires m <= LONG_MAX && n > 0 && |t| < m + 2
    ensures ParseArgs(['$'] + Dec(m) + CRLF + t, n) == Short
  {
    ReadHeader('$', m, t);
    hide Dec, LineEnd, Strtol;
  }

  lemma PrefixOfConcat(a: string, b: string, k: nat)
    requires k <= |a| + |b|
    ensures (a + b)[..k] == if k < |a| then a[..k] else a + b[..k - |a|]
  {
  }

  lemma BulksSplit(args: Argv)
    requires args != []
    ensures Bulks(args) == Bulk(args[0]) + Bulks(args[1..])
  {
  }

  lemma NoBulks(args: Argv)
    ensures args == [] ==> Bulks(args) == ""
  {
  }

  lemma CutFirst(args: Argv, k: nat)
    requires args != [] && |args[0]| <= LONG_MAX && k < |Bulk(args[0])|
    ensures k <= |Bulks(args)| && ParseArgs(Bulks(args)[..k], |args|) == Short
  {
    hide ParseArgs, Bulk, Bulks;
    BulksSplit(args);
    PrefixOfConcat(Bulk(args[0]), Bulks(args[1..]), k);
    CutArg(args[0], k, |args|);
  }

  lemma CutLater(args: Argv, k: nat)
    requires args != [] && |args[0]| <= LONG_MAX && |Bulk(args[0])| <= k <= |Bulk(args[0])| + |Bulks(args[1..])|
    requires ParseArgs(Bulks(args[1..])[..k - |Bulk(args[0])|], |args| - 1) == Short
    ensures k <= |Bulks(args)| && ParseArgs(Bulks(args)[..k], |args|) == Short
  {
    hide ParseArgs, Bulk, Bulks;
    var b, r := Bulk(args[0]), Bulks(args[1..]);
    BulksSplit(args);
    PrefixOfConcat(b, r, k);
    ReadArg(args[0], r[..k - |b|], |args|);
  }

  lemma {:induction false} CutArgs(args: Argv, k: nat)
    requires forall i :: 0 <= i < |args| ==> |args[i]| <= LONG_MAX
    requires k < |Bulks(args)|
    ensures ParseArgs(Bulks(args)[..k], |args|) == Short
    decreases |args|
  {
    hide ParseArgs, Bulk, Bulks;
    NoBulks(args);
    BulksSplit(args);
    if k < |Bulk(args[0])| {
      CutFirst(args, k);
    } else {
      CutArgs(args[1..], k - |Bulk(args[0])|);
      CutLater(args, k);
    }
  }

  /** A command that is cut anywhere is seen as a short read. */
  lemma CutCommand(argv: Argv, k: nat)
    requires Fits(argv) && 0 < k < |Encode(argv)|
    ensures ParseCommand(Encode(argv)[..k]) == Short
  {
    var h, t := ['*'] + Dec(|argv|) + CRLF, Bulks(argv);
    assert Encode(argv) == h + t;
    hide Encode, ParseCommand, Bulks, Dec;
    PrefixOfConcat(h, t, k);
    if k < |h| {
      CutInHeader(|argv|, k);
    } else {
      CutInArgs(argv, k - |h|);
    }
  }

  lemma CutInHeader(n: nat, k: nat)
    requires 0 < n < 0x8000_0000 && 0 < k < 1 + |Dec(n)| + 2
    ensures ParseCommand((['*'] + Dec(n) + CRLF)[..k]) == Short
  {
    CutHeader('*', n, k);
    if k > 1 {
      CutCount(n, k);
    }
    var p := (['*'] + Dec(n) + CRLF)[..k];
    hide Dec, LineEnd, Atoi;
    assert p[1..k] == p[1..];
    assert p[k..] == "";
  }

  lemma CutInArgs(argv: Argv, k: nat)
    requires Fits(argv) && k < |Bulks(argv)|
    ensures ParseCommand(['*'] + Dec(|argv|) + CRLF + Bulks(argv)[..k]) == Short
  {
    hide Dec, Bulks, ParseArgs, ParseCommand;
    AfterHeader(|argv|, Bulks(argv)[..k]);
    CutArgs(argv, k);
  }

  lemma StartsWithDigit(c: char, n: nat, t: string)
    requires n <= LONG_MAX
    ensures var s := [c] + Dec(n) + t; |s| > 1 && IsDigit(s[1])
  {
    Pow10Of19();
    DecShape(n, 19);
    hide Dec, Pow10;
    assert ([c] + Dec(n) + t)[1] == Dec(n)[0];
  }

  lemma CutCount(n: nat, k: nat)
    requires 0 < n < 0x8000_0000 && 1 < k < 1 + |Dec(n)| + 2
    ensures Atoi((['*'] + Dec(n) + CRLF)[..k][1..]) >= 1
  {
    CutHeader('*', n, k);
    if k - 1 <= |Dec(n)| {
      ReadPrefix(n, k - 1);
    } else {
      ReadNumber(n, "\r");
    }
  }

  // ------------------------------------------------------------------
  // Loading a log that was cut

  lemma {:induction false} EncodeAppend(a: seq<Argv>, b: seq<Argv>)
    ensures EncodeAll(a + b) == EncodeAll(a) + EncodeAll(b)
    decreases |a|
  {
    hide Encode;
    if a == [] {
      assert a + b == b;
    } else {
      EncodeAppend(a[1..], b);
      assert (a + b)[1..] == a[1..] + b && (a + b)[0] == a[0];
    }
  }

  /** The end of the `n`-th command. */
  function End(cmds: seq<Argv>, n: nat): nat
    requires n <= |cmds|
  {
    |EncodeAll(cmds[..n])|
  }

  lemma EndNext(cmds: seq<Argv>, n: nat)
    requires n < |cmds|
    ensures End(cmds, n + 1) == End(cmds, n) + |Encode(cmds[n])|
    ensures EncodeAll(cmds) == EncodeAll(cmds[..n]) + (Encode(cmds[n]) + EncodeAll(cmds[n + 1..]))
  {
    EncodeAppend(cmds[..n], [cmds[n]]);
    assert cmds[..n] + [cmds[n]] == cmds[..n + 1];
    assert EncodeAll([cmds[n]]) == Encode(cmds[n]) + EncodeAll([]);
    EncodeAppend(cmds[..n], cmds[n..]);
    assert cmds[..n] + cmds[n..] == cmds;
    assert cmds[n..][1..] == cmds[n + 1..];
  }

  /** `n` commands are whole in the first `k` bytes. */
  ghost predicate WholeIn(cmds: seq<Argv>, k: nat, n: nat) {
    n <= |cmds| && End(cmds, n) <= k && (n < |cmds| ==> k < End(cmds, n + 1))
  }

  /** The position of the last MULTI among the first `n` commands, or 0. */
  function LastMulti(cmds: seq<Argv>, n: nat): (m: nat)
    requires n <= |cmds|
    ensures m <= n
  {
    if n == 0 then 0 else if IsMulti(cmds[n - 1]) then n - 1 else LastMulti(cmds, n - 1)
  }

  ghost predicate LogOk(config: Config, cmds: seq<Argv>) {
    config.loadTruncated && forall i :: 0 <= i < |cmds| ==> Fits(cmds[i]) && Known(config, cmds[i])
  }

  const IDLE: Client := Client([], None)

  /** What the loader makes of the first `k` bytes, `n` whole commands of which are in them. */
  function Recovered(cmds: seq<Argv>, k: nat, n: nat): Loaded
    requires n <= |cmds|
  {
    var c := RunAll(IDLE, cmds[..n]);
    if k == 0 then Empty
    else if k > End(cmds, n) then Truncated(c.executed, End(cmds, n))
    else if c.queue.Some? then Truncated(c.executed, End(cmds, LastMulti(cmds, n)))
    else Complete(c.executed)
  }

  lemma LoadOne(config: Config, file: string, pos: nat, next: nat, argv: Argv, c: Client, m: Marks)
    requires config.loadTruncated && Fits(argv) && Known(config, argv)
    requires pos <= next <= |file| && file[pos..] == Encode(argv) + file[next..]
    ensures LoadFrom(config, file, pos, c, m)
         == LoadFrom(config, file, next, Run(c, argv),
                     Marks(next, if IsMulti(argv) then m.validUpTo else m.beforeMulti))
  {
    hide ParseCommand, Encode, Run, Known, IsMulti, Fits;
    ReadCommand(argv, file[next..]);
  }

  lemma LoadCut(config: Config, file: string, pos: nat, argv: Argv, k: nat, c: Client, m: Marks)
    requires config.loadTruncated && Fits(argv)
    requires pos < |file| && 0 < k < |Encode(argv)| && file[pos..] == Encode(argv)[..k]
    ensures LoadFrom(config, file, pos, c, m) == Truncated(c.executed, m.validUpTo)
  {
    hide ParseCommand, Encode, Fits;
    CutCommand(argv, k);
  }

  lemma CutConcat(a: string, b: string, c: string, k: nat)
    requires |a| <= k <= |a + (b + c)|
    ensures var s := (a + (b + c))[..k];
      if k < |a| + |b| then s[|a|..] == b[..k - |a|] else s[|a|..] == b + s[|a| + |b|..]
  {
    var s := (a + (b + c))[..k];
    if k < |a| + |b| {
      assert s[|a|..] == b[..k - |a|];
    } else {
      assert s == a + (b + c[..k - |a| - |b|]);
      assert s[|a| + |b|..] == c[..k - |a| - |b|];
    }
  }

  /** Where the next command of the log starts in the first `k` bytes. */
  lemma Tail(cmds: seq<Argv>, k: nat, i: nat)
    requires i < |cmds| && k <= |EncodeAll(cmds)| && End(cmds, i) <= k
    ensures End(cmds, i + 1) == End(cmds, i) + |Encode(cmds[i])|
    ensures var file := EncodeAll(cmds)[..k];
      var next := End(cmds, i) + |Encode(cmds[i])|;
      if k < next then file[End(cmds, i)..] == Encode(cmds[i])[..k - End(cmds, i)]
      else next <= |file| && file[End(cmds, i)..] == Encode(cmds[i]) + file[next..]
  {
    EndNext(cmds, i);
    var a, b, c := EncodeAll(cmds[..i]), Encode(cmds[i]), EncodeAll(cmds[i + 1..]);
    assert End(cmds, i) == |a|;
    hide Encode, EncodeAll, End;
    CutConcat(a, b, c, k);
  }

  /** The loop, having read the first `i` commands. */
  lemma {:induction false} LoadFromPrefix(config: Config, cmds: seq<Argv>, k: nat, n: nat, i: nat)
    requires LogOk(config, cmds) && 0 < k <= |EncodeAll(cmds)| && WholeIn(cmds, k, n) && i <= n
    requires End(cmds, i) <= k
    ensures LoadFrom(config, EncodeAll(cmds)[..k], End(cmds, i), RunAll(IDLE, cmds[..i]),
                     Marks(End(cmds, i), End(cmds, LastMulti(cmds, i)))) == Recovered(cmds, k, n)
    decreases n - i
  {
    hide Encode, EncodeAll, Run, Known, IsMulti, Fits, ParseCommand;
    var file := EncodeAll(cmds)[..k];
    var m := Marks(End(cmds, i), End(cmds, LastMulti(cmds, i)));
    var c := RunAll(IDLE, cmds[..i]);
    if i < n {
      EndGrows(cmds, i + 1, n);
      Tail(cmds, k, i);
      LoadFromPrefix(config, cmds, k, n, i + 1);
      LoadOne(config, file, End(cmds, i), End(cmds, i + 1), cmds[i], c, m);
      assert cmds[..i + 1][..i] == cmds[..i];
    } else if k > End(cmds, n) {
      assert n < |cmds| by { assert cmds[..|cmds|] == cmds; }
      Tail(cmds, k, n);
      LoadCut(config, file, End(cmds, n), cmds[n], k - End(cmds, n), c, m);
    }
  }

  lemma {:induction false} EndGrows(cmds: seq<Argv>, i: nat, n: nat)
    requires i <= n <= |cmds|
    ensures End(cmds, i) <= End(cmds, n)
    decreases n - i
  {
    if i < n {
      EndNext(cmds, i);
      EndGrows(cmds, i + 1, n);
    }
  }

  lemma PrintedHasNoPreamble(cmds: seq<Argv>, k: nat)
    requires k <= |EncodeAll(cmds)|
    ensures !HasPreamble(EncodeAll(cmds)[..k])
  {
    var file := EncodeAll(cmds)[..k];
    if |file| >= 5 {
      assert cmds != [];
      assert EncodeAll(cmds)[0] == Encode(cmds[0])[0] == '*';
      assert file[..5][0] == '*';
    }
  }

  /** A log cut at any byte: the loader executes exactly the whole commands, an unfinished
      transaction contributes nothing, and nothing else can happen. */
  lemma TruncatedLogRecovers(config: Config, cmds: seq<Argv>, k: nat, n: nat)
    requires LogOk(config, cmds) && k <= |EncodeAll(cmds)| && WholeIn(cmds, k, n)
    ensures Load(config, EncodeAll(cmds)[..k]) == Recovered(cmds, k, n)
  {
    hide Encode, EncodeAll, LoadFrom, HasPreamble;
    if k > 0 {
      PrintedHasNoPreamble(cmds, k);
      NoBytes(cmds);
      LoadFromPrefix(config, cmds, k, n, 0);
    }
  }

  predicate IsPlain(argv: Argv) {
    !IsMulti(argv) && !IsExec(argv)
  }

  lemma RunPlain(done: seq<Argv>, argv: Argv)
    requires IsPlain(argv)
    ensures Run(Client(done, None), argv) == Client(done + [argv], None)
  {
  }

  lemma {:induction false} PlainRun(cmds: seq<Argv>, n: nat)
    requires n <= |cmds| && forall i :: 0 <= i < |cmds| ==> IsPlain(cmds[i])
    ensures RunAll(IDLE, cmds[..n]) == Client(cmds[..n], None)
  {
    hide IsPlain, Run;
    if n > 0 {
      PlainRun(cmds, n - 1);
      RunPlain(cmds[..n - 1], cmds[n - 1]);
      var init := cmds[..n][..n - 1];
      assert init == cmds[..n - 1] && init + [cmds[n - 1]] == cmds[..n];
    }
  }

  /** Without transactions the loader executes the whole commands as they are, and the file is cut at the end
      of the last of them if anything follows it. */
  lemma PlainLogRecovers(config: Config, cmds: seq<Argv>, k: nat, n: nat)
    requires LogOk(config, cmds) && 0 < k <= |EncodeAll(cmds)| && WholeIn(cmds, k, n)
    requires forall i :: 0 <= i < |cmds| ==> IsPlain(cmds[i])
    ensures Load(config, EncodeAll(cmds)[..k]) ==
      if k == End(cmds, n) then Complete(cmds[..n]) else Truncated(cmds[..n], End(cmds, n))
  {
    hide Load, End, IsPlain, Fits, Known;
    TruncatedLogRecovers(config, cmds, k, n);
    PlainRun(cmds, n);
  }

  lemma NoBytes(cmds: seq<Argv>)
    ensures End(cmds, 0) == 0 && RunAll(IDLE, cmds[..0]) == IDLE
  {
  }

  /** Every cut has its number of whole commands. */
  lemma {:induction false} WholeExists(cmds: seq<Argv>, k: nat, i: nat) returns (n: nat)
    requires i <= |cmds| && End(cmds, i) <= k
    ensures WholeIn(cmds, k, n)
    decreases |cmds| - i
  {
    if i < |cmds| && End(cmds, i + 1) <= k {
      n := WholeExists(cmds, k, i + 1);
    } else {
      n := i;
    }
  }
}
