/** What a recovered log is worth afterwards, and the printing and loading loops themselves. */
module AofLoader {
  import opened Options
  import opened Names
  import opened AofLog

  // ------------------------------------------------------------------
  // Writing on after a recovery

  function Executed(l: Loaded): seq<Argv> {
    match l
    case Complete(e) => e
    case Truncated(e, _) => e
    case _ => []
  }

  /** The file that loading leaves behind. */
  function Survivor(file: string, l: Loaded): string {
    if l.Truncated? && l.offset <= |file| then file[..l.offset] else file
  }

  /** The server never writes a MULTI inside a transaction. */
  ghost predicate Unnested(cmds: seq<Argv>) {
    forall i :: 0 <= i < |cmds| && IsMulti(cmds[i]) ==> RunAll(IDLE, cmds[..i]).queue.None?
  }

  /** An open transaction began at the last MULTI, and nothing was executed since. */
  lemma {:induction false} OpenSince(cmds: seq<Argv>, n: nat)
    requires n <= |cmds| && Unnested(cmds) && RunAll(IDLE, cmds[..n]).queue.Some?
    ensures var m := LastMulti(cmds, n);
      RunAll(IDLE, cmds[..m]) == Client(RunAll(IDLE, cmds[..n]).executed, None)
    decreases n
  {
    hide IsMulti, IsExec;
    if n > 0 {
      assert cmds[..n][..n - 1] == cmds[..n - 1];
      if RunAll(IDLE, cmds[..n - 1]).queue.Some? {
        OpenSince(cmds, n - 1);
      }
    }
  }

  /** What is executed before an idle moment does not matter afterwards. */
  lemma {:induction false} RunFromIdle(e: seq<Argv>, more: seq<Argv>)
    ensures RunAll(Client(e, None), more).executed == e + RunAll(IDLE, more).executed
    ensures RunAll(Client(e, None), more).queue == RunAll(IDLE, more).queue
    decreases |more|
  {
    hide IsMulti, IsExec;
    if more != [] {
      RunFromIdle(e, more[..|more| - 1]);
    }
  }

  lemma {:induction false} RunAppend(c: Client, a: seq<Argv>, b: seq<Argv>)
    ensures RunAll(c, a + b) == RunAll(RunAll(c, a), b)
    decreases |b|
  {
    hide Run;
    if b == [] {
      assert a + b == a;
    } else {
      RunAppend(c, a, b[..|b| - 1]);
      assert (a + b)[..|a + b| - 1] == a + b[..|b| - 1];
    }
  }

  /** A whole log executes all its commands. */
  lemma WholeLog(config: Config, cmds: seq<Argv>)
    requires LogOk(config, cmds)
    ensures Executed(Load(config, EncodeAll(cmds))) == RunAll(IDLE, cmds).executed
  {
    hide Load, EncodeAll, Run, Fits, Known;
    var k := |EncodeAll(cmds)|;
    assert cmds[..|cmds|] == cmds && EncodeAll(cmds)[..k] == EncodeAll(cmds);
    TruncatedLogRecovers(config, cmds, k, |cmds|);
    if k == 0 {
      EmptyLog(cmds);
    }
  }

  lemma EmptyLog(cmds: seq<Argv>)
    ensures EncodeAll(cmds) == "" ==> cmds == []
  {
  }

  /** How many commands the recovered file still holds. */
  function Kept(cmds: seq<Argv>, k: nat, n: nat): nat
    requires n <= |cmds|
  {
    if k == End(cmds, n) && RunAll(IDLE, cmds[..n]).queue.Some? then LastMulti(cmds, n) else n
  }

  lemma SurvivorIsALog(config: Config, cmds: seq<Argv>, k: nat, n: nat)
    requires LogOk(config, cmds) && k <= |EncodeAll(cmds)| && WholeIn(cmds, k, n)
    ensures var file := EncodeAll(cmds)[..k];
      Survivor(file, Load(config, file)) == EncodeAll(cmds[..Kept(cmds, k, n)])
  {
    hide Load, EncodeAll, Run, Fits, Known;
    var file := EncodeAll(cmds)[..k];
    var j := Kept(cmds, k, n);
    TruncatedLogRecovers(config, cmds, k, n);
    EncodeAppend(cmds[..j], cmds[j..]);
    assert cmds[..j] + cmds[j..] == cmds;
    EndGrows(cmds, j, n);
    assert file[..End(cmds, j)] == EncodeAll(cmds[..j]);
    if k == 0 {
      ZeroBytes(cmds, n);
    }
  }

  lemma ZeroBytes(cmds: seq<Argv>, n: nat)
    requires n <= |cmds| && End(cmds, n) == 0
    ensures n == 0 && EncodeAll([]) == ""
  {
    EmptyLog(cmds[..n]);
  }

  /** After recovery the server appends the commands `more`. The next load executes what the recovery
      executed followed by all of `more` exactly when the cut was at a command boundary or outside a
      transaction: a cut inside a command of an open transaction leaves the MULTI in the file, and
      what follows is queued behind it. */
  lemma RecoveredLogContinues(config: Config, cmds: seq<Argv>, k: nat, n: nat, more: seq<Argv>)
    requires LogOk(config, cmds) && k <= |EncodeAll(cmds)| && WholeIn(cmds, k, n) && Unnested(cmds)
    requires LogOk(config, more) && !CutInside(config, cmds, k, n)
    ensures var file := EncodeAll(cmds)[..k];
      var first := Load(config, file);
      Executed(Load(config, Survivor(file, first) + EncodeAll(more)))
        == Executed(first) + RunAll(IDLE, more).executed
  {
    hide Load, EncodeAll, Run, Fits, Known, Survivor, Unnested;
    var j := Kept(cmds, k, n);
    TruncatedLogRecovers(config, cmds, k, n);
    SurvivorIsALog(config, cmds, k, n);
    EncodeAppend(cmds[..j], more);
    WholeLog(config, cmds[..j] + more);
    RunAppend(IDLE, cmds[..j], more);
    if RunAll(IDLE, cmds[..n]).queue.Some? {
      OpenSince(cmds, n);
    }
    var e := RunAll(IDLE, cmds[..n]).executed;
    assert RunAll(IDLE, cmds[..j]) == Client(e, None);
    RunFromIdle(e, more);
    if k == 0 {
      ZeroBytes(cmds, n);
    }
  }

  lemma StrandedTransaction(config: Config, cmds: seq<Argv>, k: nat, n: nat, argv: Argv)
    requires CutInside(config, cmds, k, n)
    requires LogOk(config, [argv]) && !IsMulti(argv) && !IsExec(argv)
    ensures var file := EncodeAll(cmds)[..k];
      var first := Load(config, file);
      Executed(Load(config, Survivor(file, first) + EncodeAll([argv])))
        != Executed(first) + RunAll(IDLE, [argv]).executed
  {
    hide Load, EncodeAll, Fits, Known, Survivor, IsMulti, IsExec;
    TruncatedLogRecovers(config, cmds, k, n);
    SurvivorIsALog(config, cmds, k, n);
    EncodeAppend(cmds[..n], [argv]);
    WholeLog(config, cmds[..n] + [argv]);
    RunAppend(IDLE, cmds[..n], [argv]);
    var c := RunAll(IDLE, cmds[..n]);
    assert [argv][..0] == [];
    assert RunAll(c, [argv]) == Run(c, argv) && RunAll(IDLE, [argv]) == Run(IDLE, argv);
  }

  /** Such a cut exists: MULTI, then half of a SET. */
  lemma CutInsideTransaction(config: Config)
    requires config.loadTruncated && {"multi", "set"} <= config.known
    ensures exists cmds: seq<Argv>, k: nat, n: nat :: CutInside(config, cmds, k, n)
  {
    var multi, set_ := ["multi"], ["set"];
    var cmds := [multi, set_];
    assert Lower("multi") == "multi" && Lower("set") == "set";
    assert Lower("exec") == "exec";
    assert IsMulti(multi) && !IsExec(multi);
    assert LogOk(config, cmds);
    assert cmds[..1] == [multi] && [multi][..0] == [];
    assert RunAll(IDLE, cmds[..1]).queue.Some?;
    EndNext(cmds, 1);
    assert |Encode(set_)| > 1;
    assert cmds[..2] == cmds;
    var k := End(cmds, 1) + 1;
    assert CutInside(config, cmds, k, 1);
  }

  /** The cut is inside a command, and a transaction is open there. */
  ghost predicate CutInside(config: Config, cmds: seq<Argv>, k: nat, n: nat) {
    && LogOk(config, cmds) && k <= |EncodeAll(cmds)| && WholeIn(cmds, k, n)
    && k != End(cmds, n) && RunAll(IDLE, cmds[..n]).queue.Some?
  }

  // ------------------------------------------------------------------
  // The printing loop

  /** `ll2string` for the sizes that are printed: the digits from the last to the first. */
  method DecimalText(n: nat) returns (s: string)
    ensures s == Dec(n)
  {
    s := "";
    var v := n;
    while v >= 10
      invariant Dec(n) == Dec(v) + s
    {
      s := [Digit(v % 10)] + s;
      v := v / 10;
    }
    s := [Digit(v)] + s;
  }

  lemma {:induction false} BulksLast(args: Argv, a: string)
    ensures Bulks(args + [a]) == Bulks(args) + Bulk(a)
    decreases |args|
  {
    hide Bulk;
    if args == [] {
      assert [] + [a] == [a] && [a][1..] == [];
    } else {
      BulksLast(args[1..], a);
      assert (args + [a])[1..] == args[1..] + [a];
    }
  }

  lemma BulksNone()
    ensures Bulks([]) == ""
  {
  }

  lemma BulkInParts(r: string, a: string)
    ensures r + ("$" + Dec(|a|) + CRLF) + a + CRLF == r + Bulk(a)
  {
    Regroup(r, "$" + Dec(|a|) + CRLF, a, CRLF);
  }

  lemma Regroup(r: string, x: string, a: string, c: string)
    ensures r + x + a + c == r + (x + a + c)
  {
  }

  /** `catAppendOnlyGenericCommand`. */
  method CatGenericCommand(dst: string, argv: Argv) returns (r: string)
    ensures r == dst + Encode(argv)
  {
    hide Bulks, Dec;
    var count := DecimalText(|argv|);
    r := dst + ("*" + count + CRLF);
    ghost var head := r;
    BulksNone();
    for j := 0 to |argv|
      invariant r == head + Bulks(argv[..j])
    {
      var len := DecimalText(|argv[j]|);
      BulksLast(argv[..j], argv[j]);
      assert argv[..j] + [argv[j]] == argv[..j + 1];
      BulkInParts(r, argv[j]);
      r := r + ("$" + len + CRLF);
      r := r + argv[j];
      r := r + CRLF;
    }
    assert argv[..|argv|] == argv;
  }

  // ------------------------------------------------------------------
  // The loading loop

  /** `fgets` into a 128-byte buffer, from a position before the end: the end of the line read. */
  method Fgets(file: string, pos: nat) returns (end: nat)
    requires pos < |file|
    ensures pos < end <= |file| && end == pos + LineEnd(file[pos..], LINE)
  {
    hide LineEnd;
    end := pos;
    LineEndAt(file, pos, LINE);
    while end < |file| && end - pos < LINE
      invariant pos <= end <= |file| && end - pos <= LINE
      invariant LineEnd(file[pos..], LINE) == end - pos + LineEnd(file[end..], LINE - (end - pos))
      invariant LineEnd(file[pos..], LINE) > 0
    {
      LineEndAt(file, end, LINE - (end - pos));
      end := end + 1;
      if file[end - 1] == '\n' {
        return;
      }
    }
    LineEndAt(file, end, LINE - (end - pos));
  }

  lemma LineEndAt(file: string, end: nat, limit: nat)
    requires end <= |file|
    ensures LineEnd(file[end..], limit) ==
      if end == |file| || limit == 0 then 0
      else if file[end] == '\n' then 1
      else 1 + LineEnd(file[end + 1..], limit - 1)
  {
    if end < |file| {
      assert file[end..][1..] == file[end + 1..];
    }
  }

  /** One round of `ParseArgs` in terms of positions in the file. */
  lemma ParseArgsAt(file: string, pos: nat, end: nat, n: nat)
    requires pos < end <= |file| && n > 0 && end == pos + LineEnd(file[pos..], LINE)
    ensures var len := Strtol(file[pos + 1..end]);
      ParseArgs(file[pos..], n) ==
        if file[pos] != '$' then Bad
        else if len < 0 then Abort
        else if |file| - end < len + 2 then Short
        else match ParseArgs(file[end + len + 2..], n - 1)
             case Whole(args, rest) => Whole([file[end..end + len]] + args, rest)
             case other => other
  {
    hide LineEnd, Strtol, ParseArgs;
    var len := Strtol(file[pos + 1..end]);
    Views(file, pos, end, len);
    ParseArgsOne(file[pos..], end - pos, file[pos + 1..end], file[end..], len, n);
  }

  lemma ParseArgsOne(s: string, k: nat, line: string, t: string, len: int, n: nat)
    requires s != "" && n > 0 && k == LineEnd(s, LINE) && line == s[1..k] && t == s[k..] && len == Strtol(line)
    ensures ParseArgs(s, n) ==
      if s[0] != '$' then Bad
      else if len < 0 then Abort
      else if |t| < len + 2 then Short
      else match ParseArgs(t[len + 2..], n - 1)
           case Whole(args, rest) => Whole([t[..len]] + args, rest)
           case other => other
  {
    hide LineEnd, Strtol;
  }

  lemma Views(file: string, pos: nat, end: nat, len: int)
    requires pos < end <= |file|
    ensures file[pos..][1..end - pos] == file[pos + 1..end]
    ensures file[pos..][end - pos..] == file[end..]
    ensures len >= 0 && |file| - end >= len + 2 ==>
      file[end..][..len] == file[end..end + len] && file[end..][len + 2..] == file[end + len + 2..]
  {
  }

  /** The inner loop: the arguments of one command. */
  method ReadArguments(file: string, start: nat, argc: nat) returns (r: Parsed)
    requires start <= |file|
    ensures r == ParseArgs(file[start..], argc)
  {
    hide LineEnd, Strtol, ParseArgs, Prepend;
    var pos := start;
    var argv: Argv := [];
    PrependNone(file, start, argc);
    for j := 0 to argc
      invariant start <= pos <= |file| && |argv| == j
      invariant ParseArgs(file[start..], argc) == Prepend(argv, ParseArgs(file[pos..], argc - j))
    {
      PrependError(argv);
      if pos == |file| {
        ParseNothing(file[pos..], argc - j);
        return Short;
      }
      var end := Fgets(file, pos);
      ParseArgsAt(file, pos, end, argc - j);
      if file[pos] != '$' {
        return Bad;
      }
      var len := Strtol(file[pos + 1..end]);
      if len < 0 {
        return Abort;
      }
      if len > 0 && |file| - end < len {
        return Short;
      }
      var arg := file[end..end + len];
      if |file| - (end + len) < 2 {
        return Short;
      }
      PrependOne(argv, arg, ParseArgs(file[end + len + 2..], argc - j - 1));
      argv := argv + [arg];
      pos := end + len + 2;
    }
    ParseDone(argv, file[pos..]);
    r := Whole(argv, file[pos..]);
  }

  lemma PrependNone(file: string, start: nat, n: nat)
    requires start <= |file|
    ensures Prepend([], ParseArgs(file[start..], n)) == ParseArgs(file[start..], n)
  {
    var p := ParseArgs(file[start..], n);
    if p.Whole? {
      assert [] + p.argv == p.argv;
    }
  }

  lemma PrependError(argv: Argv)
    ensures Prepend(argv, Short) == Short && Prepend(argv, Bad) == Bad && Prepend(argv, Abort) == Abort
  {
  }

  lemma ParseNothing(s: string, n: nat)
    requires s == "" && n > 0
    ensures ParseArgs(s, n) == Short
  {
  }

  lemma ParseDone(argv: Argv, s: string)
    ensures Prepend(argv, ParseArgs(s, 0)) == Whole(argv, s)
  {
    assert argv + [] == argv;
  }

  function Prepend(argv: Argv, p: Parsed): Parsed {
    match p
    case Whole(args, rest) => Whole(argv + args, rest)
    case other => other
  }

  lemma PrependOne(argv: Argv, a: string, p: Parsed)
    ensures Prepend(argv, match p
                          case Whole(args, rest) => Whole([a] + args, rest)
                          case other => other) == Prepend(argv + [a], p)
  {
    if p.Whole? {
      assert argv + ([a] + p.argv) == argv + [a] + p.argv;
    }
  }

  /** `loadAppendOnlyFile`. */
  method LoadAppendOnlyFile(config: Config, file: string) returns (r: Loaded)
    ensures r == Load(config, file)
  {
    hide ParseArgs, LineEnd, Atoi, Run, IsMulti, Known, HasPreamble, Cut;
    if file == "" {
      return Empty;
    }
    if HasPreamble(file) {
      return Preamble;
    }
    var pos: nat, validUpTo: nat, beforeMulti: nat := 0, 0, 0;
    var c := Client([], None);
    while pos < |file|
      invariant pos <= |file|
      invariant Load(config, file) == LoadFrom(config, file, pos, c, Marks(validUpTo, beforeMulti))
    {
      var end := Fgets(file, pos);
      Views(file, pos, end, 0);
      if file[pos] != '*' {
        return BadFormat;
      }
      if end == pos + 1 || file[pos + 1] == '\0' {
        if ReachesEof(file[pos..end]) {
          return Cut(config, c.executed, validUpTo);
        }
        return ReadError;
      }
      var argc := Atoi(file[pos + 1..end]);
      if argc < 1 {
        return BadFormat;
      }
      var parsed := ReadArguments(file, end, argc);
      match parsed {
        case Short => return Cut(config, c.executed, validUpTo);
        case Bad => return BadFormat;
        case Abort => return OutOfMemory;
        case Broken => return ReadError;
        case Whole(argv, rest) =>
          if !Known(config, argv) {
            return Unknown;
          }
          if IsMulti(argv) {
            beforeMulti := validUpTo;
          }
          c := Run(c, argv);
          pos := |file| - |rest|;
          if config.loadTruncated {
            validUpTo := pos;
          }
      }
    }
    if c.queue.Some? {
      return Cut(config, c.executed, beforeMulti);
    }
    return Complete(c.executed);
  }
}
