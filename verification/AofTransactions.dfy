/** What a log means: single commands and transactions, printed one after the other, and what the loader executes
    of them when the file is cut at any byte. */
module AofTransactions {
  import opened Options
  import opened Names
  import opened AofLog
  import opened AofLoader

  /** The command with this name, in any case. */
  ghost predicate Named(argv: Argv, name: string) {
    argv != [] && Lower(argv[0]) == name
  }

  /** A command outside a transaction, or a transaction with its brackets. */
  datatype Entry = Single(argv: Argv) | Transaction(multi: Argv, body: seq<Argv>, exec: Argv)

  ghost predicate Ordinary(argv: Argv) {
    !Named(argv, "multi") && !Named(argv, "exec")
  }

  ghost predicate WellFormed(e: Entry) {
    match e
    case Single(argv) => Ordinary(argv)
    case Transaction(multi, body, exec) =>
      Named(multi, "multi") && Named(exec, "exec") && forall i :: 0 <= i < |body| ==> Ordinary(body[i])
  }

  /** The commands written for an entry. */
  ghost function Written(e: Entry): seq<Argv> {
    match e
    case Single(argv) => [argv]
    case Transaction(multi, body, exec) => [multi] + body + [exec]
  }

  /** The commands it stands for. */
  ghost function Meaning(e: Entry): seq<Argv> {
    match e
    case Single(argv) => [argv]
    case Transaction(_, body, _) => body
  }

  ghost function WrittenAll(es: seq<Entry>): seq<Argv> {
    if es == [] then [] else WrittenAll(es[..|es| - 1]) + Written(es[|es| - 1])
  }

  ghost function MeaningAll(es: seq<Entry>): seq<Argv> {
    if es == [] then [] else MeaningAll(es[..|es| - 1]) + Meaning(es[|es| - 1])
  }

  /** The log printed for these entries. */
  ghost function Log(es: seq<Entry>): string {
    EncodeAll(WrittenAll(es))
  }

  ghost predicate AllWellFormed(es: seq<Entry>) {
    forall i :: 0 <= i < |es| ==> WellFormed(es[i])
  }

  // ------------------------------------------------------------------
  // Running entries

  lemma Brackets(argv: Argv)
    ensures IsMulti(argv) <==> Named(argv, "multi")
    ensures IsExec(argv) <==> Named(argv, "exec")
  {
    assert Lower("multi") == "multi" && Lower("exec") == "exec";
  }

  /** Inside a transaction commands are queued and nothing is executed. */
  lemma {:induction false} RunQueued(done: seq<Argv>, multi: Argv, body: seq<Argv>, n: nat)
    requires Named(multi, "multi") && n <= |body| && forall i :: 0 <= i < |body| ==> Ordinary(body[i])
    ensures RunAll(Client(done, None), [multi] + body[..n]) == Client(done, Some(body[..n]))
    decreases n
  {
    hide Named;
    var c, cmds := Client(done, None), [multi] + body[..n];
    Brackets(multi);
    if n == 0 {
      assert cmds == [multi] && cmds[..0] == [];
      assert RunAll(c, cmds[..0]) == c;
      assert !Named(multi, "exec") by { MultiIsNotExec(multi); }
    } else {
      RunQueued(done, multi, body, n - 1);
      Brackets(body[n - 1]);
      assert cmds[..|cmds| - 1] == [multi] + body[..n - 1] && cmds[|cmds| - 1] == body[n - 1];
      assert body[..n - 1] + [body[n - 1]] == body[..n];
    }
  }

  lemma MultiIsNotExec(argv: Argv)
    requires Named(argv, "multi")
    ensures !Named(argv, "exec")
  {
    assert "multi"[0] == 'm' && "exec"[0] == 'e';
  }

  /** An entry that is whole does what it stands for, and one that is not does nothing. */
  lemma RunEntry(done: seq<Argv>, e: Entry, n: nat)
    requires WellFormed(e) && n <= |Written(e)|
    ensures RunAll(Client(done, None), Written(e)[..n]).executed == if n < |Written(e)| then done else done + Meaning(e)
    ensures n == |Written(e)| ==> RunAll(Client(done, None), Written(e)[..n]).queue == None
    ensures n == 0 ==> RunAll(Client(done, None), Written(e)[..n]).queue == None
    ensures 0 < n < |Written(e)| ==> RunAll(Client(done, None), Written(e)[..n]).queue.Some?
  {
    var c, cmds := Client(done, None), Written(e)[..n];
    if n == 0 {
    } else if e.Single? {
      Brackets(e.argv);
      assert cmds == [e.argv] && cmds[..0] == [];
      assert RunAll(c, cmds[..0]) == c;
    } else {
      hide Named;
      RunTransaction(done, e.multi, e.body, e.exec, n);
    }
  }

  lemma RunTransaction(done: seq<Argv>, multi: Argv, body: seq<Argv>, exec: Argv, n: nat)
    requires Named(multi, "multi") && Named(exec, "exec") && (forall i :: 0 <= i < |body| ==> Ordinary(body[i]))
    requires 0 < n <= |body| + 2
    ensures RunAll(Client(done, None), ([multi] + body + [exec])[..n])
         == if n < |body| + 2 then Client(done, Some(body[..n - 1])) else Client(done + body, None)
  {
    hide Named;
    var c, cmds := Client(done, None), ([multi] + body + [exec])[..n];
    if n < |body| + 2 {
      RunQueued(done, multi, body, n - 1);
      assert cmds == [multi] + body[..n - 1];
    } else {
      RunQueued(done, multi, body, |body|);
      assert body[..|body|] == body;
      assert cmds[..|cmds| - 1] == [multi] + body && cmds[|cmds| - 1] == exec;
      Brackets(exec);
    }
  }

  lemma {:induction false} RunEntries(es: seq<Entry>)
    requires AllWellFormed(es)
    ensures RunAll(IDLE, WrittenAll(es)) == Client(MeaningAll(es), None)
    decreases |es|
  {
    hide WellFormed, Run;
    if es != [] {
      var init, e := es[..|es| - 1], es[|es| - 1];
      RunEntries(init);
      RunAppend(IDLE, WrittenAll(init), Written(e));
      RunEntry(MeaningAll(init), e, |Written(e)|);
      assert Written(e)[..|Written(e)|] == Written(e);
    }
  }

  // ------------------------------------------------------------------
  // Loading

  lemma {:induction false} WrittenSplit(es: seq<Entry>, i: nat)
    requires i <= |es|
    ensures WrittenAll(es[..i]) <= WrittenAll(es)
    ensures i < |es| ==> WrittenAll(es[..i + 1]) == WrittenAll(es[..i]) + Written(es[i]) <= WrittenAll(es)
    decreases |es| - i
  {
    hide Written;
    if i < |es| {
      WrittenSplit(es, i + 1);
      assert es[..i + 1][..i] == es[..i] && es[..i + 1][i] == es[i];
      var a, b, all := WrittenAll(es[..i]), WrittenAll(es[..i + 1]), WrittenAll(es);
      assert b == a + Written(es[i]);
      hide WrittenAll;
      Longer(a, Written(es[i]), all);
    } else {
      assert es[..i] == es;
    }
  }

  lemma Longer(a: seq<Argv>, b: seq<Argv>, c: seq<Argv>)
    requires a + b <= c
    ensures a <= c
  {
    assert (a + b)[..|a|] == a && c[..|a|] == (a + b)[..|a|];
  }

  /** `i` entries are whole in the first `k` bytes of the log. */
  ghost predicate EntriesIn(es: seq<Entry>, k: nat, i: nat) {
    i <= |es| && |Log(es[..i])| <= k && (i < |es| ==> k < |Log(es[..i + 1])|)
  }

  lemma PrefixEnd(a: seq<Argv>, b: seq<Argv>)
    requires a <= b
    ensures End(b, |a|) == |EncodeAll(a)|
  {
    assert b[..|a|] == a;
  }

  /** The number of whole commands lies within the entry that is cut. */
  lemma CommandsIn(es: seq<Entry>, k: nat, i: nat, n: nat)
    requires EntriesIn(es, k, i) && WholeIn(WrittenAll(es), k, n)
    ensures
      var a := WrittenAll(es[..i]);
      |a| <= n <= |WrittenAll(es)| && WrittenAll(es)[..|a|] == a &&
      if i < |es| then n < |a| + |Written(es[i])| && WrittenAll(es)[..n] == a + Written(es[i])[..n - |a|]
      else n == |a| && WrittenAll(es)[..n] == a
  {
    hide EncodeAll, Written;
    var all, a := WrittenAll(es), WrittenAll(es[..i]);
    WrittenSplit(es, i);
    PrefixEnd(a, all);
    if n < |a| {
      EndGrows(all, n + 1, |a|);
    }
    if i < |es| {
      var b := WrittenAll(es[..i + 1]);
      PrefixEnd(b, all);
      if n >= |b| {
        EndGrows(all, |b|, n);
      }
      assert all[..n] == b[..n];
    } else {
      assert es[..i] == es;
    }
  }

  /** A log cut at any byte: the loader executes exactly what the whole entries stand for. Nothing of a transaction
      that is cut is executed, whatever part of it there is. */
  lemma CutLogMeans(config: Config, es: seq<Entry>, k: nat, i: nat)
    requires LogOk(config, WrittenAll(es)) && AllWellFormed(es) && k <= |Log(es)| && EntriesIn(es, k, i)
    ensures Executed(Load(config, Log(es)[..k])) == MeaningAll(es[..i])
  {
    hide EncodeAll, Load, WellFormed, Written, Run, Fits, Known;
    var all, a := WrittenAll(es), WrittenAll(es[..i]);
    NoBytes(all);
    var n := WholeExists(all, k, 0);
    TruncatedLogRecovers(config, all, k, n);
    CommandsIn(es, k, i, n);
    RunEntries(es[..i]);
    if i < |es| {
      RunAppend(IDLE, a, Written(es[i])[..n - |a|]);
      RunEntry(MeaningAll(es[..i]), es[i], n - |a|);
    }
    if k == 0 {
      ZeroBytes(all, n);
      assert MeaningAll(es[..i]) == RunAll(IDLE, all[..0]).executed;
    }
  }

  /** A whole log: everything is executed in order, without the brackets. */
  lemma WholeLogMeans(config: Config, es: seq<Entry>)
    requires LogOk(config, WrittenAll(es)) && AllWellFormed(es) && es != []
    ensures Load(config, Log(es)) == Complete(MeaningAll(es))
  {
    hide EncodeAll, Load, WellFormed, Written, Run, Fits, Known;
    var all := WrittenAll(es);
    RunEntries(es);
    assert all[..|all|] == all && Log(es)[..|Log(es)|] == Log(es);
    TruncatedLogRecovers(config, all, |Log(es)|, |all|);
    if Log(es) == "" {
      EmptyLog(all);
      WrittenIsNotEmpty(es);
    }
  }

  lemma WrittenIsNotEmpty(es: seq<Entry>)
    requires es != []
    ensures WrittenAll(es) != []
  {
    assert |Written(es[|es| - 1])| > 0;
  }

  /** One transaction by itself. */
  lemma TransactionLoads(config: Config, multi: Argv, body: seq<Argv>, exec: Argv)
    requires LogOk(config, [multi] + body + [exec]) && WellFormed(Transaction(multi, body, exec))
    ensures Load(config, EncodeAll([multi] + body + [exec])) == Complete(body)
  {
    hide Load, EncodeAll, WellFormed, Fits, Known;
    var e := Transaction(multi, body, exec);
    var es := [e];
    assert es[..0] == [] && WrittenAll(es[..0]) == [] && MeaningAll(es[..0]) == [];
    assert WrittenAll(es) == [multi] + body + [exec] && MeaningAll(es) == body;
    WholeLogMeans(config, es);
  }

  /** A log that ends inside its last transaction, at a command or within one: the transaction is not executed, and
      the file is cut before its MULTI or, if a command is incomplete, before that command. */
  lemma CutTransaction(config: Config, es: seq<Entry>, e: Entry, k: nat, n: nat)
    requires AllWellFormed(es) && WellFormed(e) && e.Transaction? && LogOk(config, WrittenAll(es) + Written(e))
    requires 0 < n < |Written(e)|
    requires |EncodeAll(WrittenAll(es) + Written(e)[..n])| <= k < |EncodeAll(WrittenAll(es) + Written(e)[..n + 1])|
    ensures
      var file := EncodeAll(WrittenAll(es) + Written(e));
      k <= |file| && Load(config, file[..k]) ==
        var end := |EncodeAll(WrittenAll(es) + Written(e)[..n])|;
        Truncated(MeaningAll(es), if k == end then |Log(es)| else end)
  {
    hide EncodeAll, Load, WellFormed, Run, Fits, Known;
    var a, b := WrittenAll(es), Written(e);
    var all, m := a + b, |a| + n;
    hide RunAll, WrittenAll, MeaningAll, LastMulti;
    assert all[..m] == a + b[..n] && all[..m + 1] == a + b[..n + 1];
    assert all[..|all|] == all;
    EndGrows(all, m + 1, |all|);
    TruncatedLogRecovers(config, all, k, m);
    RunEntries(es);
    RunAppend(IDLE, a, b[..n]);
    RunEntry(MeaningAll(es), e, n);
    LastIsThis(a, e, n);
    assert all[..|a|] == a;
    assert k > 0 by {
      if k == 0 {
        ZeroBytes(all, m);
      }
    }
  }

  lemma {:induction false} LastIsThis(a: seq<Argv>, e: Entry, n: nat)
    requires WellFormed(e) && e.Transaction? && 0 < n < |Written(e)|
    ensures LastMulti(a + Written(e), |a| + n) == |a|
    decreases n
  {
    hide Named;
    var all := a + Written(e);
    if n == 1 {
      assert all[|a|] == e.multi;
      Brackets(e.multi);
    } else {
      LastIsThis(a, e, n - 1);
      assert all[|a| + n - 1] == e.body[n - 2];
      Brackets(e.body[n - 2]);
    }
  }

  // ------------------------------------------------------------------
  // Without `aof-load-truncated`

  /** A file that is not whole is refused. */
  ghost function Refused(l: Loaded): Loaded {
    if l.Truncated? then UnexpectedEof else l
  }

  lemma {:induction false} StrictLoop(config: Config, file: string, pos: nat, c: Client, m: Marks, m': Marks)
    requires pos <= |file|
    ensures LoadFrom(config.(loadTruncated := false), file, pos, c, m)
         == Refused(LoadFrom(config.(loadTruncated := true), file, pos, c, m'))
    decreases |file| - pos
  {
    hide ParseCommand, Run;
    if pos < |file| {
      match ParseCommand(file[pos..]) {
        case Whole(argv, rest) =>
          if Known(config, argv) {
            var next := |file| - |rest|;
            StrictLoop(config, file, next, Run(c, argv), NextMarks(config.(loadTruncated := false), m, argv, next),
                       NextMarks(config.(loadTruncated := true), m', argv, next));
          }
        case _ =>
      }
    }
  }

  /** The option only decides what happens to a file that is cut: any other file loads in the same way. */
  lemma StrictLoad(config: Config, file: string)
    ensures Load(config.(loadTruncated := false), file) == Refused(Load(config.(loadTruncated := true), file))
  {
    hide LoadFrom;
    if file != "" {
      StrictLoop(config, file, 0, IDLE, Marks(0, 0), Marks(0, 0));
    }
  }

  // ------------------------------------------------------------------
  // Files that are not logs

  lemma {:induction false} LoadReaches(config: Config, cmds: seq<Argv>, tail: string, i: nat)
    requires LogOk(config, cmds) && i <= |cmds| && End(cmds, i) <= |EncodeAll(cmds)|
    ensures
      var file := EncodeAll(cmds) + tail;
      LoadFrom(config, file, End(cmds, i), RunAll(IDLE, cmds[..i]), Marks(End(cmds, i), End(cmds, LastMulti(cmds, i))))
      == LoadFrom(config, file, |EncodeAll(cmds)|, RunAll(IDLE, cmds),
                  Marks(|EncodeAll(cmds)|, End(cmds, LastMulti(cmds, |cmds|))))
    decreases |cmds| - i
  {
    hide Encode, EncodeAll, Run, Known, IsMulti, Fits, ParseCommand;
    var file := EncodeAll(cmds) + tail;
    if i == |cmds| {
      assert cmds[..i] == cmds;
    } else {
      EndNext(cmds, i);
      EndGrows(cmds, i + 1, |cmds|);
      assert cmds[..|cmds|] == cmds;
      var a, b, c := EncodeAll(cmds[..i]), Encode(cmds[i]), EncodeAll(cmds[i + 1..]);
      Suffixes(a, b, c, tail);
      LoadReaches(config, cmds, tail, i + 1);
      LoadOne(config, file, End(cmds, i), End(cmds, i + 1), cmds[i], RunAll(IDLE, cmds[..i]),
              Marks(End(cmds, i), End(cmds, LastMulti(cmds, i))));
      assert cmds[..i + 1][..i] == cmds[..i];
    }
  }

  lemma Suffixes(a: string, b: string, c: string, t: string)
    ensures (a + (b + c) + t)[|a|..] == b + (a + (b + c) + t)[|a| + |b|..]
  {
    var s := a + (b + c) + t;
    assert s[|a|..] == b + c + t;
    assert s[|a| + |b|..] == c + t;
  }

  /** A command that the server does not know stops the load, whatever follows. */
  lemma UnknownCommandStops(config: Config, cmds: seq<Argv>, argv: Argv, rest: string)
    requires LogOk(config, cmds) && Fits(argv) && Lower(argv[0]) !in config.known
    ensures Load(config, EncodeAll(cmds) + (Encode(argv) + rest)) == Unknown
  {
    hide Encode, EncodeAll, ParseCommand, Run;
    var tail := Encode(argv) + rest;
    var file := EncodeAll(cmds) + tail;
    StartsWithStar(cmds, argv, rest);
    NoBytes(cmds);
    LoadReaches(config, cmds, tail, 0);
    ReadCommand(argv, rest);
    assert file[|EncodeAll(cmds)|..] == tail;
  }

  lemma StartsWithStar(cmds: seq<Argv>, argv: Argv, rest: string)
    ensures
      var file := EncodeAll(cmds) + (Encode(argv) + rest);
      file != "" && !HasPreamble(file) && |EncodeAll(cmds)| < |file|
  {
    var file := EncodeAll(cmds) + (Encode(argv) + rest);
    hide Dec, Bulks;
    assert Encode(argv)[0] == '*';
    assert cmds != [] ==> EncodeAll(cmds)[0] == '*';
    assert file[0] == '*';
    if |file| >= 5 {
      assert file[..5][0] == '*' && "REDIS"[0] == 'R';
    }
  }

  /** A file that does not start like a log is refused; one that starts with an RDB preamble is not read as a log. */
  lemma NoLog(config: Config, file: string)
    requires file != "" && file[0] != '*'
    ensures Load(config, file) == if |file| >= 5 && file[..5] == "REDIS" then Preamble else BadFormat
  {
    assert file[0..] == file;
  }

  /** A number with a sign, after blanks. */
  lemma {:induction false} SignedNumber(blanks: string, n: nat, t: string)
    requires n <= LONG_MAX && (t == "" || !IsDigit(t[0])) && forall i :: 0 <= i < |blanks| ==> IsBlank(blanks[i])
    ensures Strtol(blanks + (['-'] + (Dec(n) + t))) == 0 - n
    ensures Strtol(blanks + (['+'] + (Dec(n) + t))) == n
    decreases |blanks|
  {
    hide Dec, Digits;
    if blanks == "" {
      var d := Dec(n) + t;
      assert "" + (['-'] + d) == ['-'] + d && "" + (['+'] + d) == ['+'] + d;
      assert (['-'] + d)[1..] == d && (['+'] + d)[1..] == d;
      DigitsOfDec(n, t);
      NoMoreDigits(t, n);
    } else {
      SignedNumber(blanks[1..], n, t);
      assert (blanks + (['-'] + (Dec(n) + t)))[1..] == blanks[1..] + (['-'] + (Dec(n) + t));
      assert (blanks + (['+'] + (Dec(n) + t)))[1..] == blanks[1..] + (['+'] + (Dec(n) + t));
    }
  }

  lemma NoMoreDigits(t: string, n: nat)
    requires t == "" || !IsDigit(t[0])
    ensures Digits(t, n) == n
  {
  }

  lemma PrintedBulk(a: string, n: char)
    requires |a| < 10 && Digit(|a|) == n
    ensures Bulk(a) == ['$', n, '\r', '\n'] + a + ['\r', '\n']
  {
    assert Dec(|a|) == [n];
  }

  /** The bytes of one command. */
  lemma Printed()
    ensures Encode(["SET", "key", ""]) == "*3\r\n" + ("$3\r\nSET\r\n" + ("$3\r\nkey\r\n" + "$0\r\n\r\n"))
  {
    PrintedBulk("SET", '3');
    PrintedBulk("key", '3');
    PrintedBulk("", '0');
    assert Dec(3) == "3";
    hide Bulk, Dec;
    var argv: Argv := ["SET", "key", ""];
    assert argv[1..] == ["key", ""] && argv[1..][1..] == [""] && argv[1..][1..][1..] == [];
    assert Bulks([""]) == Bulk("");
    assert Bulks(["key", ""]) == Bulk("key") + Bulks([""]);
    assert Bulks(argv) == Bulk("SET") + Bulks(["key", ""]);
  }
}
