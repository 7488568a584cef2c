/** The background rewrite of the append only file as a protocol between the server and its child:
    the server keeps feeding commands, sends them to the child in pieces through a pipe, and in the end
    appends to the child's file what the child did not get. */
module AofRewriteSpec {
  import opened Options
  import opened Names
  import opened AofLog
  import AofLoader

  /** What commands do to the data set, left abstract. */
  datatype World<!D> = World(empty: D, exec: (D, int, Argv) -> D)

  /** The data set and the selected database of a client that replays a log. */
  datatype Db<D> = Db(data: D, selected: int)

  predicate IsSelect(argv: Argv) {
    |argv| == 2 && SameName(argv[0], "select")
  }

  function SelectCmd(db: nat): Argv {
    ["SELECT", Dec(db)]
  }

  function Step<D>(w: World<D>, s: Db<D>, argv: Argv): Db<D> {
    if IsSelect(argv) then s.(selected := Atoi(argv[1]))
    else s.(data := w.exec(s.data, s.selected, argv))
  }

  /** Executing a log from an empty server. */
  function Replay<D>(w: World<D>, cmds: seq<Argv>): Db<D> {
    if cmds == [] then Db(w.empty, 0) else Step(w, Replay(w, cmds[..|cmds| - 1]), cmds[|cmds| - 1])
  }

  datatype State = Off | Waiting | On

  /** Working: dumping the data set; Asked: `!` sent; Agreed: `!` received back; Drained: the pipe read
      to its end; Finished: exited, with success or not. */
  datatype Phase = Working | Asked | Agreed | Drained | Finished(ok: bool)

  datatype Child = Child(phase: Phase, diff: string, temp: string)

  datatype Server<D> = Server(
    state: State,
    live: string,          // the append only file
    buf: string,           // aof_buf
    selected: int,         // aof_selected_db
    blocks: string,        // the rewrite buffer, all blocks together
    stop: bool,            // aof_stop_sending_diff
    child: Option<Child>,
    pipe: string,          // server to child, data
    ask: bool,             // child to server, `!`
    ack: bool,             // server to child, `!`
    data: D,               // the data set
    log: seq<Argv>,        // the commands in live and buf
    base: seq<Argv>,       // the commands the child dumps
    fed: seq<Argv>)        // the commands fed since the fork

  // ------------------------------------------------------------------
  // Steps

  /** The commands `feedAppendOnlyFile` writes for one command. */
  function FeedCmds(selected: int, db: nat, argv: Argv): seq<Argv> {
    if selected == db then [argv] else [SelectCmd(db), argv]
  }

  /** A command changes the data and is propagated, unless the log is off. */
  function Feed<D>(w: World<D>, s: Server<D>, db: nat, argv: Argv): Server<D> {
    var d := w.exec(s.data, db, argv);
    if s.state == Off then s.(data := d) else
    var cmds := FeedCmds(s.selected, db, argv);
    var text := EncodeAll(cmds);
    s.(data := d, selected := db,
       buf := if s.state == On then s.buf + text else s.buf,
       log := if s.state == On then s.log + cmds else s.log,
       blocks := if s.child.Some? then s.blocks + text else s.blocks,
       fed := if s.child.Some? then s.fed + cmds else s.fed)
  }

  /** `rewriteAppendOnlyFileBackground`; `base` is what the child will dump. */
  function Fork<D>(s: Server<D>, base: seq<Argv>): Server<D> {
    s.(child := Some(Child(Working, "", "")), pipe := "", ask := false, ack := false, stop := false,
       selected := -1, base := base, fed := [])
  }

  /** The end of a rewrite that comes to nothing. */
  function Cleanup<D>(s: Server<D>): Server<D> {
    s.(child := None, pipe := "", ask := false, ack := false, blocks := "")
  }

  /** The end of a successful rewrite: append the blocks to the temporary file and rename it. */
  function Install<D>(s: Server<D>): Server<D>
    requires s.child.Some?
  {
    Cleanup(if s.state == Off then s.(live := s.child.value.temp + s.blocks, log := s.base + s.fed)
            else s.(live := s.child.value.temp + s.blocks, buf := "", selected := -1, state := On,
                    log := s.base + s.fed))
  }

  datatype Move =
    | Execute(db: nat, argv: Argv)
    | Flush(n: nat)
    | Start(base: seq<Argv>)
    | StartLater
    | Stop(n: nat)
    | Rewrite(base: seq<Argv>)
    | Send(n: nat)
    | Hear(sent: bool)
    | Done(ok: bool)
    | Kill
    | Read(n: nat)
    | Ask
    | Agree
    | Drain
    | Finish
    | Fail

  ghost predicate Dumps<D>(w: World<D>, s: Server<D>, base: seq<Argv>) {
    Replay(w, base).data == s.data
  }

  predicate ChildIn<D>(s: Server<D>, p: Phase) {
    s.child.Some? && s.child.value.phase == p
  }

  predicate Alive<D>(s: Server<D>) {
    s.child.Some? && !s.child.value.phase.Finished?
  }

  ghost predicate Enabled<D>(w: World<D>, s: Server<D>, m: Move) {
    match m
    case Execute(db, argv) => db < 0x8000_0000 && !IsSelect(argv)
    case Flush(n) => s.state == On && n <= |s.buf|
    case Start(base) => s.state == Off && Dumps(w, s, base)
    case StartLater => s.state == Off && s.child.None?
    case Stop(n) => s.state != Off && n <= |s.buf|
    case Rewrite(base) => s.child.None? && Dumps(w, s, base)
    case Send(n) => s.child.Some? && !s.stop && n <= |s.blocks|
    case Hear(_) => s.child.Some? && s.ask
    case Done(_) => s.child.Some? && s.child.value.phase.Finished?
    case Kill => s.child.Some?
    case Read(n) => (ChildIn(s, Working) || ChildIn(s, Agreed)) && n <= |s.pipe|
    case Ask => ChildIn(s, Working)
    case Agree => ChildIn(s, Asked) && s.ack
    case Drain => ChildIn(s, Agreed) && s.pipe == ""
    case Finish => ChildIn(s, Drained)
    case Fail => Alive(s)
  }

  ghost function Next<D>(w: World<D>, s: Server<D>, m: Move): Server<D>
    requires Enabled(w, s, m)
  {
    match m
    case Execute(db, argv) => Feed(w, s, db, argv)
    case Flush(n) => s.(live := s.live + s.buf[..n], buf := s.buf[n..])
    case Start(base) => Fork(Cleanup(s), base).(state := Waiting)
    case StartLater => s.(state := Waiting)
    case Stop(n) => Cleanup(s).(state := Off, selected := -1, live := s.live + s.buf[..n], buf := "")
    case Rewrite(base) => Fork(s, base)
    case Send(n) => s.(pipe := s.pipe + s.blocks[..n], blocks := s.blocks[n..])
    case Hear(sent) => s.(ask := false, stop := true, ack := sent)
    case Done(ok) => if s.child.value.phase.ok && ok then Install(s) else Cleanup(s)
    case Kill => Cleanup(s)
    case Read(n) => s.(child := Some(s.child.value.(diff := s.child.value.diff + s.pipe[..n])), pipe := s.pipe[n..])
    case Ask => s.(child := Some(s.child.value.(phase := Asked)), ask := true)
    case Agree => s.(child := Some(s.child.value.(phase := Agreed)), ack := false)
    case Drain => s.(child := Some(s.child.value.(phase := Drained)))
    case Finish =>
      s.(child := Some(s.child.value.(phase := Finished(true), temp := EncodeAll(s.base) + s.child.value.diff)))
    case Fail => s.(child := Some(s.child.value.(phase := Finished(false))))
  }

  ghost predicate Init<D>(w: World<D>, s: Server<D>) {
    && s.state == On && s.live == "" && s.buf == "" && s.log == [] && s.data == w.empty
    && s.selected == -1 && s.child.None? && s.blocks == "" && s.pipe == ""
  }

  // ------------------------------------------------------------------
  // The invariant

  /** The log replays to the data set, in the database the server last wrote to. */
  ghost predicate Current<D>(w: World<D>, s: Server<D>, cmds: seq<Argv>) {
    && Replay(w, cmds).data == s.data
    && (s.selected == -1 || Replay(w, cmds).selected == s.selected)
  }

  /** The live log holds every command. */
  ghost predicate LiveOk<D>(w: World<D>, s: Server<D>) {
    s.state == On ==> s.live + s.buf == EncodeAll(s.log) && Current(w, s, s.log)
  }

  /** Nothing fed since the fork is lost, duplicated or reordered. */
  predicate Conserved<D>(s: Server<D>)
    requires s.child.Some?
  {
    s.child.value.diff + s.pipe + s.blocks == EncodeAll(s.fed)
  }

  /** The agreement to stop: once the child has it, the pipe only empties. */
  predicate Agreement<D>(s: Server<D>)
    requires s.child.Some?
  {
    var c := s.child.value;
    && (s.ack ==> s.stop)
    && (c.phase.Agreed? ==> s.stop)
    && (c.phase.Drained? || c.phase == Finished(true) ==> s.stop && s.pipe == "")
    && (c.phase == Finished(true) ==> c.temp == EncodeAll(s.base) + c.diff)
  }

  ghost predicate RewriteOk<D>(w: World<D>, s: Server<D>) {
    s.child.Some? ==>
      && Conserved(s) && Agreement(s)
      && (s.state != Off ==> Current(w, s, s.base + s.fed))
      && (s.state == Off ==> s.fed == [])
  }

  ghost predicate Inv<D>(w: World<D>, s: Server<D>) {
    LiveOk(w, s) && RewriteOk(w, s) && (s.child.None? ==> s.blocks == "")
  }

  // ------------------------------------------------------------------
  // Feeding

  lemma SelectSelects<D>(w: World<D>, s: Db<D>, db: nat)
    requires db < 0x8000_0000
    ensures Step(w, s, SelectCmd(db)) == Db(s.data, db)
  {
    assert Lower("SELECT") == "select" && Lower("select") == "select";
    ReadNumber(db, "");
    assert Dec(db) + "" == Dec(db);
  }

  lemma ReplayLast<D>(w: World<D>, cmds: seq<Argv>, argv: Argv)
    ensures Replay(w, cmds + [argv]) == Step(w, Replay(w, cmds), argv)
  {
    assert (cmds + [argv])[..|cmds|] == cmds;
  }

  /** A log that is current stays current when the next command is appended to it. */
  lemma FeedKeepsCurrent<D>(w: World<D>, s: Server<D>, cmds: seq<Argv>, db: nat, argv: Argv)
    requires Current(w, s, cmds) && db < 0x8000_0000 && !IsSelect(argv)
    ensures var r := Replay(w, cmds + FeedCmds(s.selected, db, argv));
      r == Db(w.exec(s.data, db, argv), db)
  {
    hide IsSelect, SelectCmd;
    if s.selected == db {
      ReplayLast(w, cmds, argv);
    } else {
      var sel := SelectCmd(db);
      ReplayLast(w, cmds, sel);
      SelectSelects(w, Replay(w, cmds), db);
      ReplayLast(w, cmds + [sel], argv);
      assert cmds + [sel] + [argv] == cmds + [sel, argv];
    }
  }

  lemma FeedInv<D>(w: World<D>, s: Server<D>, db: nat, argv: Argv)
    requires Inv(w, s) && db < 0x8000_0000 && !IsSelect(argv)
    ensures Inv(w, Feed(w, s, db, argv))
  {
    hide EncodeAll, FeedCmds, Replay, IsSelect;
    if s.state != Off {
      var cmds := FeedCmds(s.selected, db, argv);
      var text := EncodeAll(cmds);
      var t := Feed(w, s, db, argv);
      if s.state == On {
        EncodeAppend(s.log, cmds);
        FeedKeepsCurrent(w, s, s.log, db, argv);
        assert s.live + (s.buf + text) == (s.live + s.buf) + text;
        assert LiveOk(w, t);
      }
      if s.child.Some? {
        EncodeAppend(s.fed, cmds);
        FeedKeepsCurrent(w, s, s.base + s.fed, db, argv);
        assert s.base + (s.fed + cmds) == s.base + s.fed + cmds;
        var c := s.child.value;
        assert c.diff + s.pipe + (s.blocks + text) == (c.diff + s.pipe + s.blocks) + text;
        assert RewriteOk(w, t);
      }
    }
  }

  // ------------------------------------------------------------------
  // The other moves

  lemma ForkInv<D>(w: World<D>, s: Server<D>, base: seq<Argv>)
    requires LiveOk(w, s) && Dumps(w, s, base) && s.blocks == ""
    ensures Inv(w, Fork(s, base))
  {
    hide Replay;
    assert base + [] == base;
    assert EncodeAll([]) == "" + "" + "";
  }

  lemma MoveBytes(a: string, b: string, c: string, n: nat)
    requires n <= |b|
    ensures (a + b[..n]) + b[n..] + c == a + b + c
  {
    assert b == b[..n] + b[n..];
  }

  lemma SendInv<D>(w: World<D>, s: Server<D>, n: nat)
    requires Inv(w, s) && s.child.Some? && !s.stop && n <= |s.blocks|
    ensures Inv(w, Next(w, s, Send(n)))
  {
    hide Replay, EncodeAll;
    var c := s.child.value;
    assert c.diff + (s.pipe + s.blocks[..n]) + s.blocks[n..] == c.diff + s.pipe + s.blocks by {
      assert s.blocks == s.blocks[..n] + s.blocks[n..];
    }
  }

  lemma ReadInv<D>(w: World<D>, s: Server<D>, n: nat)
    requires Inv(w, s) && (ChildIn(s, Working) || ChildIn(s, Agreed)) && n <= |s.pipe|
    ensures Inv(w, Next(w, s, Read(n)))
  {
    hide Replay, EncodeAll;
    MoveBytes(s.child.value.diff, s.pipe, s.blocks, n);
  }

  lemma FlushInv<D>(w: World<D>, s: Server<D>, n: nat)
    requires Inv(w, s) && s.state == On && n <= |s.buf|
    ensures Inv(w, Next(w, s, Flush(n)))
  {
    hide Replay, EncodeAll;
    assert (s.live + s.buf[..n]) + s.buf[n..] == s.live + s.buf by {
      assert s.buf == s.buf[..n] + s.buf[n..];
    }
  }

  /** At the end of a successful rewrite the new file is the dump followed by everything fed since. */
  lemma InstallGives<D>(w: World<D>, s: Server<D>)
    requires RewriteOk(w, s) && ChildIn(s, Finished(true))
    ensures s.child.value.temp + s.blocks == EncodeAll(s.base + s.fed)
  {
    hide Replay, EncodeAll;
    var c := s.child.value;
    EncodeAppend(s.base, s.fed);
    assert c.diff + "" + s.blocks == c.diff + s.blocks;
    assert (EncodeAll(s.base) + c.diff) + s.blocks == EncodeAll(s.base) + (c.diff + s.blocks);
  }

  lemma InstallInv<D>(w: World<D>, s: Server<D>)
    requires Inv(w, s) && ChildIn(s, Finished(true))
    ensures Inv(w, Install(s))
  {
    InstallGives(w, s);
    hide Replay, EncodeAll;
    var t := Install(s);
    assert t.live + "" == t.live;
  }

  /** Every move keeps the invariant. */
  lemma NextInv<D>(w: World<D>, s: Server<D>, m: Move)
    requires Inv(w, s) && Enabled(w, s, m)
    ensures Inv(w, Next(w, s, m))
  {
    hide Replay, EncodeAll, Feed;
    match m {
      case Execute(db, argv) => FeedInv(w, s, db, argv);
      case Flush(n) => FlushInv(w, s, n);
      case Start(base) => ForkInv(w, Cleanup(s).(state := Waiting), base);
      case Rewrite(base) => ForkInv(w, s, base);
      case Send(n) => SendInv(w, s, n);
      case Read(n) => ReadInv(w, s, n);
      case Done(ok) => if s.child.value.phase.ok && ok { InstallInv(w, s); }
      case _ =>
    }
  }

  ghost predicate IsRun<D>(w: World<D>, states: seq<Server<D>>, moves: seq<Move>) {
    && |states| == |moves| + 1
    && Init(w, states[0])
    && forall i {:trigger moves[i]} :: 0 <= i < |moves| ==> IsMove(w, states[i], moves[i], states[i + 1])
  }

  ghost predicate IsMove<D>(w: World<D>, s: Server<D>, m: Move, t: Server<D>) {
    Enabled(w, s, m) && t == Next(w, s, m)
  }

  /** The invariant holds at every point of every run. */
  lemma {:induction false} RunInv<D>(w: World<D>, states: seq<Server<D>>, moves: seq<Move>, i: nat)
    requires IsRun(w, states, moves) && i < |states|
    ensures Inv(w, states[i])
    decreases i
  {
    hide Enabled, Next, Inv;
    if i == 0 {
      InitInv(w, states[0]);
    } else {
      RunInv(w, states, moves, i - 1);
      assert IsMove(w, states[i - 1], moves[i - 1], states[i]);
      NextInv(w, states[i - 1], moves[i - 1]);
    }
  }

  lemma InitInv<D>(w: World<D>, s: Server<D>)
    requires Init(w, s)
    ensures Inv(w, s)
  {
    assert s.live + s.buf == EncodeAll(s.log);
  }

  // ------------------------------------------------------------------
  // Main results

  /** In every run, after every move: while a rewrite is on, what the child has read, what is in the pipe
      and what waits in the blocks are together exactly what was fed since the fork. */
  lemma NothingIsLost<D>(w: World<D>, states: seq<Server<D>>, moves: seq<Move>, i: nat)
    requires IsRun(w, states, moves) && i < |states| && states[i].child.Some?
    ensures states[i].child.value.diff + states[i].pipe + states[i].blocks == EncodeAll(states[i].fed)
  {
    RunInv(w, states, moves, i);
  }

  /** A rewrite that succeeds leaves a file that holds the dump and then, in order and once each, the
      commands fed since the fork; it replays to the current data set, nothing is left in the buffer,
      and the next command will select its database. */
  lemma RewriteSucceeds<D>(w: World<D>, states: seq<Server<D>>, moves: seq<Move>, i: nat)
    requires IsRun(w, states, moves) && i < |moves| && moves[i] == Done(true)
    requires ChildIn(states[i], Finished(true)) && states[i].state != Off
    ensures var s, t := states[i], states[i + 1];
      && t.live == EncodeAll(s.base) + EncodeAll(s.fed) && t.buf == "" && t.state == On
      && t.data == s.data && Replay(w, s.base + s.fed).data == t.data && t.selected == -1
  {
    hide Replay, EncodeAll;
    var s := states[i];
    RunInv(w, states, moves, i);
    assert IsMove(w, s, moves[i], states[i + 1]);
    InstallGives(w, s);
    EncodeAppend(s.base, s.fed);
  }

  /** A rewrite that fails, in the child or in the server, leaves the live file and its buffer alone. */
  lemma RewriteFails<D>(w: World<D>, states: seq<Server<D>>, moves: seq<Move>, i: nat)
    requires IsRun(w, states, moves) && i < |moves|
    requires moves[i].Kill? || moves[i] == Done(false) || (moves[i].Done? && ChildIn(states[i], Finished(false)))
    ensures var s, t := states[i], states[i + 1];
      && t.live == s.live && t.buf == s.buf && t.state == s.state && t.selected == s.selected && t.log == s.log
      && (t.state == On ==> t.live + t.buf == EncodeAll(t.log) && Replay(w, t.log).data == t.data)
  {
    hide Replay, EncodeAll;
    RunInv(w, states, moves, i + 1);
    assert IsMove(w, states[i], moves[i], states[i + 1]);
  }

  /** Turning the log off: what is flushed by then stays in the file, which holds every command if all of it is, and a
      rewrite that was on is given up. */
  lemma StopKeepsTheLog<D>(w: World<D>, states: seq<Server<D>>, moves: seq<Move>, i: nat)
    requires IsRun(w, states, moves) && i < |moves| && moves[i].Stop? && states[i].state == On
    ensures var s, t := states[i], states[i + 1];
      && s.live <= t.live <= EncodeAll(s.log) && |t.live| == |s.live| + moves[i].n
      && (moves[i].n == |s.buf| ==> t.live == EncodeAll(s.log))
      && t.state == Off && t.child.None? && t.blocks == "" && t.data == s.data
  {
    hide Replay, EncodeAll;
    RunInv(w, states, moves, i);
    assert IsMove(w, states[i], moves[i], states[i + 1]);
    var s, n := states[i], moves[i].n;
    assert s.buf == s.buf[..n] + s.buf[n..];
  }

  /** The moves that bring a rewrite to its end: the child asks, the server agrees, the child reads the rest of the pipe
      and writes its file, and the server installs it. */
  function Ending<D>(s: Server<D>): seq<Move> {
    [Ask, Hear(true), Agree, Read(|s.pipe|), Drain, Finish, Done(true)]
  }

  /** The same rewrite. */
  ghost predicate Same<D>(s: Server<D>, t: Server<D>) {
    s.base == t.base && s.fed == t.fed && s.state == t.state && s.data == t.data
  }

  lemma AgreementReached<D>(w: World<D>, s: Server<D>) returns (s1: Server<D>, s2: Server<D>, s3: Server<D>)
    requires Inv(w, s) && ChildIn(s, Working)
    ensures IsMove(w, s, Ask, s1) && IsMove(w, s1, Hear(true), s2) && IsMove(w, s2, Agree, s3)
    ensures Inv(w, s3) && ChildIn(s3, Agreed) && s3.pipe == s.pipe && Same(s, s3)
  {
    hide Inv, Feed, Fork, Cleanup, Install;
    s1 := Next(w, s, Ask);
    NextInv(w, s, Ask);
    s2 := Next(w, s1, Hear(true));
    NextInv(w, s1, Hear(true));
    s3 := Next(w, s2, Agree);
    NextInv(w, s2, Agree);
  }

  lemma FileWritten<D>(w: World<D>, s: Server<D>) returns (s1: Server<D>, s2: Server<D>, s3: Server<D>)
    requires Inv(w, s) && ChildIn(s, Agreed)
    ensures IsMove(w, s, Read(|s.pipe|), s1) && IsMove(w, s1, Drain, s2) && IsMove(w, s2, Finish, s3)
    ensures Inv(w, s3) && ChildIn(s3, Finished(true)) && Same(s, s3)
  {
    hide Inv, Feed, Fork, Cleanup, Install, EncodeAll;
    s1 := Next(w, s, Read(|s.pipe|));
    NextInv(w, s, Read(|s.pipe|));
    s2 := Next(w, s1, Drain);
    NextInv(w, s1, Drain);
    s3 := Next(w, s2, Finish);
    NextInv(w, s2, Finish);
  }

  /** From every state of every run in which a child dumps, these moves are possible one after the other, and they end
      with the new file in place of the old one. */
  lemma RewriteCanEnd<D>(w: World<D>, s: Server<D>) returns (states: seq<Server<D>>)
    requires Inv(w, s) && ChildIn(s, Working) && s.state != Off
    ensures |states| == 8 && states[0] == s
    ensures forall i | 0 <= i < 7 :: IsMove(w, states[i], Ending(s)[i], states[i + 1])
    ensures states[7].live == EncodeAll(s.base) + EncodeAll(s.fed) && states[7].child.None?
    ensures states[7].state == On && states[7].data == s.data
  {
    hide Inv, IsMove, EncodeAll;
    var s1, s2, s3 := AgreementReached(w, s);
    var s4, s5, s6 := FileWritten(w, s3);
    var s7 := LastMove(w, s6);
    states := [s, s1, s2, s3, s4, s5, s6, s7];
  }

  lemma Installed<D>(w: World<D>, s: Server<D>) returns (t: Server<D>)
    requires ChildIn(s, Finished(true)) && s.state != Off
    ensures IsMove(w, s, Done(true), t)
    ensures t.live == s.child.value.temp + s.blocks && t.child.None? && t.state == On && t.data == s.data
  {
    hide EncodeAll, Replay, Feed, Fork, Dumps;
    t := Next(w, s, Done(true));
  }

  lemma LastMove<D>(w: World<D>, s: Server<D>) returns (t: Server<D>)
    requires Inv(w, s) && ChildIn(s, Finished(true)) && s.state != Off
    ensures IsMove(w, s, Done(true), t)
    ensures t.live == EncodeAll(s.base) + EncodeAll(s.fed) && t.child.None? && t.state == On && t.data == s.data
  {
    InvParts(w, s);
    hide *;
    InstallGives(w, s);
    EncodeAppend(s.base, s.fed);
    t := Installed(w, s);
  }

  lemma InvParts<D>(w: World<D>, s: Server<D>)
    requires Inv(w, s)
    ensures RewriteOk(w, s)
  {
  }

  /** The rewritten file loads, and the loader executes the dump and then the fed commands. */
  lemma RewrittenFileLoads<D>(w: World<D>, states: seq<Server<D>>, moves: seq<Move>, i: nat, config: Config)
    requires IsRun(w, states, moves) && i < |moves| && moves[i] == Done(true) && ChildIn(states[i], Finished(true))
    requires states[i].state != Off && LogOk(config, states[i].base + states[i].fed)
    ensures AofLoader.Executed(Load(config, states[i + 1].live))
         == RunAll(IDLE, states[i].base + states[i].fed).executed
  {
    hide Replay, EncodeAll, Load, LogOk;
    var s := states[i];
    RewriteSucceeds(w, states, moves, i);
    EncodeAppend(s.base, s.fed);
    AofLoader.WholeLog(config, s.base + s.fed);
  }

  // ------------------------------------------------------------------
  // What the loader executes rebuilds the data

  /** MULTI and EXEC change no data by themselves. */
  ghost predicate IgnoresBrackets<D(!new)>(w: World<D>) {
    forall d: D, db: int, argv: Argv :: IsMulti(argv) || IsExec(argv) ==> w.exec(d, db, argv) == d
  }

  /** What was executed, followed by what is queued. */
  function Seen(c: Client): seq<Argv> {
    c.executed + if c.queue.Some? then c.queue.value else []
  }

  lemma BracketStep<D(!new)>(w: World<D>, s: Db<D>, argv: Argv)
    requires IgnoresBrackets(w) && (IsMulti(argv) || IsExec(argv))
    ensures Step(w, s, argv) == s
  {
    assert !IsSelect(argv) by {
      assert |Lower("multi")| == 5 && |Lower("exec")| == 4 && |Lower("select")| == 6;
    }
  }

  lemma SeenCases(c: Client, argv: Argv)
    ensures
      || Seen(Run(c, argv)) == Seen(c) + [argv]
      || ((IsMulti(argv) || IsExec(argv)) && Seen(Run(c, argv)) == Seen(c))
  {
    hide IsMulti, IsExec;
    if c.queue.Some? {
      assert c.executed + (c.queue.value + [argv]) == Seen(c) + [argv];
      assert c.executed + c.queue.value + [] == Seen(c);
    } else {
      assert c.executed + [] == Seen(c) && (c.executed + [argv]) + [] == Seen(c) + [argv];
    }
  }

  /** One more command in the log and one more command seen by the client do the same. */
  lemma SeenNext<D(!new)>(w: World<D>, c: Client, argv: Argv, cmds: seq<Argv>)
    requires IgnoresBrackets(w) && Replay(w, Seen(c)) == Replay(w, cmds)
    ensures Replay(w, Seen(Run(c, argv))) == Replay(w, cmds + [argv])
  {
    hide IgnoresBrackets, IsMulti, IsExec, Step, Replay, Seen, Run;
    ReplayLast(w, cmds, argv);
    SeenCases(c, argv);
    if Seen(Run(c, argv)) == Seen(c) + [argv] {
      ReplayLast(w, Seen(c), argv);
    } else {
      BracketStep(w, Replay(w, cmds), argv);
    }
  }

  lemma {:induction false} SeenReplays<D(!new)>(w: World<D>, cmds: seq<Argv>)
    requires IgnoresBrackets(w)
    ensures Replay(w, Seen(RunAll(IDLE, cmds))) == Replay(w, cmds)
    decreases |cmds|
  {
    hide IgnoresBrackets, Run;
    if cmds == [] {
      assert Seen(IDLE) == [];
    } else {
      var n := |cmds| - 1;
      SeenReplays(w, cmds[..n]);
      SeenNext(w, RunAll(IDLE, cmds[..n]), cmds[n], cmds[..n]);
      assert cmds[..n] + [cmds[n]] == cmds;
    }
  }

  /** A log without transactions, or with whole ones whose MULTI and EXEC change no data. */
  ghost predicate Rebuilds<D(!new)>(w: World<D>, cmds: seq<Argv>) {
    || (forall i :: 0 <= i < |cmds| ==> IsPlain(cmds[i]))
    || (IgnoresBrackets(w) && RunAll(IDLE, cmds).queue.None?)
  }

  lemma ExecutedReplays<D(!new)>(w: World<D>, cmds: seq<Argv>)
    requires Rebuilds(w, cmds)
    ensures Replay(w, RunAll(IDLE, cmds).executed) == Replay(w, cmds)
  {
    hide Replay, IgnoresBrackets, IsPlain;
    if forall i :: 0 <= i < |cmds| ==> IsPlain(cmds[i]) {
      PlainRun(cmds, |cmds|);
      assert cmds[..|cmds|] == cmds;
    } else {
      SeenReplays(w, cmds);
      var c := RunAll(IDLE, cmds);
      assert Seen(c) == c.executed;
    }
  }

  /** Loading the rewritten file rebuilds the current data set. */
  lemma LoadRebuildsData<D(!new)>(w: World<D>, states: seq<Server<D>>, moves: seq<Move>, i: nat, config: Config)
    requires IsRun(w, states, moves) && i < |moves| && moves[i] == Done(true) && ChildIn(states[i], Finished(true))
    requires states[i].state != Off && LogOk(config, states[i].base + states[i].fed)
    requires Rebuilds(w, states[i].base + states[i].fed)
    ensures Replay(w, AofLoader.Executed(Load(config, states[i + 1].live))).data == states[i + 1].data
  {
    hide Replay, EncodeAll, Load, LogOk, Rebuilds;
    RewriteSucceeds(w, states, moves, i);
    RewrittenFileLoads(w, states, moves, i, config);
    ExecutedReplays(w, states[i].base + states[i].fed);
  }
}
