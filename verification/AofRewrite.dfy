/** The server's side of a background rewrite: the list of buffer blocks and the event handlers. */
module AofRewrite {
  import opened Options
  import opened AofLog
  import opened AofLoader
  import opened AofRewriteSpec

  const BLOCK_SIZE := 1024 * 1024 * 10

  /** `aofrwblock`. */
  class Block {
    var used: nat
    var free: nat
    const buf: array<char>

    ghost predicate Ok()
      reads this
    {
      buf.Length == BLOCK_SIZE && used + free == BLOCK_SIZE
    }

    ghost function Text(): string
      requires Ok()
      reads this, buf
    {
      buf[..used]
    }

    constructor ()
      ensures Ok() && used == 0 && fresh(buf)
    {
      used, free := 0, BLOCK_SIZE;
      buf := new char[BLOCK_SIZE];
    }

    /** Copy as much of `s` as fits. */
    method Fill(s: string) returns (n: nat)
      requires Ok()
      modifies this, buf
      ensures Ok() && n == (if old(free) < |s| then old(free) else |s|)
      ensures Text() == old(Text()) + s[..n]
      ensures free == old(free) - n
    {
      n := if free < |s| then free else |s|;
      forall i | 0 <= i < n {
        buf[used + i] := s[i];
      }
      used, free := used + n, free - n;
    }

    /** `memmove` the bytes after the first `n` to the front. */
    method Drop(n: nat)
      requires Ok() && n <= used
      modifies this, buf
      ensures Ok() && Text() == old(Text())[n..] && used == old(used) - n
    {
      forall i | 0 <= i < used - n {
        buf[i] := buf[i + n];
      }
      used, free := used - n, free + n;
    }
  }

  /** The objects of a list of blocks. */
  ghost function Parts(bs: seq<Block>): set<object> {
    (set b: Block | b in bs :: b as object) + (set b: Block | b in bs :: b.buf as object)
  }

  ghost predicate Sound(bs: seq<Block>)
    reads bs
  {
    && (forall i :: 0 <= i < |bs| ==> bs[i].Ok())
    && (forall i, j :: 0 <= i < j < |bs| ==> bs[i] != bs[j] && bs[i].buf != bs[j].buf)
  }

  ghost function Texts(bs: seq<Block>): string
    requires Sound(bs)
    reads bs, Parts(bs)
  {
    if bs == [] then "" else Texts(bs[..|bs| - 1]) + bs[|bs| - 1].Text()
  }

  lemma {:induction false} TextsFirst(bs: seq<Block>)
    requires Sound(bs) && bs != []
    ensures Texts(bs) == bs[0].Text() + Texts(bs[1..])
    decreases |bs|
  {
    if |bs| > 1 {
      TextsFirst(bs[..|bs| - 1]);
      assert bs[..|bs| - 1][1..] == bs[1..][..|bs| - 2];
    }
  }

  lemma PartsLast(bs: seq<Block>, b: Block)
    ensures Parts(bs + [b]) <= Parts(bs) + {b, b.buf}
  {
    forall o | o in Parts(bs + [b]) ensures o in Parts(bs) + {b, b.buf} {
    }
  }

  /** The first block is apart from the others. */
  lemma Separate(bs: seq<Block>)
    requires Sound(bs) && bs != []
    ensures Sound(bs[1..]) && Parts(bs[1..]) <= Parts(bs)
    ensures bs[0] in Parts(bs) && bs[0].buf in Parts(bs)
    ensures bs[0] !in Parts(bs[1..]) && bs[0].buf !in Parts(bs[1..])
  {
    var tail := bs[1..];
    assert bs[0] in bs && forall i :: 0 <= i < |tail| ==> tail[i] == bs[i + 1] && tail[i] in bs;
    assert forall b :: b in tail ==> b in bs && b != bs[0] && b.buf != bs[0].buf;
  }

  lemma NoText(bs: seq<Block>)
    requires Sound(bs)
    ensures bs == [] ==> Texts(bs) == ""
  {
  }

  lemma HasText(bs: seq<Block>)
    requires Sound(bs) && bs != [] && bs[0].used > 0
    ensures |Texts(bs)| > 0
  {
    TextsFirst(bs);
  }

  /** Every write takes all it is given. */
  predicate AllTaken(script: seq<int>) {
    forall i :: 0 <= i < |script| ==> script[i] >= BLOCK_SIZE
  }

  class Buffer {
    var blocks: seq<Block>
    /** `aof_stop_sending_diff`. */
    var stop: bool
    /** The handler that writes to the child is installed. */
    var sending: bool

    /** As long as sending is allowed, waiting bytes have a handler that will send them. */
    ghost predicate Valid()
      reads this, blocks
    {
      && Sound(blocks)
      && this !in Parts(blocks)
      && (blocks != [] && !stop ==> sending)
    }

    ghost function Text(): string
      requires Sound(blocks)
      reads this, blocks, Parts(blocks)
    {
      Texts(blocks)
    }

    constructor ()
      ensures Valid() && Text() == "" && blocks == [] && !stop
    {
      blocks, stop, sending := [], false, false;
    }

    /** `aofRewriteBufferReset`, and the end of the data pipe. */
    method Reset()
      modifies this`blocks, this`sending
      ensures Valid() && Text() == "" && blocks == []
    {
      blocks, sending := [], false;
    }

    /** Append to the last block. */
    method FillLast(s: string) returns (n: nat)
      requires Sound(blocks) && this !in Parts(blocks) && blocks != []
      modifies Parts(blocks)
      ensures Sound(blocks) && n <= |s| && Text() == old(Text()) + s[..n]
      ensures n == |s| || blocks[|blocks| - 1].free == 0
      ensures old(blocks[|blocks| - 1].free) > 0 && s != "" ==> n > 0
    {
      var k := |blocks| - 1;
      var last := blocks[k];
      ghost var init := blocks[..k];
      assert last !in Parts(init) && last.buf !in Parts(init);
      n := last.Fill(s);
      assert Sound(init);
    }

    method NewBlock() returns (b: Block)
      requires Sound(blocks) && this !in Parts(blocks)
      modifies this`blocks
      ensures Sound(blocks) && this !in Parts(blocks) && blocks != [] && blocks[|blocks| - 1].free > 0
      ensures Text() == old(Text()) && fresh(b) && fresh(b.buf) && blocks == old(blocks) + [b]
    {
      b := new Block();
      ghost var bs := blocks;
      blocks := blocks + [b];
      assert blocks[..|bs|] == bs;
      assert b.Text() == "";
    }

    /** One pass of the loop of `aofRewriteBufferAppend`. */
    method AppendSome(s: string) returns (n: nat)
      requires Sound(blocks) && this !in Parts(blocks) && s != ""
      modifies this`blocks, Parts(blocks)
      ensures Sound(blocks) && this !in Parts(blocks) && blocks != []
      ensures forall o | o in Parts(blocks) :: o in old(Parts(blocks)) || fresh(o)
      ensures n <= |s| && Text() == old(Text()) + s[..n]
      ensures n < |s| ==> blocks[|blocks| - 1].free > 0
      ensures old(blocks != [] && blocks[|blocks| - 1].free > 0) ==> n > 0
    {
      hide Parts, Texts, Sound;
      n := 0;
      if blocks != [] {
        n := FillLast(s);
      }
      if n < |s| {
        ghost var before := blocks;
        var b := NewBlock();
        PartsLast(before, b);
      }
    }

    /** `aofRewriteBufferAppend`. */
    method Append(s: string)
      requires Valid()
      modifies this, Parts(blocks)
      ensures Valid() && Text() == old(Text()) + s && stop == old(stop)
      ensures fresh(Parts(blocks) - old(Parts(blocks)))
    {
      hide Parts, Texts, Sound;
      var rest := s;
      while rest != ""
        invariant Sound(blocks) && this !in Parts(blocks) && stop == old(stop) && sending == old(sending)
        invariant forall o | o in Parts(blocks) :: o in old(Parts(blocks)) || fresh(o)
        invariant Text() + rest == old(Text()) + s
        invariant old(blocks) != [] ==> blocks != []
        decreases |rest|, if blocks == [] || blocks[|blocks| - 1].free == 0 then 1 else 0
      {
        var n := AppendSome(rest);
        assert rest == rest[..n] + rest[n..];
        rest := rest[n..];
      }
      if !stop && !sending {
        sending := true;
      }
    }

    /** Take `n` bytes off the first block. */
    method Send(n: nat) returns (sent: string)
      requires Sound(blocks) && this !in Parts(blocks) && blocks != [] && n <= blocks[0].used
      modifies Parts(blocks)
      ensures Sound(blocks) && |sent| == n && old(Text()) == sent + Text()
      ensures blocks[0].used == old(blocks[0].used) - n
    {
      hide Texts;
      var first := blocks[0];
      ghost var tail := blocks[1..];
      Separate(blocks);
      TextsFirst(blocks);
      sent := first.buf[..n];
      assert old(first.Text()) == sent + first.buf[n..first.used];
      first.Drop(n);
      assert Sound(tail);
      assert Texts(tail) == old(Texts(tail));
      TextsFirst(blocks);
    }

    method DropFirst()
      requires Sound(blocks) && this !in Parts(blocks) && blocks != [] && blocks[0].used == 0
      modifies this`blocks
      ensures Sound(blocks) && this !in Parts(blocks) && Text() == old(Text()) && blocks == old(blocks)[1..]
      ensures Parts(blocks) <= old(Parts(blocks))
    {
      hide Texts, Parts;
      Separate(blocks);
      TextsFirst(blocks);
      assert blocks[0].Text() == "";
      blocks := blocks[1..];
    }

    /** `aofChildWriteDiffData`; `script` is what successive `write` calls return, and after its end
        the pipe is full. */
    method ChildWriteDiffData(script: seq<int>) returns (sent: string)
      requires Valid()
      modifies this`blocks, this`sending, Parts(blocks)
      ensures Valid() && Parts(blocks) <= old(Parts(blocks))
      ensures old(Text()) == sent + Text()
      ensures stop ==> sent == "" && !sending
      ensures !stop && (forall i :: 0 <= i < |script| ==> script[i] > 0) && |script| >= |old(Text())| ==>
        sent == old(Text()) && !sending
    {
      hide Parts, Texts, Sound;
      sent := "";
      var i := 0;
      while true
        invariant Valid() && Parts(blocks) <= old(Parts(blocks)) && 0 <= i <= |script|
        invariant old(Text()) == sent + Text()
        invariant stop ==> sent == ""
        invariant |sent| >= i
        decreases |script| - i, |blocks|
      {
        if stop || blocks == [] {
          NoText(blocks);
          sending := false;
          return;
        }
        if blocks[0].used > 0 {
          HasText(blocks);
          if i == |script| || script[i] <= 0 {
            return;
          }
          var n := if script[i] <= blocks[0].used then script[i] else blocks[0].used;
          var part := Send(n);
          sent := sent + part;
          i := i + 1;
        }
        if blocks[0].used == 0 {
          DropFirst();
        }
      }
    }

    lemma TextsNext(k: nat)
      requires Sound(blocks) && k < |blocks|
      ensures Sound(blocks[..k]) && Sound(blocks[..k + 1])
      ensures Texts(blocks[..k + 1]) == Texts(blocks[..k]) + blocks[k].Text()
    {
      assert blocks[..k + 1][..k] == blocks[..k];
    }

    /** `aofRewriteBufferWrite`: the whole buffer, or an error at the first write that is not complete. */
    method WriteTo(script: seq<int>) returns (ok: bool, written: string)
      requires Valid()
      ensures ok ==> written == Text()
      ensures !ok ==> written <= Text()
      ensures AllTaken(script) && |script| >= |blocks| ==> ok
    {
      written := "";
      var calls := 0;
      assert Sound(blocks[..0]) && Texts(blocks[..0]) == "";
      for k := 0 to |blocks|
        invariant 0 <= calls <= k && calls <= |script|
        invariant Sound(blocks[..k]) && written == Texts(blocks[..k])
      {
        TextsPrefix(blocks, k);
        TextsNext(k);
        var b := blocks[k];
        if b.used > 0 {
          if calls == |script| || script[calls] < b.used {
            return false, written;
          }
          written := written + b.buf[..b.used];
          calls := calls + 1;
        }
      }
      assert blocks[..|blocks|] == blocks;
      return true, written;
    }

    /** `aofRewriteBufferSize`. */
    method Size() returns (n: nat)
      requires Valid()
      ensures n == |Text()|
    {
      n := 0;
      for k := 0 to |blocks|
        invariant Sound(blocks[..k]) && n == |Texts(blocks[..k])|
      {
        assert blocks[..k + 1][..k] == blocks[..k];
        n := n + blocks[k].used;
      }
      assert blocks[..|blocks|] == blocks;
    }
  }

  lemma {:induction false} TextsPrefix(bs: seq<Block>, k: nat)
    requires Sound(bs) && k <= |bs|
    ensures Sound(bs[..k]) && Texts(bs[..k]) <= Texts(bs)
    decreases |bs| - k
  {
    if k == |bs| {
      assert bs[..k] == bs;
    } else {
      TextsPrefix(bs, k + 1);
      assert bs[..k + 1][..k] == bs[..k];
    }
  }

  // ------------------------------------------------------------------
  // The server's side of the protocol

  /** What the server itself holds of a protocol state; the stop flag matters only while there is a child. */
  datatype Side = Side(state: State, live: string, buf: string, selected: int, pending: string, child: bool, stop: bool)

  function SideOf<D>(s: AofRewriteSpec.Server<D>): Side {
    Side(s.state, s.live, s.buf, s.selected, s.blocks, s.child.Some?, s.child.Some? && s.stop)
  }

  /** The file that a child which finished well leaves. */
  function Result<D>(s: AofRewriteSpec.Server<D>): Option<string> {
    if ChildIn(s, Finished(true)) then Some(s.child.value.temp) else None
  }

  function Cleaned(x: Side): Side {
    x.(pending := "", child := false, stop := false)
  }

  /** What a move does to the server's side; the child's moves do nothing to it. */
  function SideMove(x: Side, m: Move, result: Option<string>): Side
    requires m.Send? ==> m.n <= |x.pending|
    requires m.Flush? || m.Stop? ==> m.n <= |x.buf|
  {
    match m
    case Execute(db, argv) =>
      if x.state == Off then x else
      var text := EncodeAll(FeedCmds(x.selected, db, argv));
      x.(selected := db, buf := if x.state == On then x.buf + text else x.buf,
         pending := if x.child then x.pending + text else x.pending)
    case Flush(n) => x.(live := x.live + x.buf[..n], buf := x.buf[n..])
    case Start(_) => x.(state := Waiting, pending := "", child := true, stop := false, selected := -1)
    case StartLater => x.(state := Waiting)
    case Stop(n) => Cleaned(x).(state := Off, selected := -1, live := x.live + x.buf[..n], buf := "")
    case Rewrite(_) => x.(child := true, stop := false, selected := -1)
    case Send(n) => x.(pending := x.pending[n..])
    case Hear(_) => x.(stop := x.child)
    case Done(ok) =>
      if !ok || result.None? then Cleaned(x) else
      var live := result.value + x.pending;
      if x.state == Off then Cleaned(x).(live := live)
      else Cleaned(x).(live := live, buf := "", selected := -1, state := On)
    case Kill => Cleaned(x)
    case Read(_) => x
    case Ask => x
    case Agree => x
    case Drain => x
    case Finish => x
    case Fail => x
  }

  lemma FeedSide<D>(w: World<D>, s: AofRewriteSpec.Server<D>, db: nat, argv: Argv)
    ensures SideOf(AofRewriteSpec.Feed(w, s, db, argv)) == SideMove(SideOf(s), Execute(db, argv), Result(s))
  {
    hide EncodeAll, FeedCmds, Result;
  }

  lemma CleanupSide<D>(s: AofRewriteSpec.Server<D>)
    ensures SideOf(Cleanup(s)) == Cleaned(SideOf(s))
  {
  }

  lemma ForkSide<D>(s: AofRewriteSpec.Server<D>, base: seq<Argv>)
    ensures SideOf(AofRewriteSpec.Fork(s, base)) == SideMove(SideOf(s), Rewrite(base), Result(s))
  {
    hide EncodeAll, FeedCmds, Result;
  }

  lemma DoneSide<D>(w: World<D>, s: AofRewriteSpec.Server<D>, ok: bool)
    requires AofRewriteSpec.Enabled(w, s, Done(ok))
    ensures SideOf(AofRewriteSpec.Next(w, s, Done(ok))) == SideMove(SideOf(s), Done(ok), Result(s))
  {
    hide EncodeAll, FeedCmds, Feed, Fork;
  }

  lemma ByteSide<D>(w: World<D>, s: AofRewriteSpec.Server<D>, m: Move)
    requires (m.Flush? || m.Send? || m.Stop? || m.Hear? || m.StartLater?) && AofRewriteSpec.Enabled(w, s, m)
    ensures SideOf(AofRewriteSpec.Next(w, s, m)) == SideMove(SideOf(s), m, Result(s))
  {
    hide EncodeAll, FeedCmds, Result, Feed, Fork, Install;
  }

  lemma ChildSide<D>(w: World<D>, s: AofRewriteSpec.Server<D>, m: Move)
    requires m.Read? || m.Ask? || m.Agree? || m.Drain? || m.Finish? || m.Fail?
    requires AofRewriteSpec.Enabled(w, s, m)
    ensures SideOf(AofRewriteSpec.Next(w, s, m)) == SideMove(SideOf(s), m, Result(s))
  {
    hide EncodeAll, FeedCmds, Result, Feed, Fork, Install, Cleanup;
  }

  /** On the server's side every move of the protocol is the move that the methods below are proved to make. */
  lemma MovesAreHandlers<D>(w: World<D>, s: AofRewriteSpec.Server<D>, m: Move)
    requires AofRewriteSpec.Enabled(w, s, m)
    ensures SideOf(AofRewriteSpec.Next(w, s, m)) == SideMove(SideOf(s), m, Result(s))
  {
    hide EncodeAll, FeedCmds, Result, Feed, Fork, Install, Cleanup;
    match m {
      case Execute(db, argv) => FeedSide(w, s, db, argv);
      case Done(ok) => DoneSide(w, s, ok);
      case Rewrite(base) => ForkSide(s, base);
      case Start(base) =>
        CleanupSide(s);
        ForkSide(Cleanup(s), base);
      case Kill => CleanupSide(s);
      case Flush(n) => ByteSide(w, s, m);
      case Send(n) => ByteSide(w, s, m);
      case Stop(n) => ByteSide(w, s, m);
      case Hear(_) => ByteSide(w, s, m);
      case StartLater => ByteSide(w, s, m);
      case _ => ChildSide(w, s, m);
    }
  }

  /** The part of the server that takes part in a rewrite. */
  class Server {
    var state: State
    var live: string
    var buf: string
    var selected: int
    var child: bool
    /** The `!` written back to the child. */
    var acked: bool
    const rewrite: Buffer

    ghost predicate Valid()
      reads this, rewrite, rewrite.blocks
    {
      && rewrite.Valid() && this as object !in Parts(rewrite.blocks)
      && (!child ==> rewrite.blocks == [])
    }

    ghost function Pending(): string
      requires Valid()
      reads this, rewrite, rewrite.blocks, Parts(rewrite.blocks)
    {
      rewrite.Text()
    }

    ghost function Abs(): Side
      requires Valid()
      reads this, rewrite, rewrite.blocks, Parts(rewrite.blocks)
    {
      Side(state, live, buf, selected, Pending(), child, child && rewrite.stop)
    }

    constructor ()
      ensures Valid() && Pending() == "" && state == On && live == "" && buf == "" && selected == -1 && !child
      ensures fresh(rewrite) && rewrite.blocks == []
    {
      state, live, buf, selected, child, acked := On, "", "", -1, false, false;
      rewrite := new Buffer();
    }

    /** `feedAppendOnlyFile`, for a command that needs no translation. */
    method Feed(db: nat, argv: Argv)
      requires Valid()
      modifies this, rewrite, Parts(rewrite.blocks)
      ensures Valid() && fresh(Parts(rewrite.blocks) - old(Parts(rewrite.blocks)))
      ensures selected == db && state == old(state) && live == old(live) && child == old(child)
      ensures rewrite.stop == old(rewrite.stop)
      ensures var text := EncodeAll(FeedCmds(old(selected), db, argv));
        && buf == (if state == On then old(buf) + text else old(buf))
        && Pending() == if child then old(Pending()) + text else old(Pending())
      ensures state != Off ==> Abs() == SideMove(old(Abs()), Execute(db, argv), None)
    {
      hide EncodeAll, FeedCmds, Texts;
      var text := FeedText(selected, db, argv);
      selected := db;
      if state == On {
        buf := buf + text;
      }
      if child {
        rewrite.Append(text);
      }
    }

    /** `rewriteAppendOnlyFileBackground` in the server, when the fork works. */
    method Fork()
      requires Valid() && !child
      modifies this, rewrite
      ensures Valid() && Pending() == "" && child && selected == -1 && !rewrite.stop && !acked
      ensures Abs() == SideMove(old(Abs()), Rewrite([]), None)
    {
      rewrite.stop := false;
      child, selected, acked := true, -1, false;
    }

    /** The event handler that sends the rewrite buffer to the child. */
    method SendDiff(script: seq<int>) returns (sent: string)
      requires Valid() && child
      modifies rewrite, Parts(rewrite.blocks)
      ensures Valid() && sent <= old(Pending())
      ensures Abs() == SideMove(old(Abs()), Send(|sent|), None)
      ensures old(rewrite.stop) ==> sent == ""
    {
      hide Texts;
      sent := rewrite.ChildWriteDiffData(script);
      assert (sent + Pending())[|sent|..] == Pending();
    }

    /** `aofChildPipeReadable`. */
    method ChildPipeReadable(byte: char, ackWorks: bool)
      requires Valid()
      modifies this`acked, rewrite`stop
      ensures Valid() && Pending() == old(Pending())
      ensures rewrite.stop == (old(rewrite.stop) || byte == '!')
      ensures acked == (old(acked) || (byte == '!' && ackWorks))
      ensures Abs() == if byte == '!' then SideMove(old(Abs()), Hear(ackWorks), None) else old(Abs())
    {
      if byte == '!' {
        rewrite.stop := true;
        if ackWorks {
          acked := true;
        }
      }
    }

    /** `backgroundRewriteDoneHandler`: `temp` is the child's file, `script` what the writes to it do. `syncWorks`
        is false when the fsync of the ALWAYS policy fails. */
    method RewriteDone(success: bool, temp: string, openWorks: bool, script: seq<int>, syncWorks: bool,
                       renameWorks: bool)
      returns (installed: bool)
      requires Valid() && child
      modifies this, rewrite
      ensures Valid()
      ensures Abs() == SideMove(old(Abs()), Done(installed), if success then Some(temp) else None)
      ensures installed ==> success && openWorks && syncWorks && renameWorks && live == temp + old(Pending())
      ensures !installed ==> live == old(live) && buf == old(buf) && selected == old(selected) && state == old(state)
      ensures success && openWorks && syncWorks && renameWorks && |script| >= |old(rewrite.blocks)| && AllTaken(script)
        ==> installed
    {
      hide Texts, EncodeAll, FeedCmds;
      installed := false;
      if success && openWorks {
        installed := Install(temp, script, syncWorks, renameWorks);
      }
      rewrite.Reset();
      child := false;
    }

    /** Append the pending bytes to the child's file and put it in the place of the log. */
    method Install(temp: string, script: seq<int>, syncWorks: bool, renameWorks: bool) returns (installed: bool)
      requires Valid() && child
      modifies this`live, this`buf, this`selected, this`state
      ensures Valid()
      ensures installed ==> syncWorks && renameWorks && live == temp + Pending()
      ensures installed ==> if state == Off
        then state == old(state) && buf == old(buf) && selected == old(selected)
        else state == On && old(state) != Off && buf == "" && selected == -1
      ensures !installed ==> live == old(live) && buf == old(buf) && selected == old(selected) && state == old(state)
      ensures syncWorks && renameWorks && |script| >= |rewrite.blocks| && AllTaken(script) ==> installed
    {
      hide Texts;
      var ok, written := rewrite.WriteTo(script);
      installed := ok && syncWorks && renameWorks;
      if installed {
        live := temp + written;
        if state != Off {
          buf, selected, state := "", -1, On;
        }
      }
    }

    /** `killAppendOnlyChild`. */
    method KillChild()
      requires Valid()
      modifies this`child, rewrite
      ensures Valid() && Abs() == if old(child) then SideMove(old(Abs()), Kill, None) else old(Abs())
    {
      if child {
        rewrite.Reset();
        child := false;
      }
    }
  }

  /** The text of a command, after a SELECT when the database changes. */
  method FeedText(selected: int, db: nat, argv: Argv) returns (text: string)
    ensures text == EncodeAll(FeedCmds(selected, db, argv))
  {
    hide Encode;
    text := "";
    if db != selected {
      text := CatGenericCommand(text, SelectCmd(db));
    }
    text := CatGenericCommand(text, argv);
    EncodeOne(argv);
    EncodeOne(SelectCmd(db));
    EncodeAppend([SelectCmd(db)], [argv]);
  }

  lemma EncodeOne(argv: Argv)
    ensures EncodeAll([argv]) == Encode(argv)
  {
    hide Encode;
    assert [argv][1..] == [];
  }

  /** The child's copy of what it received. */
  class Receiver {
    /** `aof_child_diff`. */
    var diff: string

    constructor ()
      ensures diff == ""
    {
      diff := "";
    }

    /** `aofReadDiffFromParent`: `read` gives up to 65536 bytes, at least one while the pipe is not empty,
        how many is up to `sizes`. */
    method ReadDiff(pipe: string, sizes: seq<nat>) returns (total: nat)
      modifies this
      ensures diff == old(diff) + pipe && total == |pipe|
    {
      total := 0;
      var calls := 0;
      while total < |pipe|
        invariant 0 <= total <= |pipe| && diff == old(diff) + pipe[..total]
      {
        var room := if |pipe| - total < 65536 then |pipe| - total else 65536;
        var n := if calls < |sizes| && 0 < sizes[calls] < room then sizes[calls] else room;
        diff := diff + pipe[total..total + n];
        assert pipe[..total] + pipe[total..total + n] == pipe[..total + n];
        total, calls := total + n, calls + 1;
      }
    }
  }
}
