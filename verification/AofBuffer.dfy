/** The append only file and the buffer in front of it. */
module AofBuffer {

  datatype Fsync = Always | EverySecond | Never

  /** What one `write` call does: some bytes, an interruption, or an error. */
  datatype Outcome = Written(count: nat) | Interrupted | Failed

  /** What the operating system decides during one flush. */
  datatype Weather = Weather(now: int, syncRunning: bool, otherChild: bool, truncateWorks: bool, fsyncWorks: bool)

  /** How much of `len` bytes the calls in `script` get written. */
  function Total(len: nat, script: seq<Outcome>): (t: nat)
    ensures t <= len
    decreases |script|
  {
    if len == 0 || script == [] then 0 else
    match script[0]
    case Interrupted => Total(len, script[1..])
    case Failed => 0
    case Written(count) =>
      var m := if count <= len then count else len;
      m + Total(len - m, script[1..])
  }

  /** What the calls would write before the first error, given enough to write. */
  function Capacity(script: seq<Outcome>): nat {
    if script == [] then 0 else
    match script[0]
    case Interrupted => Capacity(script[1..])
    case Failed => 0
    case Written(count) => count + Capacity(script[1..])
  }

  /** Interruptions and short writes do not matter: everything is written if the calls take that much before the first
      error, and otherwise what they take. */
  lemma {:induction false} WritesWhatFits(len: nat, script: seq<Outcome>)
    ensures Total(len, script) == if Capacity(script) < len then Capacity(script) else len
    decreases |script|
  {
    if script != [] {
      match script[0] {
        case Interrupted => WritesWhatFits(len, script[1..]);
        case Failed =>
        case Written(count) => if count <= len { WritesWhatFits(len - count, script[1..]); }
      }
    }
  }

  class AppendOnly {
    /** The bytes in the file. */
    var file: string
    /** `aof_buf`. */
    var buf: string
    var currentSize: int
    const policy: Fsync
    const noFsyncOnRewrite: bool
    var lastWriteOk: bool
    var postponedStart: int
    var fsyncOffset: int
    var lastFsync: int
    var exited: bool

    /** Everything the file was opened with or was fed. */
    ghost var fed: string

    ghost predicate Ok()
      reads this
    {
      && !exited
      && file + buf == fed
      && currentSize == |file|
      && 0 <= fsyncOffset <= currentSize
    }

    constructor (file: string, policy: Fsync, noFsyncOnRewrite: bool)
      ensures Ok() && fed == file && this.file == file && buf == ""
      ensures this.policy == policy && this.noFsyncOnRewrite == noFsyncOnRewrite
    {
      this.file, buf, currentSize, this.policy, this.noFsyncOnRewrite := file, "", |file|, policy, noFsyncOnRewrite;
      lastWriteOk, postponedStart, fsyncOffset, lastFsync, exited := true, 0, |file|, 0, false;
      fed := file;
    }

    /** The end of `feedAppendOnlyFile` while the log is on. */
    method Feed(text: string)
      requires Ok()
      modifies this`buf, this`fed
      ensures Ok() && fed == old(fed) + text && buf == old(buf) + text
    {
      buf := buf + text;
      fed := fed + text;
    }

    /** `aofWrite`: retries short and interrupted writes; `script` is what successive calls do,
        and running out of it is an error. */
    method Write(data: string, script: seq<Outcome>) returns (n: int)
      requires !exited
      modifies this`file
      ensures var t := Total(|data|, script);
        && n == (if t > 0 || data == "" then t else -1)
        && file == old(file) + data[..t]
    {
      var total := 0;
      var i := 0;
      while total < |data|
        invariant 0 <= total <= |data| && 0 <= i <= |script|
        invariant file == old(file) + data[..total]
        invariant Total(|data|, script) == total + Total(|data| - total, script[i..])
        decreases |script| - i, if total < |data| then 1 else 0
      {
        if i == |script| {
          return if total > 0 then total else -1;
        }
        assert script[i..][1..] == script[i + 1..];
        match script[i] {
          case Interrupted =>
          case Failed =>
            return if total > 0 then total else -1;
          case Written(count) =>
            var m := if count <= |data| - total then count else |data| - total;
            file := file + data[total..total + m];
            assert data[..total] + data[total..total + m] == data[..total + m];
            total := total + m;
        }
        i := i + 1;
      }
      return total;
    }

    /** `flushAppendOnlyFile`. Whatever happens, either the server has exited or the file and the
        buffer together still hold everything that was fed, and the recorded size is exact. */
    method Flush(force: bool, os: Weather, script: seq<Outcome>)
      requires Ok()
      modifies this
      ensures !exited ==> Ok() && fed == old(fed)
      ensures exited <==>
        && policy == Always && old(buf) != ""
        && (Total(|old(buf)|, script) < |old(buf)| || (!os.fsyncWorks && !(noFsyncOnRewrite && os.otherChild)))
      ensures
        var waits :=
          && policy == EverySecond && !force && os.syncRunning
          && (old(postponedStart) == 0 || os.now - old(postponedStart) < 2);
        var t := Total(|old(buf)|, script);
        !exited && old(buf) != "" ==>
          if waits then
            && file == old(file) && buf == old(buf) && lastWriteOk == old(lastWriteOk)
            && postponedStart == if old(postponedStart) == 0 then os.now else old(postponedStart)
          else
            && lastWriteOk == (t == |old(buf)|) && postponedStart == 0
            && file == old(file) + old(buf)[..if t < |old(buf)| && os.truncateWorks then 0 else t]
      ensures !exited && policy == Always ==> buf == ""
      ensures !exited && old(buf) != "" && policy == Always && !(noFsyncOnRewrite && os.otherChild) ==>
        fsyncOffset == currentSize
    {
      var syncing := false;
      if buf == "" {
        if policy == EverySecond && fsyncOffset != currentSize && os.now > lastFsync && !os.syncRunning {
          TryFsync(os, false);
        }
        return;
      }
      if policy == EverySecond {
        syncing := os.syncRunning;
      }
      if policy == EverySecond && !force && syncing {
        if postponedStart == 0 {
          postponedStart := os.now;
          return;
        } else if os.now - postponedStart < 2 {
          return;
        }
      }
      var n := Write(buf, script);
      postponedStart := 0;
      if n != |buf| {
        if n != -1 {
          if os.truncateWorks {
            file := file[..currentSize];
            n := -1;
          }
        }
        if policy == Always {
          exited := true;
          return;
        }
        lastWriteOk := false;
        if n > 0 {
          assert old(file) + buf[..n] + buf[n..] == fed;
          currentSize := currentSize + n;
          buf := buf[n..];
        }
        return;
      }
      lastWriteOk := true;
      currentSize := currentSize + n;
      buf := "";
      TryFsync(os, syncing);
    }

    method TryFsync(os: Weather, syncing: bool)
      requires Ok()
      modifies this`fsyncOffset, this`lastFsync, this`exited
      ensures exited <==> policy == Always && !os.fsyncWorks && !(noFsyncOnRewrite && os.otherChild)
      ensures !exited ==> Ok()
      ensures (noFsyncOnRewrite && os.otherChild) || policy == Never ==>
        fsyncOffset == old(fsyncOffset) && lastFsync == old(lastFsync)
      ensures !exited && policy == Always && !(noFsyncOnRewrite && os.otherChild) ==> fsyncOffset == currentSize
      ensures policy == EverySecond && !(noFsyncOnRewrite && os.otherChild) ==>
        if os.now > old(lastFsync)
        then lastFsync == os.now && fsyncOffset == (if syncing then old(fsyncOffset) else currentSize)
        else lastFsync == old(lastFsync) && fsyncOffset == old(fsyncOffset)
    {
      if noFsyncOnRewrite && os.otherChild {
        return;
      }
      if policy == Always {
        if !os.fsyncWorks {
          exited := true;
          return;
        }
        fsyncOffset := currentSize;
        lastFsync := os.now;
      } else if policy == EverySecond && os.now > lastFsync {
        if !syncing {
          fsyncOffset := currentSize;
        }
        lastFsync := os.now;
      }
    }
  }
}
