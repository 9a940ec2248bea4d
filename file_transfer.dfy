/** File and directory transfer over a connected uploader
    (src/infra/ssh/transfer.rs; the flat module's upload in src/ssh_core.rs is
    the same code). The system `scp`, the sftp session, the local file system
    and the remote `mkdir` are oracles; what the program does with them is an
    event log: the progress callbacks, the commands it runs, the chunks it
    copies and the directories it creates or reads. */
module FileTransfer {
  import opened Wrappers
  import opened Text
  import opened Config
  import opened ShellQuote
  import SshClient

  datatype Event =
    | Progress(fraction: real)                // the progress callback
    | RunScp(args: seq<string>)               // the system `scp` with these arguments
    | Exec(command: string)                   // a command over a session channel
    | Copied(bytes: nat)                      // one chunk written to the destination
    | MakeLocalDir(path: string)              // create_dir_all
    | Mkdir(remote: SshClient.RemoteCommand) // the client's remote mkdir
    | ReadLocalDir(path: string)
    | ListRemoteDir(path: string)

  /** One turn of a copy loop: the read returned `n` bytes (0 at the end of
      the file) and writing them succeeded, or the read or the write failed. */
  datatype Step = Data(n: nat) | ReadFailed(reason: string) | WriteFailed(reason: string)

  const SCP_MISSING := "系统中未找到 scp 命令,请安装 OpenSSH 客户端"
  const SCP_SPAWN_FAILED := "无法执行 scp 命令"
  const SCP_UPLOAD_FAILED := "SCP 上传失败: "
  const SCP_DOWNLOAD_FAILED := "SCP 下载失败: "
  const BOTH_FAILED := "SCP 和 SFTP 均失败。SCP 错误: "
  const OPEN_LOCAL_FAILED := "无法打开本地文件: "
  const SFTP_FAILED := "无法建立 SFTP 会话"
  const CREATE_REMOTE_FAILED := "无法在远程创建文件: "
  const OPEN_REMOTE_FAILED := "无法打开远程文件: "
  const MAKE_LOCAL_DIR_FAILED := "无法创建本地目录: "
  const CREATE_LOCAL_FAILED := "无法创建本地文件: "
  const READ_LOCAL_DIR_FAILED := "无法读取本地目录: "

  // ---------------------------------------------------------------------------
  // Paths (separator '/'; normalisation of `.`, `..` and repeated separators is
  // not modelled)

  /** `Path::parent`: None for the empty path and the root. */
  function Parent(p: string): (r: Option<string>)
  {
    if p == "" || p == "/" then None
    else LastSlashParent(p, |p|)
  }

  function LastSlashParent(p: string, k: nat): (r: Option<string>)
    requires 0 < |p| && k <= |p|
  {
    if k == 0 then Some("")
    else if p[k - 1] == '/' then (if k == 1 then Some("/") else Some(p[..k - 1]))
    else LastSlashParent(p, k - 1)
  }

  /** `Path::join` with a plain name. */
  function Join(dir: string, name: string): string {
    if dir == "" then name
    else if dir[|dir| - 1] == '/' then dir + name
    else dir + "/" + name
  }

  /** A child's parent is the directory it was joined to, so a file copied
      into a directory has its parent made first (the directory walks join
      names, the sftp copies take the parent back). */
  lemma ParentOfJoin(dir: string, name: string)
    requires name != [] && '/' !in name
    requires dir == "" || dir == "/" || dir[|dir| - 1] != '/'
    ensures Parent(Join(dir, name)) == Some(dir)
  {
    var p := Join(dir, name);
    var k := |p| - |name|;
    assert p[k..] == name;
    assert p[..k] == if dir == "" then "" else if dir == "/" then "/" else dir + "/";
    SkipNameChars(p, k, |p|);
    if dir != "" && dir != "/" {
      assert p[k - 1] == '/';
      assert p[..k - 1] == dir;
    }
  }

  /** The search for the last `/` passes over a stretch without one. */
  lemma {:induction false} SkipNameChars(p: string, j: nat, k: nat)
    requires 0 < |p| && j <= k <= |p|
    requires forall i :: j <= i < k ==> p[i] != '/'
    ensures LastSlashParent(p, k) == LastSlashParent(p, j)
    decreases k
  {
    if k > j {
      SkipNameChars(p, j, k - 1);
    }
  }

  /** The `{:?}` form of a path in error messages (escapes inside are not modelled). */
  function DebugPath(p: string): string {
    "\"" + p + "\""
  }

  // ---------------------------------------------------------------------------
  // The copy loop

  /** A fraction of the total size. */
  function Ratio(part: nat, total: nat): real
    requires total > 0
  {
    part as real / total as real
  }

  lemma RatioMonotone(a: nat, b: nat, total: nat)
    requires total > 0 && a <= b
    ensures Ratio(a, total) <= Ratio(b, total)
  {
    var t := total as real;
    assert a as real / t <= b as real / t by {
      assert a as real <= b as real;
      assert (b as real - a as real) / t >= 0.0;
    }
  }

  datatype Copy = Copy(result: Result<()>, events: seq<Event>, transferred: nat)

  /** The loop from `done` bytes on: each chunk read is written, counted, and
      reported as `transferred / total` when the total size is known to be
      positive; a read of 0 bytes ends it, a failed read or write aborts it. */
  function CopyFrom(steps: seq<Step>, total: nat, done: nat): (c: Copy)
    ensures c.transferred >= done
  {
    if steps == [] then Copy(Ok(()), [], done)
    else match steps[0]
      case Data(n) =>
        if n == 0 then Copy(Ok(()), [], done)
        else
          var now := done + n;
          var rest := CopyFrom(steps[1..], total, now);
          Copy(rest.result, ChunkLog(n, total, now) + rest.events, rest.transferred)
      case ReadFailed(e) => Copy(Err(Leaf(e)), [], done)
      case WriteFailed(e) => Copy(Err(Leaf(e)), [], done)
  }

  /** What one chunk of `n` bytes logs: the write, then the fraction
      reached when the total is known. */
  function ChunkLog(n: nat, total: nat, now: nat): seq<Event> {
    [Copied(n)] + (if total > 0 then [Progress(Ratio(now, total))] else [])
  }

  /** One chunk of the loop, unfolded. */
  lemma ChunkStep(steps: seq<Step>, total: nat, done: nat, n: nat)
    requires steps != [] && steps[0] == Data(n) && n > 0
    ensures var rest := CopyFrom(steps[1..], total, done + n);
      CopyFrom(steps, total, done) == Copy(rest.result, ChunkLog(n, total, done + n) + rest.events, rest.transferred)
  {
  }

  /** The loop ends at once unless the first step is a chunk of data. */
  lemma NoChunk(steps: seq<Step>, total: nat, done: nat)
    requires !(steps != [] && steps[0].Data? && steps[0].n > 0)
    ensures CopyFrom(steps, total, done).events == [] && CopyFrom(steps, total, done).transferred == done
  {
  }

  /** The loop as the program writes it, with its `transferred` counter. */
  method CopyChunks(steps: seq<Step>, total: nat) returns (c: Copy)
    ensures c == CopyFrom(steps, total, 0)
  {
    var transferred: nat := 0;
    var events: seq<Event> := [];
    var i := 0;
    assert steps[0..] == steps;
    assert Glue([], CopyFrom(steps, total, 0)) == CopyFrom(steps, total, 0);
    while i < |steps|
      invariant i <= |steps|
      invariant CopyFrom(steps, total, 0) == Glue(events, CopyFrom(steps[i..], total, transferred))
    {
      ghost var rest := steps[i..];
      assert rest[0] == steps[i] && rest[1..] == steps[i + 1..];
      match steps[i] {
        case ReadFailed(e) =>
          GlueStop(events, rest, total, transferred);
          return Copy(Err(Leaf(e)), events, transferred);
        case WriteFailed(e) =>
          GlueStop(events, rest, total, transferred);
          return Copy(Err(Leaf(e)), events, transferred);
        case Data(n) =>
          if n == 0 {
            GlueStop(events, rest, total, transferred);
            return Copy(Ok(()), events, transferred);
          }
          ghost var before, done := events, transferred;
          events := events + [Copied(n)];
          ghost var written := events;
          transferred := transferred + n;
          if total > 0 {
            events := events + [Progress(Ratio(transferred, total))];
          }
          LogChunk(before, written, events, n, total, transferred);
          GlueChunk(before, rest, total, done, n);
      }
      i := i + 1;
    }
    GlueStop(events, steps[i..], total, transferred);
    return Copy(Ok(()), events, transferred);
  }

  /** A copy result behind the log written before it. */
  function Glue(before: seq<Event>, c: Copy): Copy {
    Copy(c.result, before + c.events, c.transferred)
  }

  /** The loop's two appends for one chunk make up its `ChunkLog`. */
  lemma LogChunk(before: seq<Event>, written: seq<Event>, after: seq<Event>, n: nat, total: nat, now: nat)
    requires written == before + [Copied(n)]
    requires after == if total > 0 then written + [Progress(Ratio(now, total))] else written
    ensures after == before + ChunkLog(n, total, now)
  {
  }

  lemma GlueChunk(before: seq<Event>, s: seq<Step>, total: nat, done: nat, n: nat)
    requires s != [] && s[0] == Data(n) && n > 0
    ensures Glue(before, CopyFrom(s, total, done)) ==
      Glue(before + ChunkLog(n, total, done + n), CopyFrom(s[1..], total, done + n))
  {
    ChunkStep(s, total, done, n);
    var rest := CopyFrom(s[1..], total, done + n);
    assert before + (ChunkLog(n, total, done + n) + rest.events) == before + ChunkLog(n, total, done + n) + rest.events;
  }

  lemma GlueStop(before: seq<Event>, s: seq<Step>, total: nat, done: nat)
    requires s == [] || s[0] == Data(0) || s[0].ReadFailed? || s[0].WriteFailed?
    ensures Glue(before, CopyFrom(s, total, done)) ==
      Copy(if s == [] || s[0].Data? then Ok(()) else Err(Leaf(s[0].reason)), before, done)
  {
    assert before + [] == before;
  }

  /** The sum of the chunks written, as the log records them. */
  function CopiedBytes(events: seq<Event>): nat {
    if events == [] then 0
    else (if events[0].Copied? then events[0].bytes else 0) + CopiedBytes(events[1..])
  }

  /** The fractions reported, in order. */
  function Fractions(events: seq<Event>): seq<real> {
    if events == [] then []
    else (if events[0].Progress? then [events[0].fraction] else []) + Fractions(events[1..])
  }

  predicate NonDecreasing(xs: seq<real>) {
    forall i, j :: 0 <= i <= j < |xs| ==> xs[i] <= xs[j]
  }

  lemma {:induction false} CopiedBytesAppend(a: seq<Event>, b: seq<Event>)
    ensures CopiedBytes(a + b) == CopiedBytes(a) + CopiedBytes(b)
  {
    if a == [] {
      assert a + b == b;
    } else {
      assert (a + b)[0] == a[0];
      assert (a + b)[1..] == a[1..] + b;
      CopiedBytesAppend(a[1..], b);
    }
  }

  lemma {:induction false} FractionsAppend(a: seq<Event>, b: seq<Event>)
    ensures Fractions(a + b) == Fractions(a) + Fractions(b)
  {
    if a == [] {
      assert a + b == b;
    } else {
      assert (a + b)[0] == a[0];
      assert (a + b)[1..] == a[1..] + b;
      FractionsAppend(a[1..], b);
    }
  }

  /** The counter is the sum of the chunks written so far. */
  lemma {:induction false} TransferredIsSumOfChunks(steps: seq<Step>, total: nat, done: nat)
    ensures CopyFrom(steps, total, done).transferred == done + CopiedBytes(CopyFrom(steps, total, done).events)
  {
    if steps != [] && steps[0].Data? && steps[0].n > 0 {
      var n := steps[0].n;
      TransferredIsSumOfChunks(steps[1..], total, done + n);
      var rest := CopyFrom(steps[1..], total, done + n);
      ChunkStep(steps, total, done, n);
      CopiedBytesAppend(ChunkLog(n, total, done + n), rest.events);
      CopiedBytesAppend([Copied(n)], if total > 0 then [Progress(Ratio(done + n, total))] else []);
    } else {
      NoChunk(steps, total, done);
    }
  }

  /** A chunk's own log entries in front of the rest of the log. */
  lemma FractionsOfChunk(n: nat, total: nat, now: nat, rest: seq<Event>)
    ensures Fractions(ChunkLog(n, total, now) + rest) == (if total > 0 then [Ratio(now, total)] else []) + Fractions(rest)
  {
    var here := ChunkLog(n, total, now);
    assert (here + rest)[0] == Copied(n);
    assert (here + rest)[1..] == here[1..] + rest;
    if total > 0 {
      assert here[1..] + rest == [Progress(Ratio(now, total))] + rest;
      assert ([Progress(Ratio(now, total))] + rest)[1..] == rest;
    } else {
      assert here[1..] + rest == rest;
    }
  }

  /** With an unknown (zero) total size the loop reports nothing. */
  lemma {:induction false} CopyUnknownTotal(steps: seq<Step>, done: nat)
    ensures Fractions(CopyFrom(steps, 0, done).events) == []
  {
    if steps != [] && steps[0].Data? && steps[0].n > 0 {
      CopyUnknownTotal(steps[1..], done + steps[0].n);
      ChunkStep(steps, 0, done, steps[0].n);
      FractionsOfChunk(steps[0].n, 0, done + steps[0].n, CopyFrom(steps[1..], 0, done + steps[0].n).events);
    } else {
      NoChunk(steps, 0, done);
    }
  }

  /** With a known total every fraction the loop reports lies between
      `done / total` and the final `transferred / total`, and the fractions
      never decrease (the chunk sizes need not add up to the total). */
  lemma {:induction false} CopyProgress(steps: seq<Step>, total: nat, done: nat)
    requires total > 0
    ensures var c := CopyFrom(steps, total, done); var fs := Fractions(c.events);
      NonDecreasing(fs) && forall k :: 0 <= k < |fs| ==> Ratio(done, total) <= fs[k] <= Ratio(c.transferred, total)
  {
    if steps != [] && steps[0].Data? && steps[0].n > 0 {
      var n := steps[0].n;
      CopyProgress(steps[1..], total, done + n);
      ChunkStep(steps, total, done, n);
      ProgressAfterChunk(CopyFrom(steps, total, done), CopyFrom(steps[1..], total, done + n), n, total, done);
    } else {
      NoChunk(steps, total, done);
    }
  }

  /** The chunk step of the lemma above, on the two loop results. */
  lemma ProgressAfterChunk(c: Copy, rest: Copy, n: nat, total: nat, done: nat)
    requires total > 0 && n > 0 && rest.transferred >= done + n
    requires c == Copy(rest.result, ChunkLog(n, total, done + n) + rest.events, rest.transferred)
    requires var fs := Fractions(rest.events);
      NonDecreasing(fs) && forall k :: 0 <= k < |fs| ==> Ratio(done + n, total) <= fs[k] <= Ratio(rest.transferred, total)
    ensures var fs := Fractions(c.events);
      NonDecreasing(fs) && forall k :: 0 <= k < |fs| ==> Ratio(done, total) <= fs[k] <= Ratio(c.transferred, total)
  {
    var now := done + n;
    FractionsOfChunk(n, total, now, rest.events);
    RatioMonotone(done, now, total);
    RatioMonotone(now, rest.transferred, total);
    ConsNonDecreasing(Ratio(done, total), Ratio(now, total), Ratio(rest.transferred, total), Fractions(rest.events));
  }

  lemma ConsNonDecreasing(lo: real, x: real, hi: real, fs: seq<real>)
    requires lo <= x <= hi
    requires NonDecreasing(fs)
    requires forall k :: 0 <= k < |fs| ==> x <= fs[k] <= hi
    ensures NonDecreasing([x] + fs)
    ensures forall k :: 0 <= k < |[x] + fs| ==> lo <= ([x] + fs)[k] <= hi
  {
    var ys := [x] + fs;
    forall i, j | 0 <= i <= j < |ys| ensures ys[i] <= ys[j] {
      if i > 0 { assert ys[i] == fs[i - 1] && ys[j] == fs[j - 1]; }
      else if j > 0 { assert ys[j] == fs[j - 1]; }
    }
    forall k | 0 <= k < |ys| ensures lo <= ys[k] <= hi {
      if k > 0 { assert ys[k] == fs[k - 1]; }
    }
  }

  /** When the loop copies exactly `total > 0` bytes, its last report is 1. */
  lemma LastFractionIsOne(steps: seq<Step>, total: nat)
    requires total > 0
    requires CopyFrom(steps, total, 0).transferred == total
    ensures var fs := Fractions(CopyFrom(steps, total, 0).events);
      fs != [] && fs[|fs| - 1] == 1.0
  {
    LastFractionIsTransferred(steps, total, 0);
    RatioOfWhole(total);
  }

  lemma RatioOfWhole(total: nat)
    requires total > 0
    ensures Ratio(total, total) == 1.0
  {
    var t := total as real;
    assert t / t == 1.0 by {
      assert t * 1.0 == t;
    }
  }

  lemma {:induction false} LastFractionIsTransferred(steps: seq<Step>, total: nat, done: nat)
    requires total > 0
    ensures var c := CopyFrom(steps, total, done); var fs := Fractions(c.events);
      (fs == [] <==> c.transferred == done) &&
      (fs != [] ==> fs[|fs| - 1] == Ratio(c.transferred, total))
  {
    if steps != [] && steps[0].Data? && steps[0].n > 0 {
      var n := steps[0].n;
      LastFractionIsTransferred(steps[1..], total, done + n);
      ChunkStep(steps, total, done, n);
      LastAfterChunk(CopyFrom(steps, total, done), CopyFrom(steps[1..], total, done + n), n, total, done);
    } else {
      NoChunk(steps, total, done);
    }
  }

  /** The chunk step of the lemma above, on the two loop results. */
  lemma LastAfterChunk(c: Copy, rest: Copy, n: nat, total: nat, done: nat)
    requires total > 0 && n > 0 && rest.transferred >= done + n
    requires c == Copy(rest.result, ChunkLog(n, total, done + n) + rest.events, rest.transferred)
    requires var fs := Fractions(rest.events);
      (fs == [] <==> rest.transferred == done + n) &&
      (fs != [] ==> fs[|fs| - 1] == Ratio(rest.transferred, total))
    ensures var fs := Fractions(c.events);
      (fs == [] <==> c.transferred == done) &&
      (fs != [] ==> fs[|fs| - 1] == Ratio(c.transferred, total))
  {
    FractionsOfChunk(n, total, done + n, rest.events);
    LastOfCons(Ratio(done + n, total), Fractions(rest.events));
  }

  lemma LastOfCons(x: real, fs: seq<real>)
    ensures var ys := [x] + fs; ys != [] && ys[|ys| - 1] == if fs == [] then x else fs[|fs| - 1]
  {
  }

  // ---------------------------------------------------------------------------
  // scp

  /** `build_remote_target`: `user@host:path`. */
  function BuildRemoteTarget(config: ServerConfig, remotePath: string): string {
    config.user + "@" + config.host + ":" + remotePath
  }

  /** scp reads the target back: the user up to the first `@`, the host up to
      the next `:`, and the path after it, when the user holds no `@` and the
      host no `:`. */
  lemma RemoteTargetSplits(config: ServerConfig, remotePath: string, t: string)
    requires '@' !in config.user && ':' !in config.host
    requires t == BuildRemoteTarget(config, remotePath)
    ensures var k := IndexOf(t, '@');
      k < |t| && t[..k] == config.user &&
      var rest := t[k + 1..]; var m := IndexOf(rest, ':');
      m < |rest| && rest[..m] == config.host && rest[m + 1..] == remotePath
  {
    var rest := config.host + ":" + remotePath;
    assert t == config.user + "@" + rest;
    SplitAtFirst(config.user, '@', rest, t);
    SplitAtFirst(config.host, ':', remotePath, rest);
  }

  /** The options every scp call gets. */
  function ScpOptions(config: ServerConfig): (args: seq<string>)
    ensures |args| == if HasKeyPath(config) then 8 else 6
    ensures args[..6] == ["-P", NatToString(config.port), "-o", "StrictHostKeyChecking=no", "-o", "BatchMode=yes"]
    ensures HasKeyPath(config) ==> args[6..] == ["-i", config.keyPath.value]
  {
    ["-P", NatToString(config.port), "-o", "StrictHostKeyChecking=no", "-o", "BatchMode=yes"] +
    (if HasKeyPath(config) then ["-i", config.keyPath.value] else [])
  }

  /** What the system `scp` does: missing, cannot be started, or exits. */
  datatype ScpScript = ScpScript(available: bool, makeParent: Outcome, spawn: Outcome, exitOk: bool, stderr: string)

  datatype Run = Run(result: Result<()>, events: seq<Event>)

  /** Running prepared scp arguments: 0.1, the command, then 1.0 on success. */
  function RunScpCommand(s: ScpScript, args: seq<string>, failure: string): Run {
    var started := [Progress(0.1), RunScp(args)];
    match s.spawn
    case Fail(e) => Run(Err(Context(SCP_SPAWN_FAILED, Leaf(e))), started)
    case Pass =>
      if s.exitOk then Run(Ok(()), started + [Progress(1.0)])
      else Run(Err(Leaf(failure + Trim(s.stderr))), started)
  }

  function UploadViaScp(config: ServerConfig, localPath: string, remotePath: string, s: ScpScript): Run {
    if !s.available then Run(Err(Leaf(SCP_MISSING)), [Progress(0.0)])
    else
      var r := RunScpCommand(s, ScpOptions(config) + [localPath, BuildRemoteTarget(config, remotePath)], SCP_UPLOAD_FAILED);
      Run(r.result, [Progress(0.0)] + r.events)
  }

  /** Downloading by scp also creates the local parent directory first. */
  function DownloadViaScp(config: ServerConfig, remotePath: string, localPath: string, s: ScpScript): Run {
    if !s.available then Run(Err(Leaf(SCP_MISSING)), [Progress(0.0)])
    else
      var parent := Parent(localPath);
      var made := if parent.Some? then [MakeLocalDir(parent.value)] else [];
      if parent.Some? && s.makeParent.Fail? then
        Run(Err(Context(MAKE_LOCAL_DIR_FAILED + DebugPath(parent.value), Leaf(s.makeParent.reason))), [Progress(0.0)] + made)
      else
        var r := RunScpCommand(s, ScpOptions(config) + [BuildRemoteTarget(config, remotePath), localPath], SCP_DOWNLOAD_FAILED);
        Run(r.result, [Progress(0.0)] + made + r.events)
  }

  /** The scp path reports 0.0 first, 0.1 right before running the command,
      and 1.0, as its last report, exactly when the command succeeded. */
  lemma ScpCallbackSequence(config: ServerConfig, localPath: string, remotePath: string, s: ScpScript)
    ensures var r := UploadViaScp(config, localPath, remotePath, s);
      r.events[0] == Progress(0.0) &&
      (forall k :: 0 < k < |r.events| && r.events[k].RunScp? ==> r.events[k - 1] == Progress(0.1)) &&
      (Progress(1.0) in r.events <==> r.result.Ok?) &&
      (r.result.Ok? ==> r.events[|r.events| - 1] == Progress(1.0))
    ensures var r := DownloadViaScp(config, remotePath, localPath, s);
      r.events[0] == Progress(0.0) &&
      (forall k :: 0 < k < |r.events| && r.events[k].RunScp? ==> r.events[k - 1] == Progress(0.1)) &&
      (Progress(1.0) in r.events <==> r.result.Ok?) &&
      (r.result.Ok? ==> r.events[|r.events| - 1] == Progress(1.0))
  {
  }

  // ---------------------------------------------------------------------------
  // sftp

  datatype SizeOutcome = Size(n: nat) | SizeFailed(reason: string)
  datatype StatOutcome = Stat(size: Option<nat>) | StatFailed(reason: string)

  /** What the local file, the session and the remote file do during an sftp upload. */
  datatype UploadSftp = UploadSftp(open: Outcome, metadata: SizeOutcome, channel: Outcome,
                                   sftp: Outcome, create: Outcome, steps: seq<Step>)

  /** What the session, the remote file and the local file do during an sftp download. */
  datatype DownloadSftp = DownloadSftp(sftp: Outcome, open: Outcome, stat: StatOutcome,
                                       makeParent: Outcome, create: Outcome, steps: seq<Step>)

  /** The `mkdir` for the remote parent directory as it is evidently meant:
      the path escaped as every other remote command escapes its paths. The
      upload itself runs `ParentMkdirAsWritten`. */
  function ParentMkdirCommand(parent: string): (cmd: string)
    ensures ReadWords(cmd) == Some(["mkdir", "-p", SshClient.RemotePath(parent)])
  {
    var cmd := "mkdir -p " + EscapeShellArg(SshClient.RemotePath(parent));
    MkdirPrefix(EscapeShellArg(SshClient.RemotePath(parent)), cmd);
    ReadPlainPlainEscaped("mkdir", "-p", SshClient.RemotePath(parent), cmd);
    cmd
  }

  /** The command the sftp upload runs: the path between double quotes,
      unescaped. */
  function ParentMkdirAsWritten(parent: string): string {
    "mkdir -p \"" + SshClient.RemotePath(parent) + "\""
  }

  /** A parent directory whose name holds `" "` makes the as-written command
      create two directories instead of one; the escaped command names the
      directory itself. With `a` = "a", `b` = "b" the parent `a" "b` gives
      `mkdir -p a b`. */
  lemma ParentMkdirAsWrittenSplitsPath(a: string, b: string, parent: string)
    requires PlainWord(a) && PlainWord(b) && parent == a + "\" \"" + b
    ensures ReadWords(ParentMkdirAsWritten(parent)) == Some(["mkdir", "-p", a, b])
    ensures ReadWords(ParentMkdirCommand(parent)) == Some(["mkdir", "-p", parent])
  {
    PlainHasNoSpecials(a);
    PlainHasNoSpecials(b);
    NoBackslashAround(a, b, parent);
    var qa, qb := "\"" + a + "\"", "\"" + b + "\"";
    ReadTwoDoubleQuoted(a, b, qa, qb);
    QuotedPairRegroup(a, b, qa, qb, qa + " " + qb);
    AsWrittenText(a, b, parent, qa + " " + qb);
    ReadMkdirThen(qa + " " + qb, [a, b], ParentMkdirAsWritten(parent));
    assert ["mkdir", "-p"] + [a, b] == ["mkdir", "-p", a, b];
  }

  lemma AsWrittenText(a: string, b: string, parent: string, tail: string)
    requires parent == a + "\" \"" + b && SshClient.RemotePath(parent) == parent
    requires tail == "\"" + a + "\" \"" + b + "\""
    ensures ParentMkdirAsWritten(parent) == "mkdir -p " + tail
  {
    assert "mkdir -p \"" == "mkdir -p " + "\"";
  }

  lemma NoBackslashAround(a: string, b: string, parent: string)
    requires '\\' !in a && '\\' !in b && parent == a + "\" \"" + b
    ensures '\\' !in parent && SshClient.RemotePath(parent) == parent
  {
    var mid := "\" \"";
    assert '\\' !in mid;
    assert forall c :: c in a + mid + b ==> c in a || c in mid || c in b;
  }

  /** `mkdir -p` followed by a command line of further words. */
  lemma ReadMkdirThen(tail: string, ws: seq<string>, t: string)
    requires ReadWords(tail) == Some(ws)
    requires t == "mkdir -p " + tail
    ensures ReadWords(t) == Some(["mkdir", "-p"] + ws)
  {
    var t2 := "-p" + " " + tail;
    assert PlainWord("-p") && PlainWord("mkdir") by {
      assert PlainChar('-') && PlainChar('p') && PlainChar('m') && PlainChar('k');
      assert PlainChar('d') && PlainChar('i') && PlainChar('r');
    }
    ReadPlainThen("-p", tail, ws, t2);
    MkdirPrefix(tail, t);
    ReadPlainThen("mkdir", t2, ["-p"] + ws, t);
    assert ["mkdir"] + (["-p"] + ws) == ["mkdir", "-p"] + ws;
  }

  lemma PlainHasNoSpecials(w: string)
    requires PlainWord(w)
    ensures '"' !in w && DoubleQuoteSafe(w)
  {
    forall i | 0 <= i < |w| ensures w[i] != '"' && w[i] != '$' && w[i] != '`' && w[i] != '\\' {
      assert PlainChar(w[i]);
    }
  }

  /** `"a" "b"` reads as the two words `a` and `b`. */
  lemma ReadTwoDoubleQuoted(a: string, b: string, qa: string, qb: string)
    requires '"' !in a && DoubleQuoteSafe(a) && '"' !in b && DoubleQuoteSafe(b)
    requires qa == "\"" + a + "\"" && qb == "\"" + b + "\""
    ensures ReadWords(qa + " " + qb) == Some([a, b])
  {
    ReadOneDoubleQuoted(b, qb);
    ReadQuotedThen(a, qa, qb, qa + " " + qb, [b]);
    assert [a] + [b] == [a, b];
  }

  /** A double-quoted word, a space and a command line of further words. */
  lemma ReadQuotedThen(a: string, qa: string, rest: string, t: string, ws: seq<string>)
    requires '"' !in a && DoubleQuoteSafe(a) && qa == "\"" + a + "\"" && t == qa + " " + rest
    requires ReadWords(rest) == Some(ws)
    ensures ReadWords(t) == Some([a] + ws)
  {
    assert t == "\"" + a + "\"" + (" " + rest);
    ReadDoubleQuotedWord(a, " " + rest, t);
    ReadWordsCons(t, a, rest, ws);
  }

  lemma ReadOneDoubleQuoted(b: string, qb: string)
    requires '"' !in b && DoubleQuoteSafe(b) && qb == "\"" + b + "\""
    ensures ReadWords(qb) == Some([b])
  {
    assert qb == "\"" + b + "\"" + [];
    ReadDoubleQuotedWord(b, [], qb);
  }

  lemma QuotedPairRegroup(a: string, b: string, qa: string, qb: string, t: string)
    requires qa == "\"" + a + "\"" && qb == "\"" + b + "\"" && t == qa + " " + qb
    ensures t == "\"" + a + "\" \"" + b + "\""
  {
    assert "\"" + (" " + "\"") == "\" \"";
    assert t == "\"" + a + ("\"" + (" " + "\"")) + b + "\"";
  }

  /** Finishing an sftp copy: the loop, then 1.0 on success. */
  function Finish(c: Copy, before: seq<Event>): Run {
    if c.result.Ok? then Run(Ok(()), before + c.events + [Progress(1.0)])
    else Run(c.result, before + c.events)
  }

  function UploadViaSftp(localPath: string, remotePath: string, s: UploadSftp): Run {
    match s.open
    case Fail(e) => Run(Err(Context(OPEN_LOCAL_FAILED + DebugPath(localPath), Leaf(e))), [])
    case Pass =>
      match s.metadata
      case SizeFailed(e) => Run(Err(Leaf(e)), [])
      case Size(total) =>
        var parent := Parent(remotePath);
        if parent.Some? && s.channel.Fail? then Run(Err(Leaf(s.channel.reason)), [])
        else
          var mkdir := if parent.Some? then [Exec(ParentMkdirAsWritten(parent.value))] else [];
          match s.sftp
          case Fail(e) => Run(Err(Context(SFTP_FAILED, Leaf(e))), mkdir)
          case Pass =>
            match s.create
            case Fail(e) => Run(Err(Context(CREATE_REMOTE_FAILED + DebugPath(remotePath), Leaf(e))), mkdir)
            case Pass => Finish(CopyFrom(s.steps, total, 0), mkdir)
  }

  /** Everything before the upload's copy loop passes. */
  predicate UploadReady(remotePath: string, s: UploadSftp) {
    s.open.Pass? && s.metadata.Size? && !(Parent(remotePath).Some? && s.channel.Fail?) &&
    s.sftp.Pass? && s.create.Pass?
  }

  /** Each step before the copy aborts the upload with its own error, and
      reports no progress; the parent `mkdir` is run, as written, exactly when
      there is a parent and its channel opens. */
  lemma UploadViaSftpSteps(localPath: string, remotePath: string, s: UploadSftp)
    ensures var r := UploadViaSftp(localPath, remotePath, s);
      !UploadReady(remotePath, s) ==> r.result.Err? && Fractions(r.events) == []
    ensures var r := UploadViaSftp(localPath, remotePath, s);
      s.open.Fail? ==> r.result == Err(Context(OPEN_LOCAL_FAILED + DebugPath(localPath), Leaf(s.open.reason)))
    ensures var r := UploadViaSftp(localPath, remotePath, s);
      s.open.Pass? && s.metadata.SizeFailed? ==> r.result == Err(Leaf(s.metadata.reason))
    ensures var r := UploadViaSftp(localPath, remotePath, s);
      s.open.Pass? && s.metadata.Size? && Parent(remotePath).Some? && s.channel.Fail? ==>
        r == Run(Err(Leaf(s.channel.reason)), [])
    ensures var r := UploadViaSftp(localPath, remotePath, s);
      s.open.Pass? && s.metadata.Size? && Parent(remotePath).Some? && s.channel.Pass? ==>
        r.events != [] && r.events[0] == Exec(ParentMkdirAsWritten(Parent(remotePath).value))
    ensures var r := UploadViaSftp(localPath, remotePath, s);
      s.open.Pass? && s.metadata.Size? && !(Parent(remotePath).Some? && s.channel.Fail?) && s.sftp.Fail? ==>
        r.result == Err(Context(SFTP_FAILED, Leaf(s.sftp.reason)))
    ensures var r := UploadViaSftp(localPath, remotePath, s);
      s.open.Pass? && s.metadata.Size? && !(Parent(remotePath).Some? && s.channel.Fail?) && s.sftp.Pass? && s.create.Fail? ==>
        r.result == Err(Context(CREATE_REMOTE_FAILED + DebugPath(remotePath), Leaf(s.create.reason)))
  {
    var parent := Parent(remotePath);
    if parent.Some? {
      SingleFraction(Exec(ParentMkdirAsWritten(parent.value)));
    }
  }

  /** Once everything before it passes, the upload ends as its copy loop
      does; on success its last report is 1.0, after the loop's own reports. */
  lemma UploadViaSftpCopies(localPath: string, remotePath: string, s: UploadSftp)
    requires UploadReady(remotePath, s)
    ensures var r := UploadViaSftp(localPath, remotePath, s); var c := CopyFrom(s.steps, s.metadata.n, 0);
      (r.result.Ok? <==> c.result.Ok?) && (c.result.Err? ==> r.result == c.result) &&
      (r.result.Ok? ==>
         r.events != [] && r.events[|r.events| - 1] == Progress(1.0) &&
         Fractions(r.events) == Fractions(c.events) + [1.0]) &&
      (r.result.Err? ==> Fractions(r.events) == Fractions(c.events))
  {
    var parent := Parent(remotePath);
    var mkdir: seq<Event> := if parent.Some? then [Exec(ParentMkdirAsWritten(parent.value))] else [];
    if parent.Some? {
      SingleFraction(Exec(ParentMkdirAsWritten(parent.value)));
    }
    assert UploadViaSftp(localPath, remotePath, s) == Finish(CopyFrom(s.steps, s.metadata.n, 0), mkdir);
    FinishOutcome(CopyFrom(s.steps, s.metadata.n, 0), mkdir);
  }

  /** Finishing after events that report nothing: the copy's result, and its
      reports followed by 1.0 on success. */
  lemma FinishOutcome(c: Copy, before: seq<Event>)
    requires Fractions(before) == []
    ensures var r := Finish(c, before);
      (r.result.Ok? <==> c.result.Ok?) && (c.result.Err? ==> r.result == c.result) &&
      (r.result.Ok? ==>
         r.events != [] && r.events[|r.events| - 1] == Progress(1.0) &&
         Fractions(r.events) == Fractions(c.events) + [1.0]) &&
      (r.result.Err? ==> Fractions(r.events) == Fractions(c.events))
  {
    if c.result.Ok? {
      FinishFractions(c, before);
    } else {
      FractionsAppend(before, c.events);
      assert Finish(c, before).events == before + c.events;
      assert [] + Fractions(c.events) == Fractions(c.events);
    }
  }

  function DownloadViaSftp(remotePath: string, localPath: string, s: DownloadSftp): Run {
    match s.sftp
    case Fail(e) => Run(Err(Context(SFTP_FAILED, Leaf(e))), [])
    case Pass =>
      match s.open
      case Fail(e) => Run(Err(Context(OPEN_REMOTE_FAILED + DebugPath(remotePath), Leaf(e))), [])
      case Pass =>
        match s.stat
        case StatFailed(e) => Run(Err(Leaf(e)), [])
        case Stat(size) =>
          var total := if size.Some? then size.value else 0;
          var parent := Parent(localPath);
          var made := if parent.Some? then [MakeLocalDir(parent.value)] else [];
          if parent.Some? && s.makeParent.Fail? then
            Run(Err(Context(MAKE_LOCAL_DIR_FAILED + DebugPath(parent.value), Leaf(s.makeParent.reason))), made)
          else
            match s.create
            case Fail(e) => Run(Err(Context(CREATE_LOCAL_FAILED + DebugPath(localPath), Leaf(e))), made)
            case Pass => Finish(CopyFrom(s.steps, total, 0), made)
  }

  /** Everything before the download's copy loop passes. */
  predicate DownloadReady(localPath: string, s: DownloadSftp) {
    s.sftp.Pass? && s.open.Pass? && s.stat.Stat? && !(Parent(localPath).Some? && s.makeParent.Fail?) &&
    s.create.Pass?
  }

  /** The size the download's fractions are taken of: unknown counts as 0. */
  function DownloadTotal(s: DownloadSftp): (total: nat)
    requires s.stat.Stat?
    ensures s.stat.size.Some? ==> total == s.stat.size.value
    ensures s.stat.size.None? ==> total == 0
  {
    if s.stat.size.Some? then s.stat.size.value else 0
  }

  /** Each step before the copy aborts the download with its own error, and
      reports no progress; the local parent is created before the file. */
  lemma DownloadViaSftpSteps(remotePath: string, localPath: string, s: DownloadSftp)
    ensures var r := DownloadViaSftp(remotePath, localPath, s);
      !DownloadReady(localPath, s) ==> r.result.Err? && Fractions(r.events) == []
    ensures var r := DownloadViaSftp(remotePath, localPath, s);
      s.sftp.Fail? ==> r == Run(Err(Context(SFTP_FAILED, Leaf(s.sftp.reason))), [])
    ensures var r := DownloadViaSftp(remotePath, localPath, s);
      s.sftp.Pass? && s.open.Fail? ==> r.result == Err(Context(OPEN_REMOTE_FAILED + DebugPath(remotePath), Leaf(s.open.reason)))
    ensures var r := DownloadViaSftp(remotePath, localPath, s);
      s.sftp.Pass? && s.open.Pass? && s.stat.StatFailed? ==> r.result == Err(Leaf(s.stat.reason))
    ensures var r := DownloadViaSftp(remotePath, localPath, s);
      s.sftp.Pass? && s.open.Pass? && s.stat.Stat? && Parent(localPath).Some? ==>
        r.events != [] && r.events[0] == MakeLocalDir(Parent(localPath).value) &&
        (s.makeParent.Fail? ==> r.result == Err(Context(MAKE_LOCAL_DIR_FAILED + DebugPath(Parent(localPath).value), Leaf(s.makeParent.reason))))
    ensures var r := DownloadViaSftp(remotePath, localPath, s);
      s.sftp.Pass? && s.open.Pass? && s.stat.Stat? && !(Parent(localPath).Some? && s.makeParent.Fail?) && s.create.Fail? ==>
        r.result == Err(Context(CREATE_LOCAL_FAILED + DebugPath(localPath), Leaf(s.create.reason)))
  {
    var parent := Parent(localPath);
    if parent.Some? {
      SingleFraction(MakeLocalDir(parent.value));
    }
  }

  /** Once everything before it passes, the download ends as its copy loop
      does over the stated size; on success its last report is 1.0. */
  lemma DownloadViaSftpCopies(remotePath: string, localPath: string, s: DownloadSftp)
    requires DownloadReady(localPath, s)
    ensures var r := DownloadViaSftp(remotePath, localPath, s); var c := CopyFrom(s.steps, DownloadTotal(s), 0);
      (r.result.Ok? <==> c.result.Ok?) && (c.result.Err? ==> r.result == c.result) &&
      (r.result.Ok? ==>
         r.events != [] && r.events[|r.events| - 1] == Progress(1.0) &&
         Fractions(r.events) == Fractions(c.events) + [1.0]) &&
      (r.result.Err? ==> Fractions(r.events) == Fractions(c.events))
  {
    var parent := Parent(localPath);
    var made: seq<Event> := if parent.Some? then [MakeLocalDir(parent.value)] else [];
    if parent.Some? {
      SingleFraction(MakeLocalDir(parent.value));
    }
    assert DownloadViaSftp(remotePath, localPath, s) == Finish(CopyFrom(s.steps, DownloadTotal(s), 0), made);
    FinishOutcome(CopyFrom(s.steps, DownloadTotal(s), 0), made);
  }

  /** The sftp upload as the program writes it, around the copy loop. */
  method UploadFileViaSftp(localPath: string, remotePath: string, s: UploadSftp) returns (r: Run)
    ensures r == UploadViaSftp(localPath, remotePath, s)
  {
    if s.open.Fail? {
      return Run(Err(Context(OPEN_LOCAL_FAILED + DebugPath(localPath), Leaf(s.open.reason))), []);
    }
    if s.metadata.SizeFailed? {
      return Run(Err(Leaf(s.metadata.reason)), []);
    }
    var total := s.metadata.n;
    var events: seq<Event> := [];
    var parent := Parent(remotePath);
    if parent.Some? {
      if s.channel.Fail? {
        return Run(Err(Leaf(s.channel.reason)), []);
      }
      events := events + [Exec(ParentMkdirAsWritten(parent.value))];
    }
    if s.sftp.Fail? {
      return Run(Err(Context(SFTP_FAILED, Leaf(s.sftp.reason))), events);
    }
    if s.create.Fail? {
      return Run(Err(Context(CREATE_REMOTE_FAILED + DebugPath(remotePath), Leaf(s.create.reason))), events);
    }
    var c := CopyChunks(s.steps, total);
    r := Finish(c, events);
  }

  /** The sftp download as the program writes it, around the copy loop. */
  method DownloadFileViaSftp(remotePath: string, localPath: string, s: DownloadSftp) returns (r: Run)
    ensures r == DownloadViaSftp(remotePath, localPath, s)
  {
    if s.sftp.Fail? {
      return Run(Err(Context(SFTP_FAILED, Leaf(s.sftp.reason))), []);
    }
    if s.open.Fail? {
      return Run(Err(Context(OPEN_REMOTE_FAILED + DebugPath(remotePath), Leaf(s.open.reason))), []);
    }
    if s.stat.StatFailed? {
      return Run(Err(Leaf(s.stat.reason)), []);
    }
    var total := if s.stat.size.Some? then s.stat.size.value else 0;
    var events: seq<Event> := [];
    var parent := Parent(localPath);
    if parent.Some? {
      events := events + [MakeLocalDir(parent.value)];
      if s.makeParent.Fail? {
        return Run(Err(Context(MAKE_LOCAL_DIR_FAILED + DebugPath(parent.value), Leaf(s.makeParent.reason))), events);
      }
    }
    if s.create.Fail? {
      return Run(Err(Context(CREATE_LOCAL_FAILED + DebugPath(localPath), Leaf(s.create.reason))), events);
    }
    var c := CopyChunks(s.steps, total);
    r := Finish(c, events);
  }

  // ---------------------------------------------------------------------------
  // scp first, sftp as the fallback

  datatype UploadScript = UploadScript(scp: ScpScript, sftp: UploadSftp)
  datatype DownloadScript = DownloadScript(scp: ScpScript, sftp: DownloadSftp)

  /** Falling back: the sftp result, its error wrapped with the scp error. */
  function Fallback(first: Run, second: Run): Run
    requires first.result.Err?
  {
    Run(second.result.WithContext(BOTH_FAILED + first.result.error.Display()), first.events + second.events)
  }

  function Upload(config: ServerConfig, localPath: string, remotePath: string, f: UploadScript): Run {
    var s := UploadViaScp(config, localPath, remotePath, f.scp);
    if s.result.Ok? then s else Fallback(s, UploadViaSftp(localPath, remotePath, f.sftp))
  }

  function Download(config: ServerConfig, remotePath: string, localPath: string, f: DownloadScript): Run {
    var s := DownloadViaScp(config, remotePath, localPath, f.scp);
    if s.result.Ok? then s else Fallback(s, DownloadViaSftp(remotePath, localPath, f.sftp))
  }

  /** The upload as the program writes it. */
  method UploadFile(u: SshClient.SshUploader, localPath: string, remotePath: string, f: UploadScript) returns (r: Run)
    ensures r == Upload(u.config, localPath, remotePath, f)
  {
    r := UploadViaScp(u.config, localPath, remotePath, f.scp);
    if r.result.Err? {
      var second := UploadFileViaSftp(localPath, remotePath, f.sftp);
      r := Fallback(r, second);
    }
  }

  /** The download as the program writes it. */
  method DownloadFile(u: SshClient.SshUploader, remotePath: string, localPath: string, f: DownloadScript) returns (r: Run)
    ensures r == Download(u.config, remotePath, localPath, f)
  {
    r := DownloadViaScp(u.config, remotePath, localPath, f.scp);
    if r.result.Err? {
      var second := DownloadFileViaSftp(remotePath, localPath, f.sftp);
      r := Fallback(r, second);
    }
  }

  /** A successful scp ends the transfer: nothing of the sftp path happens.
      Otherwise the result is the sftp result, and its error is wrapped in a
      context that names the scp error. */
  lemma UploadFallback(u: SshClient.SshUploader, localPath: string, remotePath: string, f: UploadScript)
    ensures var s := UploadViaScp(u.config, localPath, remotePath, f.scp);
      var t := UploadViaSftp(localPath, remotePath, f.sftp);
      var r := Upload(u.config, localPath, remotePath, f);
      (s.result.Ok? ==> r == s) &&
      (s.result.Err? ==>
        r.result.Ok? == t.result.Ok? && r.events == s.events + t.events &&
        (t.result.Err? ==> r.result.error == Context(BOTH_FAILED + s.result.error.Display(), t.result.error)))
  {
  }

  lemma DownloadFallback(u: SshClient.SshUploader, remotePath: string, localPath: string, f: DownloadScript)
    ensures var s := DownloadViaScp(u.config, remotePath, localPath, f.scp);
      var t := DownloadViaSftp(remotePath, localPath, f.sftp);
      var r := Download(u.config, remotePath, localPath, f);
      (s.result.Ok? ==> r == s) &&
      (s.result.Err? ==>
        r.result.Ok? == t.result.Ok? && r.events == s.events + t.events &&
        (t.result.Err? ==> r.result.error == Context(BOTH_FAILED + s.result.error.Display(), t.result.error)))
  {
  }

  /** Progress is not monotone across the fallback: scp reports 0.1 before it
      fails, and the first sftp chunk can then report less (here 5 bytes of
      100 report 0.05), whatever the paths. */
  lemma ProgressNotMonotoneAcrossFallback(u: SshClient.SshUploader, f: UploadScript, localPath: string, remotePath: string)
    requires f.scp.available && f.scp.spawn.Pass? && !f.scp.exitOk
    requires ExampleSftp(f.sftp)
    ensures var fs := Fractions(Upload(u.config, localPath, remotePath, f).events);
      fs == [0.0, 0.1, 0.05, 1.0, 1.0] && fs[1] > fs[2]
  {
    FallbackExampleFractions(u, f, localPath, remotePath);
    ExampleFractionsJoined([0.0, 0.1], [0.05, 1.0, 1.0]);
  }

  lemma ExampleFractionsJoined(a: seq<real>, b: seq<real>)
    requires a == [0.0, 0.1] && b == [0.05, 1.0, 1.0]
    ensures a + b == [0.0, 0.1, 0.05, 1.0, 1.0] && (a + b)[1] > (a + b)[2]
  {
  }

  /** The fallback's fractions are those of the failed scp run, then those of sftp. */
  lemma FallbackExampleFractions(u: SshClient.SshUploader, f: UploadScript, localPath: string, remotePath: string)
    requires f.scp.available && f.scp.spawn.Pass? && !f.scp.exitOk
    requires ExampleSftp(f.sftp)
    ensures Fractions(Upload(u.config, localPath, remotePath, f).events) == [0.0, 0.1] + [0.05, 1.0, 1.0]
  {
    var s := UploadViaScp(u.config, localPath, remotePath, f.scp);
    var t := UploadViaSftp(localPath, remotePath, f.sftp);
    ScpFailureFractions(u.config, localPath, remotePath, f.scp);
    ExampleSftpFractions(localPath, remotePath, f.sftp);
    UploadEventsAfterScpFailure(u, localPath, remotePath, f);
    FractionsAppend(s.events, t.events);
  }

  lemma UploadEventsAfterScpFailure(u: SshClient.SshUploader, localPath: string, remotePath: string, f: UploadScript)
    requires UploadViaScp(u.config, localPath, remotePath, f.scp).result.Err?
    ensures Upload(u.config, localPath, remotePath, f).events ==
      UploadViaScp(u.config, localPath, remotePath, f.scp).events + UploadViaSftp(localPath, remotePath, f.sftp).events
  {
  }

  /** A failing scp run reports 0.0 and 0.1. */
  lemma ScpFailureFractions(config: ServerConfig, localPath: string, remotePath: string, s: ScpScript)
    requires s.available && s.spawn.Pass? && !s.exitOk
    ensures UploadViaScp(config, localPath, remotePath, s).result.Err?
    ensures Fractions(UploadViaScp(config, localPath, remotePath, s).events) == [0.0, 0.1]
  {
    var r := RunScpCommand(s, ScpOptions(config) + [localPath, BuildRemoteTarget(config, remotePath)], SCP_UPLOAD_FAILED);
    RunScpFailureFractions(s, ScpOptions(config) + [localPath, BuildRemoteTarget(config, remotePath)], SCP_UPLOAD_FAILED);
    FractionsAppend([Progress(0.0)], r.events);
    SingleFraction(Progress(0.0));
  }

  lemma RunScpFailureFractions(s: ScpScript, args: seq<string>, failure: string)
    requires s.spawn.Pass? && !s.exitOk
    ensures RunScpCommand(s, args, failure).result.Err?
    ensures Fractions(RunScpCommand(s, args, failure).events) == [0.1]
  {
    FractionsAppend([Progress(0.1)], [RunScp(args)]);
    assert [Progress(0.1)] + [RunScp(args)] == [Progress(0.1), RunScp(args)];
    SingleFraction(Progress(0.1));
    SingleFraction(RunScp(args));
  }

  /** An sftp upload where every step passes, the file has 100 bytes, and
      they are read as 5 and then 95. */
  predicate ExampleSftp(sftp: UploadSftp) {
    sftp.open.Pass? && sftp.metadata == Size(100) && sftp.channel.Pass? &&
    sftp.sftp.Pass? && sftp.create.Pass? && sftp.steps == [Data(5), Data(95)]
  }

  /** That upload reports 0.05, 1 and the final 1, whatever the paths. */
  lemma ExampleSftpFractions(localPath: string, remotePath: string, sftp: UploadSftp)
    requires ExampleSftp(sftp)
    ensures Fractions(UploadViaSftp(localPath, remotePath, sftp).events) == [0.05, 1.0, 1.0]
  {
    var c := CopyFrom(sftp.steps, 100, 0);
    ExampleCopy(sftp.steps);
    var parent := Parent(remotePath);
    var mkdir: seq<Event> := if parent.Some? then [Exec(ParentMkdirAsWritten(parent.value))] else [];
    assert UploadViaSftp(localPath, remotePath, sftp) == Finish(c, mkdir);
    if parent.Some? {
      SingleFraction(Exec(ParentMkdirAsWritten(parent.value)));
    }
    FinishFractions(c, mkdir);
    assert [0.05, 1.0] + [1.0] == [0.05, 1.0, 1.0];
  }

  /** A successful copy after events that report nothing: its fractions, then 1. */
  lemma FinishFractions(c: Copy, before: seq<Event>)
    requires c.result.Ok? && Fractions(before) == []
    ensures Fractions(Finish(c, before).events) == Fractions(c.events) + [1.0]
  {
    FractionsAppend(before + c.events, [Progress(1.0)]);
    FractionsAppend(before, c.events);
    SingleFraction(Progress(1.0));
    assert [] + Fractions(c.events) == Fractions(c.events);
  }

  /** The copy loop over chunks of 5 and 95 bytes of 100 reports 0.05 and 1. */
  lemma ExampleCopy(steps: seq<Step>)
    requires steps == [Data(5), Data(95)]
    ensures var c := CopyFrom(steps, 100, 0); c.result.Ok? && Fractions(c.events) == [0.05, 1.0]
  {
    var tail := steps[1..];
    assert tail == [Data(95)] && tail[1..] == [];
    ChunkStep(tail, 100, 5, 95);
    NoChunk(tail[1..], 100, 100);
    FractionsOfChunk(95, 100, 100, []);
    var last := CopyFrom(tail, 100, 5);
    ChunkStep(steps, 100, 0, 5);
    FractionsOfChunk(5, 100, 5, last.events);
    RatioOfWhole(100);
    assert Ratio(5, 100) == 0.05;
  }

  lemma SingleFraction(e: Event)
    ensures Fractions([e]) == if e.Progress? then [e.fraction] else []
  {
    assert [e][1..] == [];
  }

  // ---------------------------------------------------------------------------
  // Directories

  /** A local directory as the recursive upload meets it: whether the channel
      for its remote `mkdir` opens, and what reading it gives. The entries are
      those the listing yielded without error (the others are dropped before
      the count is taken). */
  datatype LocalDir = LocalDir(mkdirChannel: Outcome, listing: LocalListing)
  datatype LocalListing = LocalUnreadable(reason: string) | LocalEntries(entries: seq<LocalEntry>)
  datatype LocalEntry = LocalFile(name: string, script: UploadScript) | LocalSubdir(name: string, dir: LocalDir)

  /** A remote directory as the recursive download meets it: whether the
      local directory can be created, and what the remote listing returned. */
  datatype RemoteDir = RemoteDir(makeLocal: Outcome, listing: RemoteListing)
  datatype RemoteListing = ListFailed(error: Error) | Listed(entries: seq<RemoteChild>)
  datatype RemoteChild = RemoteFile(name: string, script: DownloadScript) | RemoteSubdir(name: string, dir: RemoteDir)

  /** The entries of one directory from `i` on, given what each entry's own
      transfer does: entries run in order, the first failure ends the level
      with its error, and after entry `i` of `total` the callback receives
      `(i + 1) / total`. */
  function Level(runs: seq<Run>, i: nat): Run
    requires i <= |runs|
    decreases |runs| - i
  {
    if i == |runs| then Run(Ok(()), [])
    else if runs[i].result.Err? then runs[i]
    else
      var rest := Level(runs, i + 1);
      Run(rest.result, runs[i].events + [Progress(Ratio(i + 1, |runs|))] + rest.events)
  }

  /** What the entries `i` to `k` log when they all succeed: each entry's own
      log, then the level's fraction. */
  function Trace(runs: seq<Run>, i: nat, k: nat): seq<Event>
    requires i <= k <= |runs|
    decreases k - i
  {
    if i == k then []
    else runs[i].events + [Progress(Ratio(i + 1, |runs|))] + Trace(runs, i + 1, k)
  }

  /** A level succeeds exactly when every entry of it does. */
  lemma {:induction false} LevelOk(runs: seq<Run>, i: nat)
    requires i <= |runs|
    ensures Level(runs, i).result.Ok? <==> forall j :: i <= j < |runs| ==> runs[j].result.Ok?
    decreases |runs| - i
  {
    if i < |runs| {
      LevelOk(runs, i + 1);
    }
  }

  /** When every entry succeeds the level logs each entry and then its
      fraction `(i + 1) / total`. */
  lemma {:induction false} LevelTrace(runs: seq<Run>, i: nat)
    requires i <= |runs|
    requires forall j :: i <= j < |runs| ==> runs[j].result.Ok?
    ensures Level(runs, i) == Run(Ok(()), Trace(runs, i, |runs|))
    decreases |runs| - i
  {
    if i < |runs| {
      LevelTrace(runs, i + 1);
    }
  }

  /** The first failing entry ends the level with its error: the entries
      after it are never transferred. */
  lemma {:induction false} LevelAborts(runs: seq<Run>, i: nat, k: nat)
    requires i <= k < |runs|
    requires forall j :: i <= j < k ==> runs[j].result.Ok?
    requires runs[k].result.Err?
    ensures Level(runs, i) == Run(runs[k].result, Trace(runs, i, k) + runs[k].events)
    decreases k - i
  {
    if i == k {
      assert Trace(runs, i, k) + runs[k].events == runs[k].events;
    } else {
      LevelAborts(runs, i + 1, k);
      var p := [Progress(Ratio(i + 1, |runs|))];
      var t := Trace(runs, i + 1, k);
      assert runs[i].events + p + (t + runs[k].events) == (runs[i].events + p + t) + runs[k].events;
    }
  }

  /** One entry of a level that succeeds, moved into the log before it. */
  lemma LevelStep(runs: seq<Run>, i: nat, events: seq<Event>, whole: Run)
    requires i < |runs| && runs[i].result.Ok?
    requires whole == Run(Level(runs, i).result, events + Level(runs, i).events)
    ensures whole == Run(Level(runs, i + 1).result,
      (events + (runs[i].events + [Progress(Ratio(i + 1, |runs|))])) + Level(runs, i + 1).events)
  {
    var step := runs[i].events + [Progress(Ratio(i + 1, |runs|))];
    assert events + (step + Level(runs, i + 1).events) == (events + step) + Level(runs, i + 1).events;
  }

  /** A failing entry ends the level with its own result and log. */
  lemma LevelStops(runs: seq<Run>, i: nat, events: seq<Event>, whole: Run)
    requires i < |runs| && runs[i].result.Err?
    requires whole == Run(Level(runs, i).result, events + Level(runs, i).events)
    ensures whole == Run(runs[i].result, events + runs[i].events)
  {
  }

  /** Past the last entry nothing is left to log. */
  lemma LevelEnds(runs: seq<Run>, events: seq<Event>, whole: Run)
    requires whole == Run(Level(runs, |runs|).result, events + Level(runs, |runs|).events)
    ensures whole == Run(Ok(()), events)
  {
    assert events + [] == events;
  }

  /** `upload_dir_recursive`: the remote directory first, then the local
      listing, then the entries as one level. */
  function UploadDir(u: SshClient.SshUploader, localDir: string, remoteDir: string, d: LocalDir): Run
    decreases d, 1
  {
    match SshClient.RemoteMkdir(u, d.mkdirChannel, remoteDir)
    case Err(e) => Run(Err(e), [])
    case Ok(cmd) =>
      var begun := [Mkdir(cmd), ReadLocalDir(localDir)];
      match d.listing
      case LocalUnreadable(e) => Run(Err(Context(READ_LOCAL_DIR_FAILED + DebugPath(localDir), Leaf(e))), begun)
      case LocalEntries(_) =>
        var r := Level(UploadRuns(u, localDir, remoteDir, d), 0);
        Run(r.result, begun + r.events)
  }

  /** What each entry's own transfer does: a directory recursively, a file by
      `Upload`. */
  function UploadRuns(u: SshClient.SshUploader, localDir: string, remoteDir: string, d: LocalDir): (runs: seq<Run>)
    requires d.listing.LocalEntries?
    ensures |runs| == |d.listing.entries|
    decreases d, 0
  {
    var es := d.listing.entries;
    seq(|es|, j requires 0 <= j < |es| =>
      match es[j]
      case LocalSubdir(name, sub) => UploadDir(u, Join(localDir, name), Join(remoteDir, name), sub)
      case LocalFile(name, script) => Upload(u.config, Join(localDir, name), Join(remoteDir, name), script))
  }

  /** A listed directory's entry `i` is transferred as its kind says. */
  lemma UploadRunAt(u: SshClient.SshUploader, localDir: string, remoteDir: string, d: LocalDir, i: nat)
    requires d.listing.LocalEntries? && i < |d.listing.entries|
    ensures var e := d.listing.entries[i];
      UploadRuns(u, localDir, remoteDir, d)[i] ==
        if e.LocalSubdir? then UploadDir(u, Join(localDir, e.name), Join(remoteDir, e.name), e.dir)
        else Upload(u.config, Join(localDir, e.name), Join(remoteDir, e.name), e.script)
  {
  }

  /** Once the remote directory exists and the local one is read, the upload is its level. */
  lemma UploadDirListed(u: SshClient.SshUploader, localDir: string, remoteDir: string, d: LocalDir, cmd: SshClient.RemoteCommand)
    requires SshClient.RemoteMkdir(u, d.mkdirChannel, remoteDir) == Ok(cmd) && d.listing.LocalEntries?
    ensures var r := Level(UploadRuns(u, localDir, remoteDir, d), 0);
      UploadDir(u, localDir, remoteDir, d) == Run(r.result, [Mkdir(cmd), ReadLocalDir(localDir)] + r.events)
  {
  }

  /** `upload_dir_recursive` as the program writes it. */
  method UploadDirRecursive(u: SshClient.SshUploader, localDir: string, remoteDir: string, d: LocalDir) returns (r: Run)
    ensures r == UploadDir(u, localDir, remoteDir, d)
    decreases d
  {
    var made := SshClient.RemoteMkdir(u, d.mkdirChannel, remoteDir);
    if made.Err? {
      return Run(Err(made.error), []);
    }
    var events := [Mkdir(made.value), ReadLocalDir(localDir)];
    if d.listing.LocalUnreadable? {
      return Run(Err(Context(READ_LOCAL_DIR_FAILED + DebugPath(localDir), Leaf(d.listing.reason))), events);
    }
    var entries := d.listing.entries;
    ghost var runs := UploadRuns(u, localDir, remoteDir, d);
    UploadDirListed(u, localDir, remoteDir, d, made.value);
    var total := |entries|;
    var i := 0;
    while i < total
      invariant 0 <= i <= total
      invariant UploadDir(u, localDir, remoteDir, d) == Run(Level(runs, i).result, events + Level(runs, i).events)
    {
      var child: Run;
      match entries[i] {
        case LocalSubdir(name, sub) =>
          child := UploadDirRecursive(u, Join(localDir, name), Join(remoteDir, name), sub);
        case LocalFile(name, script) =>
          child := UploadFile(u, Join(localDir, name), Join(remoteDir, name), script);
      }
      UploadRunAt(u, localDir, remoteDir, d, i);
      assert child == runs[i];
      if child.result.Err? {
        LevelStops(runs, i, events, UploadDir(u, localDir, remoteDir, d));
        return Run(child.result, events + child.events);
      }
      LevelStep(runs, i, events, UploadDir(u, localDir, remoteDir, d));
      events := events + (child.events + [Progress(Ratio(i + 1, total))]);
      i := i + 1;
    }
    LevelEnds(runs, events, UploadDir(u, localDir, remoteDir, d));
    return Run(Ok(()), events);
  }

  /** The remote directory is made before anything else happens: when its
      `mkdir` fails nothing else is done, and otherwise the log opens with
      that `mkdir` and the local listing. */
  lemma UploadDirMakesRemoteDirFirst(u: SshClient.SshUploader, localDir: string, remoteDir: string, d: LocalDir)
    ensures var r := UploadDir(u, localDir, remoteDir, d);
      var made := SshClient.RemoteMkdir(u, d.mkdirChannel, remoteDir);
      (made.Err? ==> r == Run(Err(made.error), [])) &&
      (made.Ok? ==> |r.events| >= 2 && r.events[0] == Mkdir(made.value) && r.events[1] == ReadLocalDir(localDir))
  {
  }

  /** `download_dir_recursive`: the local directory first, then the remote
      listing, then the entries as one level. */
  function DownloadDir(u: SshClient.SshUploader, remoteDir: string, localDir: string, d: RemoteDir): Run
    decreases d, 1
  {
    var made := [MakeLocalDir(localDir)];
    match d.makeLocal
    case Fail(e) => Run(Err(Context(MAKE_LOCAL_DIR_FAILED + DebugPath(localDir), Leaf(e))), made)
    case Pass =>
      var listed := made + [ListRemoteDir(SshClient.RemotePath(remoteDir))];
      match d.listing
      case ListFailed(e) => Run(Err(e), listed)
      case Listed(_) =>
        var r := Level(DownloadRuns(u, remoteDir, localDir, d), 0);
        Run(r.result, listed + r.events)
  }

  function DownloadRuns(u: SshClient.SshUploader, remoteDir: string, localDir: string, d: RemoteDir): (runs: seq<Run>)
    requires d.listing.Listed?
    ensures |runs| == |d.listing.entries|
    decreases d, 0
  {
    var es := d.listing.entries;
    seq(|es|, j requires 0 <= j < |es| =>
      match es[j]
      case RemoteSubdir(name, sub) => DownloadDir(u, Join(remoteDir, name), Join(localDir, name), sub)
      case RemoteFile(name, script) => Download(u.config, Join(remoteDir, name), Join(localDir, name), script))
  }

  lemma DownloadRunAt(u: SshClient.SshUploader, remoteDir: string, localDir: string, d: RemoteDir, i: nat)
    requires d.listing.Listed? && i < |d.listing.entries|
    ensures var e := d.listing.entries[i];
      DownloadRuns(u, remoteDir, localDir, d)[i] ==
        if e.RemoteSubdir? then DownloadDir(u, Join(remoteDir, e.name), Join(localDir, e.name), e.dir)
        else Download(u.config, Join(remoteDir, e.name), Join(localDir, e.name), e.script)
  {
  }

  lemma DownloadDirListed(u: SshClient.SshUploader, remoteDir: string, localDir: string, d: RemoteDir)
    requires d.makeLocal.Pass? && d.listing.Listed?
    ensures var r := Level(DownloadRuns(u, remoteDir, localDir, d), 0);
      DownloadDir(u, remoteDir, localDir, d) ==
        Run(r.result, [MakeLocalDir(localDir)] + [ListRemoteDir(SshClient.RemotePath(remoteDir))] + r.events)
  {
  }

  /** `download_dir_recursive` as the program writes it. */
  method DownloadDirRecursive(u: SshClient.SshUploader, remoteDir: string, localDir: string, d: RemoteDir) returns (r: Run)
    ensures r == DownloadDir(u, remoteDir, localDir, d)
    decreases d
  {
    var events := [MakeLocalDir(localDir)];
    if d.makeLocal.Fail? {
      return Run(Err(Context(MAKE_LOCAL_DIR_FAILED + DebugPath(localDir), Leaf(d.makeLocal.reason))), events);
    }
    events := events + [ListRemoteDir(SshClient.RemotePath(remoteDir))];
    if d.listing.ListFailed? {
      return Run(Err(d.listing.error), events);
    }
    var entries := d.listing.entries;
    ghost var runs := DownloadRuns(u, remoteDir, localDir, d);
    DownloadDirListed(u, remoteDir, localDir, d);
    var total := |entries|;
    var i := 0;
    while i < total
      invariant 0 <= i <= total
      invariant DownloadDir(u, remoteDir, localDir, d) == Run(Level(runs, i).result, events + Level(runs, i).events)
    {
      var child: Run;
      match entries[i] {
        case RemoteSubdir(name, sub) =>
          child := DownloadDirRecursive(u, Join(remoteDir, name), Join(localDir, name), sub);
        case RemoteFile(name, script) =>
          child := DownloadFile(u, Join(remoteDir, name), Join(localDir, name), script);
      }
      DownloadRunAt(u, remoteDir, localDir, d, i);
      assert child == runs[i];
      if child.result.Err? {
        LevelStops(runs, i, events, DownloadDir(u, remoteDir, localDir, d));
        return Run(child.result, events + child.events);
      }
      LevelStep(runs, i, events, DownloadDir(u, remoteDir, localDir, d));
      events := events + (child.events + [Progress(Ratio(i + 1, total))]);
      i := i + 1;
    }
    LevelEnds(runs, events, DownloadDir(u, remoteDir, localDir, d));
    return Run(Ok(()), events);
  }

  /** The local directory is created before the remote one is listed, and
      nothing else is done when that fails. */
  lemma DownloadDirMakesLocalDirFirst(u: SshClient.SshUploader, remoteDir: string, localDir: string, d: RemoteDir)
    ensures var r := DownloadDir(u, remoteDir, localDir, d);
      r.events[0] == MakeLocalDir(localDir) &&
      (d.makeLocal.Fail? ==> r.result.Err? && |r.events| == 1) &&
      (d.makeLocal.Pass? ==> |r.events| >= 2 && r.events[1] == ListRemoteDir(SshClient.RemotePath(remoteDir)))
  {
  }
}
