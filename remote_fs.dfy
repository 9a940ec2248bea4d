/** Remote file operations of the flat module (src/remote_fs.rs): the shell
    commands for mkdir, remove and rename, the listing through sftp or by
    parsing `ls -la` run by the system ssh, the order listings are shown in,
    and the choice between the SSH library and the system ssh. */
module RemoteFs {
  import opened Wrappers
  import opened Text
  import opened ShellQuote
  import SshClient

  datatype RemoteEntry = RemoteEntry(name: string, isDir: bool, size: nat, modified: string)

  const SFTP_SESSION_FAILED := "SFTP 会话失败: "
  const READ_DIR_FAILED := "读取目录失败: "
  const LS_FAILED := "ls 失败: "
  const EXEC_FAILED := "执行命令失败: "
  const EXIT_CODE := "命令退出码 "
  const COMMAND_FAILED := "命令失败: "

  // ---------------------------------------------------------------------------
  // Commands

  /** `mkdir -p E(path)`: the shell reads back the path as one argument. */
  function MkdirCommand(path: string): (cmd: string)
    ensures ReadWords(cmd) == Some(["mkdir", "-p", path])
  {
    var cmd := "mkdir -p " + EscapeShellArg(path);
    MkdirPrefix(EscapeShellArg(path), cmd);
    ReadPlainPlainEscaped("mkdir", "-p", path, cmd);
    cmd
  }

  /** `rm -rf E(path)` for a directory, `rm -f E(path)` for a file. */
  function RemoveCommand(path: string, isDir: bool): (cmd: string)
    ensures ReadWords(cmd) == Some(["rm", if isDir then "-rf" else "-f", path])
  {
    if isDir then
      var cmd := "rm -rf " + EscapeShellArg(path);
      assert "rm -rf " == "rm" + " " + "-rf" + " ";
      ReadPlainPlainEscaped("rm", "-rf", path, cmd);
      cmd
    else
      var cmd := "rm -f " + EscapeShellArg(path);
      assert "rm -f " == "rm" + " " + "-f" + " ";
      ReadPlainPlainEscaped("rm", "-f", path, cmd);
      cmd
  }

  /** `mv E(from) E(to)`: the shell reads back both paths unchanged. */
  function RenameCommand(from: string, to: string): (cmd: string)
    ensures ReadWords(cmd) == Some(["mv", from, to])
  {
    var cmd := "mv " + EscapeShellArg(from) + " " + EscapeShellArg(to);
    assert "mv " == "mv" + " ";
    ReadPlainEscapedEscaped("mv", from, to, cmd);
    cmd
  }

  /** The listing command the system ssh runs. */
  function ListCommand(path: string): (cmd: string)
    ensures ReadWords(cmd) == Some(["ls", "-la", "--time-style=long-iso", path])
  {
    var cmd := "ls -la --time-style=long-iso " + EscapeShellArg(path);
    ListPrefix(EscapeShellArg(path), cmd);
    ReadPlainPlainPlainEscaped("ls", "-la", "--time-style=long-iso", path, cmd);
    cmd
  }

  /** The words of the listing command's prefix. */
  lemma ListPrefix(tail: string, t: string)
    requires t == "ls -la --time-style=long-iso " + tail
    ensures t == "ls" + " " + "-la" + " " + "--time-style=long-iso" + " " + tail
  {
    var style := "--time-style=long-iso";
    assert "ls -la --time-style=long-iso " == "ls -la " + (style + " ");
    assert "ls -la " == "ls" + " " + "-la" + " ";
  }

  /** Three plain words and an escaped argument. */
  lemma ReadPlainPlainPlainEscaped(w1: string, w2: string, w3: string, arg: string, t: string)
    requires PlainWord(w1) && PlainWord(w2) && PlainWord(w3)
    requires t == w1 + " " + w2 + " " + w3 + " " + EscapeShellArg(arg)
    ensures ReadWords(t) == Some([w1, w2, w3, arg])
  {
    var e := EscapeShellArg(arg);
    var t2 := w2 + " " + w3 + " " + e;
    ReadPlainPlainEscaped(w2, w3, arg, t2);
    ConcatRegroup(w1, w2, w3, e, t2, t);
    ReadPlainThen(w1, t2, [w2, w3, arg], t);
    assert [w1] + [w2, w3, arg] == [w1, w2, w3, arg];
  }

  lemma ConcatRegroup(a: string, b: string, c: string, d: string, bcd: string, t: string)
    requires bcd == b + " " + c + " " + d && t == a + " " + b + " " + c + " " + d
    ensures t == a + " " + bcd
  {
  }

  // ---------------------------------------------------------------------------
  // Parsing `ls -la --time-style=long-iso`

  /** One line of the listing: at least 8 fields, not the `total` line, and
      not `.` or `..`; the name is the fields from the eighth on. */
  function ParseLsLine(line: string): (r: Option<RemoteEntry>)
    ensures r.Some? ==> r.value.name != "." && r.value.name != ".."
  {
    ParseFields(SplitWhitespace(line))
  }

  function ParseFields(parts: seq<string>): (r: Option<RemoteEntry>)
    ensures r.Some? ==> r.value.name != "." && r.value.name != ".."
  {
    if |parts| < 8 || parts[0] == "total" then None
    else
      var name := JoinSpace(parts[7..]);
      if name == "." || name == ".." then None
      else
        var size := ParseUnsigned(parts[4], U64_BOUND);
        Some(RemoteEntry(name, StartsWith(parts[0], "d"), if size.Some? then size.value else 0, parts[5] + " " + parts[6]))
  }

  /** The entries one line contributes: none or one. */
  function LineEntries(line: string): (r: seq<RemoteEntry>)
    ensures |r| <= 1
    ensures forall i :: 0 <= i < |r| ==> r[i].name != "." && r[i].name != ".."
  {
    var p := ParseLsLine(line);
    if p.Some? then [p.value] else []
  }

  function ParseLsLines(lines: seq<string>): (r: seq<RemoteEntry>)
    ensures |r| <= |lines|
    ensures forall i :: 0 <= i < |r| ==> r[i].name != "." && r[i].name != ".."
  {
    if lines == [] then [] else LineEntries(lines[0]) + ParseLsLines(lines[1..])
  }

  /** `parse_ls_output`: the entries of the lines that parse, in line order. */
  function ParseLsOutput(output: string): (r: seq<RemoteEntry>)
    ensures |r| <= |Lines(output)|
    ensures forall i :: 0 <= i < |r| ==> r[i].name != "." && r[i].name != ".."
  {
    ParseLsLines(Lines(output))
  }

  /** Entries keep the order of their lines: parsing distributes over
      concatenation. */
  lemma {:induction false} ParseLsLinesAppend(a: seq<string>, b: seq<string>)
    ensures ParseLsLines(a + b) == ParseLsLines(a) + ParseLsLines(b)
  {
    if a == [] {
      assert a + b == b;
    } else {
      assert (a + b)[0] == a[0];
      assert (a + b)[1..] == a[1..] + b;
      ParseLsLinesAppend(a[1..], b);
      var h := LineEntries(a[0]);
      assert ParseLsLines(a + b) == h + (ParseLsLines(a[1..]) + ParseLsLines(b));
      assert h + (ParseLsLines(a[1..]) + ParseLsLines(b)) == (h + ParseLsLines(a[1..])) + ParseLsLines(b);
    }
  }

  /** Every entry comes from a line of the input that parses to it. */
  lemma {:induction false} ParseLsLinesFromLines(lines: seq<string>)
    ensures forall e :: e in ParseLsLines(lines) ==> exists k :: 0 <= k < |lines| && ParseLsLine(lines[k]) == Some(e)
  {
    if lines != [] {
      ParseLsLinesFromLines(lines[1..]);
      forall e | e in ParseLsLines(lines)
        ensures exists k :: 0 <= k < |lines| && ParseLsLine(lines[k]) == Some(e)
      {
        if ParseLsLine(lines[0]) == Some(e) {
        } else {
          assert e !in LineEntries(lines[0]);
          assert e in ParseLsLines(lines[1..]);
          var k :| 0 <= k < |lines[1..]| && ParseLsLine(lines[1..][k]) == Some(e);
          assert lines[k + 1] == lines[1..][k];
        }
      }
    }
  }

  predicate Field(s: string) {
    s != [] && NoWhitespace(s)
  }

  /** Any line whose whitespace-separated fields (however many blanks pad the
      columns) are `fields` parses to them: the directory flag from the
      permissions (the first field), the size (the fifth), the date and time
      (the sixth and seventh) and the name (the rest, joined by single
      spaces). A size written as a decimal below 2^64 is read, and a size
      that does not parse counts as 0. */
  lemma ParseLsLineRoundTrip(line: string, fields: seq<string>, size: nat)
    requires SplitWhitespace(line) == fields
    requires |fields| >= 8 && fields[0] != "total" && fields[7..] != ["."] && fields[7..] != [".."]
    ensures var r := ParseLsLine(line);
      r.Some? && r.value.name == JoinSpace(fields[7..]) && r.value.isDir == StartsWith(fields[0], "d") &&
      r.value.modified == fields[5] + " " + fields[6]
    ensures fields[4] == NatToString(size) && size < U64_BOUND ==> ParseLsLine(line).value.size == size
    ensures ParseUnsigned(fields[4], U64_BOUND).None? ==> ParseLsLine(line).value.size == 0
    ensures fields[4][0] != '+' && !AllDigits(fields[4]) ==> ParseLsLine(line).value.size == 0
  {
    JoinedNameIsNotDot(fields[7..]);
    if fields[4] == NatToString(size) && size < U64_BOUND {
      NatToStringParses(size, U64_BOUND);
    }
  }

  /** The entries `.` and `..` give no entry. */
  lemma DotLinesSkipped(line: string)
    requires |SplitWhitespace(line)| >= 8
    requires SplitWhitespace(line)[7..] == ["."] || SplitWhitespace(line)[7..] == [".."]
    ensures ParseLsLine(line) == None
  {
    var ws := SplitWhitespace(line)[7..];
    assert ws == [ws[0]];
    assert JoinSpace(ws) == ws[0];
  }

  /** A name of several words has a space in it, so it is neither `.` nor `..`. */
  lemma JoinedNameIsNotDot(ws: seq<string>)
    requires ws != [] && ws != ["."] && ws != [".."]
    ensures JoinSpace(ws) != "." && JoinSpace(ws) != ".."
  {
    if |ws| > 1 {
      var j := JoinSpace(ws);
      assert j[|ws[0]|] == ' ';
    }
  }

  /** Lines with fewer than eight fields, and the `total` line, give no entry. */
  lemma ShortAndTotalLinesSkipped(line: string)
    requires |SplitWhitespace(line)| < 8 || SplitWhitespace(line)[0] == "total"
    ensures ParseLsLine(line) == None
  {
  }

  /** Splitting fields joined by single spaces gives the fields back. */
  lemma {:induction false} SplitJoin(fields: seq<string>)
    requires forall i :: 0 <= i < |fields| ==> Field(fields[i])
    ensures SplitWhitespace(JoinSpace(fields)) == fields
  {
    if |fields| == 1 {
      TokenLengthOfField(fields[0], []);
      assert fields[0] + [] == fields[0];
      assert fields[0][..|fields[0]|] == fields[0];
      assert fields[0][|fields[0]|..] == [];
    } else if |fields| > 1 {
      var rest := JoinSpace(fields[1..]);
      SplitJoin(fields[1..]);
      var t := fields[0] + (" " + rest);
      assert JoinSpace(fields) == t;
      TokenLengthOfField(fields[0], " " + rest);
      assert t[..|fields[0]|] == fields[0];
      assert t[|fields[0]|..] == " " + rest;
      assert (" " + rest)[1..] == rest;
      assert [fields[0]] + fields[1..] == fields;
    }
  }

  /** Fields joined by runs of blanks, as `ls` pads its columns. */
  function JoinPadded(fields: seq<string>, pads: seq<string>): string
    requires |fields| == |pads| + 1
  {
    if |fields| == 1 then fields[0] else fields[0] + pads[0] + JoinPadded(fields[1..], pads[1..])
  }

  predicate Blanks(pad: string) {
    pad != [] && forall i :: 0 <= i < |pad| ==> IsWhitespace(pad[i])
  }

  /** However the columns are padded, splitting gives the fields back. */
  lemma {:induction false} SplitPadded(fields: seq<string>, pads: seq<string>)
    requires |fields| == |pads| + 1
    requires forall i :: 0 <= i < |fields| ==> Field(fields[i])
    requires forall i :: 0 <= i < |pads| ==> Blanks(pads[i])
    ensures SplitWhitespace(JoinPadded(fields, pads)) == fields
  {
    if |fields| == 1 {
      TokenLengthOfField(fields[0], []);
      assert fields[0] + [] == fields[0];
      assert fields[0][..|fields[0]|] == fields[0];
      assert fields[0][|fields[0]|..] == [];
    } else {
      var rest := JoinPadded(fields[1..], pads[1..]);
      SplitPadded(fields[1..], pads[1..]);
      var t := fields[0] + (pads[0] + rest);
      assert JoinPadded(fields, pads) == t;
      TokenLengthOfField(fields[0], pads[0] + rest);
      assert t[..|fields[0]|] == fields[0];
      assert t[|fields[0]|..] == pads[0] + rest;
      SkipBlanks(pads[0], rest);
      assert [fields[0]] + fields[1..] == fields;
    }
  }

  /** Leading blanks are skipped. */
  lemma {:induction false} SkipBlanks(pad: string, rest: string)
    requires forall i :: 0 <= i < |pad| ==> IsWhitespace(pad[i])
    ensures SplitWhitespace(pad + rest) == SplitWhitespace(rest)
  {
    if pad == [] {
      assert pad + rest == rest;
    } else {
      assert (pad + rest)[0] == pad[0];
      assert (pad + rest)[1..] == pad[1..] + rest;
      SkipBlanks(pad[1..], rest);
    }
  }

  /** The columns of the listing line in the source's own test. */
  const LISTING_FIELDS: seq<string> :=
    ["-rw-r--r--", "1", "root", "root", "100", "2024-01-15", "09:00", "readme.md"]

  /** Those columns, however padded (the test pads the size with two blanks),
      parse to `readme.md`, a file of 100 bytes. */
  lemma PaddedListingLine(line: string, pads: seq<string>)
    requires |pads| == 7 && forall i :: 0 <= i < |pads| ==> Blanks(pads[i])
    requires line == JoinPadded(LISTING_FIELDS, pads)
    ensures ParseLsLine(line) == Some(RemoteEntry("readme.md", false, 100, "2024-01-15 09:00"))
  {
    ListingFieldsAreFields();
    SplitPadded(LISTING_FIELDS, pads);
    ListingColumnsParse(line);
  }

  /** Any line with the test's columns parses to its entry. */
  lemma ListingColumnsParse(line: string)
    requires SplitWhitespace(line) == LISTING_FIELDS
    ensures ParseLsLine(line) == Some(RemoteEntry("readme.md", false, 100, "2024-01-15 09:00"))
  {
    ListingColumns();
    ParseLsLineRoundTrip(line, LISTING_FIELDS, 100);
  }

  lemma ListingColumns()
    ensures |LISTING_FIELDS| >= 8 && LISTING_FIELDS[0] != "total"
    ensures LISTING_FIELDS[7..] != ["."] && LISTING_FIELDS[7..] != [".."]
    ensures JoinSpace(LISTING_FIELDS[7..]) == "readme.md"
    ensures !StartsWith(LISTING_FIELDS[0], "d")
    ensures LISTING_FIELDS[5] + " " + LISTING_FIELDS[6] == "2024-01-15 09:00"
    ensures LISTING_FIELDS[4] == NatToString(100) && 100 < U64_BOUND
  {
    assert LISTING_FIELDS[7..] == ["readme.md"];
    assert LISTING_FIELDS[0][..1] == "-";
    assert NatToString(100) == "100" by {
      assert NatToString(10) == "10" by { assert NatToString(1) == "1"; }
    }
  }

  lemma ListingFieldsAreFields()
    ensures forall i :: 0 <= i < |LISTING_FIELDS| ==> Field(LISTING_FIELDS[i])
  {
  }

  /** A field followed by whitespace or the end is one token. */
  lemma {:induction false} TokenLengthOfField(t: string, s: string)
    requires Field(t)
    requires s == [] || IsWhitespace(s[0])
    ensures TokenLength(t + s) == |t|
  {
    assert (t + s)[0] == t[0];
    assert (t + s)[1..] == t[1..] + s;
    if |t| > 1 {
      TokenLengthOfField(t[1..], s);
    } else {
      assert t[1..] + s == s;
    }
  }

  // ---------------------------------------------------------------------------
  // Listing order

  /** Directories first, then by name ignoring case. */
  predicate EntryLe(a: RemoteEntry, b: RemoteEntry) {
    (a.isDir && !b.isDir) || (a.isDir == b.isDir && LexLe(ToLower(a.name), ToLower(b.name)))
  }

  lemma EntryLeTotal(a: RemoteEntry, b: RemoteEntry)
    ensures EntryLe(a, b) || EntryLe(b, a)
  {
    LexLeTotal(ToLower(a.name), ToLower(b.name));
  }

  lemma EntryLeTransitive(a: RemoteEntry, b: RemoteEntry, c: RemoteEntry)
    requires EntryLe(a, b) && EntryLe(b, c)
    ensures EntryLe(a, c)
  {
    if a.isDir == b.isDir && b.isDir == c.isDir {
      LexLeTransitive(ToLower(a.name), ToLower(b.name), ToLower(c.name));
    }
  }

  predicate SortedEntries(s: seq<RemoteEntry>) {
    forall i, j :: 0 <= i < j < |s| ==> EntryLe(s[i], s[j])
  }

  /** In a sorted listing every directory comes before every file. */
  lemma DirectoriesFirst(s: seq<RemoteEntry>, i: nat, j: nat)
    requires SortedEntries(s)
    requires i < |s| && j < |s| && !s[i].isDir && s[j].isDir
    ensures j < i
  {
  }

  /** `sort_by` on the listing, in place (by insertion). */
  method SortEntries(a: array<RemoteEntry>)
    modifies a
    ensures SortedEntries(a[..])
    ensures multiset(a[..]) == multiset(old(a[..]))
  {
    var i := 0;
    while i < a.Length
      invariant 0 <= i <= a.Length
      invariant SortedEntries(a[..i])
      invariant multiset(a[..]) == multiset(old(a[..]))
    {
      Insert(a, i);
      i := i + 1;
    }
    assert a[..a.Length] == a[..];
  }

  /** Moves `a[i]` down into the sorted prefix `a[..i]`. */
  method Insert(a: array<RemoteEntry>, i: nat)
    modifies a
    requires i < a.Length && SortedEntries(a[..i])
    ensures SortedEntries(a[..i + 1])
    ensures multiset(a[..]) == multiset(old(a[..]))
  {
    var j := i;
    while j > 0 && !EntryLe(a[j - 1], a[j])
      invariant 0 <= j <= i
      invariant multiset(a[..]) == multiset(old(a[..]))
      invariant forall k, l :: 0 <= k < l <= i && k != j && l != j ==> EntryLe(a[k], a[l])
      invariant forall l :: j < l <= i ==> EntryLe(a[j], a[l])
    {
      EntryLeTotal(a[j - 1], a[j]);
      Swap(a, j);
      j := j - 1;
    }
    forall k, l | 0 <= k < l <= i ensures EntryLe(a[k], a[l]) {
      if l == j && k < j - 1 {
        EntryLeTransitive(a[k], a[j - 1], a[j]);
      }
    }
  }

  method Swap(a: array<RemoteEntry>, j: nat)
    modifies a
    requires 0 < j < a.Length
    ensures a[..] == old(a[..])[j - 1 := old(a[j])][j := old(a[j - 1])]
    ensures multiset(a[..]) == multiset(old(a[..]))
  {
    a[j - 1], a[j] := a[j], a[j - 1];
  }

  // ---------------------------------------------------------------------------
  // Listing a directory

  /** One item of an sftp directory read: its file name, if the path has
      one, its type, its size if known, and its modification time as shown. */
  datatype DirItem = DirItem(fileName: Option<string>, isDir: bool, size: Option<nat>, modified: string)

  datatype ReadDir = ReadDirFailed(reason: string) | ReadDirOk(items: seq<DirItem>)

  /** A run of the system ssh: could it start, did it exit successfully, and its output. */
  datatype SshRun = SshRun(spawn: Outcome, success: bool, stdout: string, stderr: string)

  /** A command over a library channel: did `exec` start it, did reading its
      output succeed, the output, and the exit status if one was reported. */
  datatype ExecRun = ExecRun(started: Outcome, read: Outcome, output: string, exit: Option<int>)

  /** The server as the two transports see it. */
  datatype Host = Host(
    sftp: Outcome,
    readDir: string -> ReadDir,
    channel: Outcome,
    exec: string -> ExecRun,
    ssh: seq<string> -> SshRun)

  /** The sftp items as entries: no item without a name, no `.` or `..`,
      an unknown size as 0. */
  function SftpEntries(items: seq<DirItem>): (r: seq<RemoteEntry>)
    ensures |r| <= |items|
    ensures forall i :: 0 <= i < |r| ==> r[i].name != "." && r[i].name != ".."
  {
    if items == [] then []
    else
      var it := items[0];
      var here := if it.fileName.None? || it.fileName.value == "." || it.fileName.value == ".." then []
                  else [RemoteEntry(it.fileName.value, it.isDir, if it.size.Some? then it.size.value else 0, it.modified)];
      here + SftpEntries(items[1..])
  }

  /** The listing before it is sorted, by the uploader's transport. */
  function Unsorted(u: SshClient.SshUploader, host: Host, path: string): (r: Result<seq<RemoteEntry>>)
    ensures r.Ok? ==> forall i :: 0 <= i < |r.value| ==> r.value[i].name != "." && r.value[i].name != ".."
  {
    match u.authMode
    case NativeSsh =>
      var run := host.ssh(SshClient.SshArgs(u.config) + [ListCommand(path)]);
      if run.spawn.Fail? then Err(Leaf(run.spawn.reason))
      else if !run.success then Err(Leaf(LS_FAILED + Trim(run.stderr)))
      else Ok(ParseLsOutput(run.stdout))
    case LibSsh2 =>
      match host.sftp
      case Fail(e) => Err(Leaf(SFTP_SESSION_FAILED + e))
      case Pass =>
        match host.readDir(path)
        case ReadDirFailed(e) => Err(Leaf(READ_DIR_FAILED + e))
        case ReadDirOk(items) => Ok(SftpEntries(items))
  }

  /** `list_dir_sftp`: the listing, sorted in place. */
  method ListDir(u: SshClient.SshUploader, host: Host, path: string) returns (r: Result<seq<RemoteEntry>>)
    ensures Unsorted(u, host, path).Err? ==> r == Unsorted(u, host, path)
    ensures Unsorted(u, host, path).Ok? ==>
      r.Ok? && SortedEntries(r.value) && multiset(r.value) == multiset(Unsorted(u, host, path).value)
  {
    var listed := Unsorted(u, host, path);
    if listed.Err? {
      return listed;
    }
    var entries := listed.value;
    var a := new RemoteEntry[|entries|](i requires 0 <= i < |entries| => entries[i]);
    assert a[..] == entries;
    SortEntries(a);
    return Ok(a[..]);
  }

  /** A sorted listing holds neither `.` nor `..`. */
  lemma ListingHasNoDots(u: SshClient.SshUploader, host: Host, path: string, r: seq<RemoteEntry>)
    requires Unsorted(u, host, path).Ok?
    requires multiset(r) == multiset(Unsorted(u, host, path).value)
    ensures forall i :: 0 <= i < |r| ==> r[i].name != "." && r[i].name != ".."
  {
    var s := Unsorted(u, host, path).value;
    forall i | 0 <= i < |r| ensures r[i].name != "." && r[i].name != ".." {
      assert r[i] in multiset(r);
      assert r[i] in s;
    }
  }

  // ---------------------------------------------------------------------------
  // Running a command

  /** `remote_exec`: over a library channel, or by the system ssh. */
  function RemoteExec(u: SshClient.SshUploader, host: Host, command: string): (r: Result<string>)
    ensures u.authMode == SshClient.LibSsh2 ==>
      (r.Ok? <==> host.channel.Pass? && host.exec(command).started.Pass? && host.exec(command).read.Pass? &&
                  host.exec(command).exit == Some(0))
    ensures u.authMode == SshClient.NativeSsh ==>
      (r.Ok? <==> host.ssh(SshClient.SshArgs(u.config) + [command]).spawn.Pass? &&
                  host.ssh(SshClient.SshArgs(u.config) + [command]).success)
  {
    match u.authMode
    case NativeSsh =>
      var run := host.ssh(SshClient.SshArgs(u.config) + [command]);
      if run.spawn.Fail? then Err(Leaf(run.spawn.reason))
      else if !run.success then Err(Leaf(COMMAND_FAILED + Trim(run.stderr)))
      else Ok(run.stdout)
    case LibSsh2 =>
      match host.channel
      case Fail(e) => Err(Leaf(SshClient.CHANNEL_FAILED + e))
      case Pass =>
        var run := host.exec(command);
        if run.started.Fail? then Err(Leaf(EXEC_FAILED + run.started.reason))
        else if run.read.Fail? then Err(Leaf(run.read.reason))
        else
          var exit := if run.exit.Some? then run.exit.value else -1;
          if exit != 0 then Err(Leaf(EXIT_CODE + IntToString(exit) + ": " + Trim(run.output)))
          else Ok(run.output)
  }

  /** Each transport only uses its own side of the host: the library never
      starts the system ssh, and the system ssh path never opens a channel or
      an sftp session. */
  lemma TransportDispatch(u: SshClient.SshUploader, h1: Host, h2: Host, command: string, path: string)
    ensures u.authMode == SshClient.LibSsh2 && h1.channel == h2.channel && h1.exec == h2.exec ==>
      RemoteExec(u, h1, command) == RemoteExec(u, h2, command)
    ensures u.authMode == SshClient.LibSsh2 && h1.sftp == h2.sftp && h1.readDir == h2.readDir ==>
      Unsorted(u, h1, path) == Unsorted(u, h2, path)
    ensures u.authMode == SshClient.NativeSsh && h1.ssh == h2.ssh ==>
      RemoteExec(u, h1, command) == RemoteExec(u, h2, command) && Unsorted(u, h1, path) == Unsorted(u, h2, path)
  {
  }

  /** A command that exits with a status other than 0, or reports none,
      fails with that status in its message. */
  lemma ExitStatusReported(u: SshClient.SshUploader, host: Host, command: string)
    requires u.authMode == SshClient.LibSsh2 && host.channel.Pass?
    requires host.exec(command).started.Pass? && host.exec(command).read.Pass?
    ensures var run := host.exec(command); var code := if run.exit.Some? then run.exit.value else -1;
      code != 0 ==> RemoteExec(u, host, command) == Err(Leaf(EXIT_CODE + IntToString(code) + ": " + Trim(run.output)))
  {
  }

  function Discard(r: Result<string>): (d: Result<()>)
    ensures d.Ok? <==> r.Ok?
    ensures r.Err? ==> d.error == r.error
  {
    match r
    case Ok(_) => Ok(())
    case Err(e) => Err(e)
  }

  /** `remote_mkdir`, `remote_remove`, `remote_rename`: the command through
      `RemoteExec`, its output dropped. */
  function RemoteMkdir(u: SshClient.SshUploader, host: Host, path: string): Result<()> {
    Discard(RemoteExec(u, host, MkdirCommand(path)))
  }

  function RemoteRemove(u: SshClient.SshUploader, host: Host, path: string, isDir: bool): Result<()> {
    Discard(RemoteExec(u, host, RemoveCommand(path, isDir)))
  }

  function RemoteRename(u: SshClient.SshUploader, host: Host, from: string, to: string): Result<()> {
    Discard(RemoteExec(u, host, RenameCommand(from, to)))
  }

  /** Each operation runs one command that names exactly its paths, and
      succeeds exactly when that command does. */
  lemma OperationsRunTheirCommand(u: SshClient.SshUploader, host: Host, path: string, isDir: bool, from: string, to: string)
    ensures RemoteMkdir(u, host, path).Ok? == RemoteExec(u, host, MkdirCommand(path)).Ok?
    ensures RemoteRemove(u, host, path, isDir).Ok? == RemoteExec(u, host, RemoveCommand(path, isDir)).Ok?
    ensures RemoteRename(u, host, from, to).Ok? == RemoteExec(u, host, RenameCommand(from, to)).Ok?
    ensures ReadWords(MkdirCommand(path)) == Some(["mkdir", "-p", path])
    ensures ReadWords(RemoveCommand(path, isDir)) == Some(["rm", if isDir then "-rf" else "-f", path])
    ensures ReadWords(RenameCommand(from, to)) == Some(["mv", from, to])
  {
  }
}
