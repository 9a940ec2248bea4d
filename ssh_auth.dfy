/** The authentication steps that the layered client and the original flat
    module share word for word: the network as a set of abstract outcomes,
    the diagnostic transcript, password authentication, and key
    authentication (explicit key, then the agent, then a filtered scan of
    the key directory that stops at the first key accepted). */
module SshAuth {
  import opened Wrappers
  import opened Text
  import opened Config

  /** One entry of the user's key directory (`~/.ssh`). `fileName` is None
      when the name is not valid UTF-8; the program then skips the entry. */
  datatype KeyFile = KeyFile(path: string, fileName: Option<string>, isDir: bool)

  /** The key directory: no home directory, a directory that cannot be read,
      or its readable entries in directory order. */
  datatype KeyDir = NoHome | Unreadable | Listing(entries: seq<KeyFile>)

  /** What each network or library step does when the program reaches it. */
  datatype Network = Network(
    tcp: Outcome,                      // resolve host:port and connect (10 s timeout)
    session: Outcome,                  // create the ssh session object
    tcpClone: Outcome,                 // duplicate the socket for the session
    handshake: Outcome,                // ssh protocol handshake
    passwordAuth: string -> Outcome,   // password authentication with this password
    keyAuth: string -> Outcome,        // public-key authentication with the key file at this path
    agentAuth: Outcome,                // authentication through the ssh agent
    keyDir: KeyDir,
    authenticated: bool,               // what the session reports after authentication
    probe: Result<string>)             // the external `ssh ... exit 0` probe

  /** The lines of the diagnostic transcript (their wording is not modelled). */
  datatype LogLine =
    | Connecting(host: string, port: nat, user: string)
    | TcpOk | TcpFailed(cause: string)
    | SessionFailed(cause: string) | TcpCloneFailed(cause: string)
    | HandshakeFailed(cause: string) | HandshakeOk
    | TryPassword | PasswordOk | PasswordFailed(cause: string) | PasswordMissing
    | TryKeys
    | TryExplicitKey(path: string) | ExplicitKeyOk | ExplicitKeyFailed(cause: string)
    | TryAgent | AgentOk | AgentFailed(cause: string)
    | ScanKeyDir | NoHomeDir | TryKeyFile(name: string) | KeyFileOk | KeyFileRejected(cause: string)
    | AllKeysFailed
    | Connected | NotAuthenticated
    | AuthFinished(error: string) | Separator | TryNativeSsh
    | NativeOk(message: string) | DiagnosisKeyFormat | HintUseScp
    | NativeFailed(error: string) | DiagnosisNetwork

  const PASSWORD_EMPTY := "密码为空"
  const ALL_KEYS_FAILED := "密钥认证全数失败"
  const UNSUPPORTED_AUTH := "不支持的认证类型"

  // ---------------------------------------------------------------------------
  // The key-directory scan

  /** The names the scan never tries: public keys, known-hosts files, the
      client configuration and the authorized-keys list. */
  predicate SkipKeyFileName(name: string) {
    EndsWith(name, ".pub") || name == "known_hosts" || StartsWith(name, "known_hosts") ||
    name == "config" || name == "authorized_keys"
  }

  /** An entry the scan attempts: not a directory, a readable name, not skipped. */
  predicate IsCandidate(e: KeyFile) {
    !e.isDir && e.fileName.Some? && !SkipKeyFileName(e.fileName.value)
  }

  function Candidates(entries: seq<KeyFile>): (cs: seq<KeyFile>)
    ensures forall i :: 0 <= i < |cs| ==> IsCandidate(cs[i])
  {
    if entries == [] then []
    else if IsCandidate(entries[0]) then [entries[0]] + Candidates(entries[1..])
    else Candidates(entries[1..])
  }

  /** The scan over `entries` as the program runs it: whether a key was
      accepted, and the transcript lines it writes. */
  function Scan(entries: seq<KeyFile>, keyAuth: string -> Outcome): (bool, seq<LogLine>) {
    if entries == [] then (false, [])
    else if !IsCandidate(entries[0]) then Scan(entries[1..], keyAuth)
    else match keyAuth(entries[0].path)
      case Pass => (true, [TryKeyFile(entries[0].fileName.value), KeyFileOk])
      case Fail(e) =>
        var rest := Scan(entries[1..], keyAuth);
        (rest.0, [TryKeyFile(entries[0].fileName.value), KeyFileRejected(e)] + rest.1)
  }

  /** The key files the scan attempts, in order. */
  function Tried(entries: seq<KeyFile>, keyAuth: string -> Outcome): (t: seq<KeyFile>)
    ensures forall i :: 0 <= i < |t| ==> IsCandidate(t[i])
  {
    if entries == [] then []
    else if !IsCandidate(entries[0]) then Tried(entries[1..], keyAuth)
    else if keyAuth(entries[0].path) == Pass then [entries[0]]
    else [entries[0]] + Tried(entries[1..], keyAuth)
  }

  /** The scan tries a prefix of the candidates, in directory order: every key
      before the last one tried was rejected; it succeeds iff the last one
      tried was accepted, and tries every candidate when none is accepted.
      So a file that the skip rule excludes is never tried. */
  lemma {:induction false} ScanTriesCandidatePrefix(entries: seq<KeyFile>, keyAuth: string -> Outcome)
    ensures var t := Tried(entries, keyAuth);
      |t| <= |Candidates(entries)| && t == Candidates(entries)[..|t|] &&
      (forall i :: 0 <= i < |t| - 1 ==> keyAuth(t[i].path) != Pass) &&
      (Scan(entries, keyAuth).0 <==> t != [] && keyAuth(t[|t| - 1].path) == Pass) &&
      (!Scan(entries, keyAuth).0 ==> t == Candidates(entries))
  {
    if entries != [] {
      ScanTriesCandidatePrefix(entries[1..], keyAuth);
      var t' := Tried(entries[1..], keyAuth);
      if IsCandidate(entries[0]) && keyAuth(entries[0].path) != Pass {
        var t := Tried(entries, keyAuth);
        assert t == [entries[0]] + t';
        assert Candidates(entries) == [entries[0]] + Candidates(entries[1..]);
        assert t == Candidates(entries)[..|t|];
        forall i | 0 <= i < |t| - 1 ensures keyAuth(t[i].path) != Pass {
          if i > 0 { assert t[i] == t'[i - 1]; }
        }
        if t' != [] {
          assert t[|t| - 1] == t'[|t'| - 1];
        }
      }
    }
  }

  /** The scan succeeds iff some candidate key is accepted. */
  lemma {:induction false} ScanSucceedsIffSomeCandidateAccepted(entries: seq<KeyFile>, keyAuth: string -> Outcome)
    ensures Scan(entries, keyAuth).0 <==>
      exists i :: 0 <= i < |Candidates(entries)| && keyAuth(Candidates(entries)[i].path) == Pass
  {
    if entries != [] {
      ScanSucceedsIffSomeCandidateAccepted(entries[1..], keyAuth);
      var cs := Candidates(entries);
      var cs' := Candidates(entries[1..]);
      if IsCandidate(entries[0]) {
        assert cs == [entries[0]] + cs';
        if keyAuth(entries[0].path) == Pass {
          assert keyAuth(cs[0].path) == Pass;
        } else if exists i :: 0 <= i < |cs'| && keyAuth(cs'[i].path) == Pass {
          var i :| 0 <= i < |cs'| && keyAuth(cs'[i].path) == Pass;
          assert cs[i + 1] == cs'[i];
        } else {
          forall i | 0 <= i < |cs| ensures keyAuth(cs[i].path) != Pass {
            if i > 0 { assert cs[i] == cs'[i - 1]; }
          }
        }
      } else {
        assert cs == cs';
        assert Scan(entries, keyAuth) == Scan(entries[1..], keyAuth);
        if Scan(entries, keyAuth).0 {
          var i :| 0 <= i < |cs'| && keyAuth(cs'[i].path) == Pass;
          assert keyAuth(cs[i].path) == Pass;
        }
      }
    }
  }

  /** A key directory holding only a public key, `known_hosts` and `config`
      offers nothing to try. */
  lemma OnlySkippedFilesOfferNothing(keyAuth: string -> Outcome)
    ensures var entries := [KeyFile("/h/.ssh/id_rsa.pub", Some("id_rsa.pub"), false),
                           KeyFile("/h/.ssh/known_hosts", Some("known_hosts"), false),
                           KeyFile("/h/.ssh/config", Some("config"), false)];
      Candidates(entries) == [] && Scan(entries, keyAuth) == (false, [])
  {
    var entries := [KeyFile("/h/.ssh/id_rsa.pub", Some("id_rsa.pub"), false),
                    KeyFile("/h/.ssh/known_hosts", Some("known_hosts"), false),
                    KeyFile("/h/.ssh/config", Some("config"), false)];
    assert EndsWith("id_rsa.pub", ".pub") by { assert "id_rsa.pub"[6..] == ".pub"; }
    assert entries[1..] == [entries[1], entries[2]];
    assert entries[1..][1..] == [entries[2]];
    assert [entries[2]][1..] == [];
  }

  /** The scan as the program writes it: a loop over the directory entries
      that skips the excluded files and stops at the first accepted key. */
  method ScanKeyDirectory(entries: seq<KeyFile>, keyAuth: string -> Outcome)
    returns (authenticated: bool, logs: seq<LogLine>)
    ensures (authenticated, logs) == Scan(entries, keyAuth)
  {
    authenticated := false;
    logs := [];
    var i := 0;
    assert entries[0..] == entries;
    assert logs + Scan(entries, keyAuth).1 == Scan(entries, keyAuth).1;
    while i < |entries|
      invariant i <= |entries|
      invariant Scan(entries, keyAuth).0 == Scan(entries[i..], keyAuth).0
      invariant Scan(entries, keyAuth).1 == logs + Scan(entries[i..], keyAuth).1
    {
      var entry := entries[i];
      ghost var rest := entries[i..];
      assert rest[0] == entry && rest[1..] == entries[i + 1..];
      if entry.isDir || entry.fileName.None? {
        i := i + 1;
        continue;
      }
      var name := entry.fileName.value;
      if SkipKeyFileName(name) {
        i := i + 1;
        continue;
      }
      match keyAuth(entry.path) {
        case Pass =>
          assert Scan(rest, keyAuth) == (true, [TryKeyFile(name), KeyFileOk]);
          logs := logs + [TryKeyFile(name), KeyFileOk];
          authenticated := true;
          return;
        case Fail(e) =>
          ghost var tail := Scan(entries[i + 1..], keyAuth);
          assert Scan(rest, keyAuth) == (tail.0, [TryKeyFile(name), KeyFileRejected(e)] + tail.1);
          assert logs + ([TryKeyFile(name), KeyFileRejected(e)] + tail.1) ==
                 (logs + [TryKeyFile(name), KeyFileRejected(e)]) + tail.1;
          logs := logs + [TryKeyFile(name), KeyFileRejected(e)];
      }
      i := i + 1;
    }
    assert entries[i..] == [];
    assert logs + [] == logs;
  }

  // ---------------------------------------------------------------------------
  // Key and password authentication

  /** The explicit key, tried only when a non-empty key path is configured. */
  function ExplicitKeyStep(config: ServerConfig, net: Network): (bool, seq<LogLine>) {
    if HasKeyPath(config) then
      match net.keyAuth(config.keyPath.value)
      case Pass => (true, [TryExplicitKey(config.keyPath.value), ExplicitKeyOk])
      case Fail(e) => (false, [TryExplicitKey(config.keyPath.value), ExplicitKeyFailed(e)])
    else (false, [])
  }

  function AgentStep(net: Network): (bool, seq<LogLine>) {
    match net.agentAuth
    case Pass => (true, [TryAgent, AgentOk])
    case Fail(e) => (false, [TryAgent, AgentFailed(e)])
  }

  /** The key-directory scan; a missing home directory is logged, an
      unreadable directory is passed over without a word. */
  function KeyDirStep(net: Network): (bool, seq<LogLine>) {
    match net.keyDir
    case NoHome => (false, [ScanKeyDir, NoHomeDir])
    case Unreadable => (false, [ScanKeyDir])
    case Listing(es) => var s := Scan(es, net.keyAuth); (s.0, [ScanKeyDir] + s.1)
  }

  /** Key authentication as a whole: the explicit key, then the agent if that
      did not succeed, then the scan if neither did. */
  function KeyAuth(config: ServerConfig, net: Network): (bool, seq<LogLine>) {
    var e := ExplicitKeyStep(config, net);
    if e.0 then (true, [TryKeys] + e.1)
    else
      var a := AgentStep(net);
      if a.0 then (true, [TryKeys] + e.1 + a.1)
      else
        var d := KeyDirStep(net);
        (d.0, [TryKeys] + e.1 + a.1 + d.1 + (if d.0 then [] else [AllKeysFailed]))
  }

  /** What the key attempts are, in the order the program makes them. */
  datatype Attempt = ExplicitKey(path: string) | Agent | ScannedKey(name: string)

  function Attempts(logs: seq<LogLine>): seq<Attempt> {
    if logs == [] then []
    else
      var rest := Attempts(logs[1..]);
      match logs[0]
      case TryExplicitKey(p) => [ExplicitKey(p)] + rest
      case TryAgent => [Agent] + rest
      case TryKeyFile(n) => [ScannedKey(n)] + rest
      case _ => rest
  }

  lemma {:induction false} AttemptsAppend(a: seq<LogLine>, b: seq<LogLine>)
    ensures Attempts(a + b) == Attempts(a) + Attempts(b)
  {
    if a == [] {
      assert a + b == b;
    } else {
      assert (a + b)[0] == a[0];
      assert (a + b)[1..] == a[1..] + b;
      AttemptsAppend(a[1..], b);
    }
  }

  /** A key attempt followed by its verdict contributes that one attempt. */
  lemma AttemptThenVerdict(n: string, verdict: LogLine, rest: seq<LogLine>)
    requires !verdict.TryExplicitKey? && !verdict.TryAgent? && !verdict.TryKeyFile?
    ensures Attempts([TryKeyFile(n), verdict] + rest) == [ScannedKey(n)] + Attempts(rest)
  {
    var l := [TryKeyFile(n), verdict] + rest;
    assert l[1..] == [verdict] + rest;
    assert ([verdict] + rest)[1..] == rest;
  }

  lemma {:induction false} ScanAttempts(entries: seq<KeyFile>, keyAuth: string -> Outcome)
    ensures Attempts(Scan(entries, keyAuth).1) == ScannedKeys(Tried(entries, keyAuth))
  {
    if entries != [] {
      ScanAttempts(entries[1..], keyAuth);
      if IsCandidate(entries[0]) {
        var n := entries[0].fileName.value;
        match keyAuth(entries[0].path)
        case Pass =>
          AttemptThenVerdict(n, KeyFileOk, []);
          assert [TryKeyFile(n), KeyFileOk] + [] == [TryKeyFile(n), KeyFileOk];
        case Fail(e) =>
          AttemptThenVerdict(n, KeyFileRejected(e), Scan(entries[1..], keyAuth).1);
      }
    }
  }

  function ScannedKeys(files: seq<KeyFile>): seq<Attempt>
    requires forall i :: 0 <= i < |files| ==> files[i].fileName.Some?
  {
    if files == [] then [] else [ScannedKey(files[0].fileName.value)] + ScannedKeys(files[1..])
  }

  lemma ExplicitKeyAttempts(config: ServerConfig, net: Network)
    ensures Attempts(ExplicitKeyStep(config, net).1) ==
      if HasKeyPath(config) then [ExplicitKey(config.keyPath.value)] else []
  {
    if HasKeyPath(config) {
      var l := ExplicitKeyStep(config, net).1;
      AttemptsAppend([l[0]], [l[1]]);
      assert l == [l[0]] + [l[1]];
    }
  }

  lemma AgentAttempts(net: Network)
    ensures Attempts(AgentStep(net).1) == [Agent]
  {
    var l := AgentStep(net).1;
    AttemptsAppend([l[0]], [l[1]]);
    assert l == [l[0]] + [l[1]];
  }

  lemma KeyDirAttempts(net: Network)
    ensures Attempts(KeyDirStep(net).1) ==
      if net.keyDir.Listing? then ScannedKeys(Tried(net.keyDir.entries, net.keyAuth)) else []
  {
    var l := KeyDirStep(net).1;
    AttemptsAppend([l[0]], l[1..]);
    assert l == [l[0]] + l[1..];
    if net.keyDir.Listing? {
      ScanAttempts(net.keyDir.entries, net.keyAuth);
    } else if net.keyDir.NoHome? {
      assert l[1..] == [NoHomeDir];
    }
  }

  /** The order of the key attempts: the explicit key only when a non-empty
      key path is configured; the agent only if the explicit key did not
      succeed; the scanned keys only if the agent did not succeed either. */
  lemma KeyAttemptOrder(config: ServerConfig, net: Network)
    ensures var explicitOk := HasKeyPath(config) && net.keyAuth(config.keyPath.value) == Pass;
      var agentOk := net.agentAuth == Pass;
      var scanned := if net.keyDir.Listing? then ScannedKeys(Tried(net.keyDir.entries, net.keyAuth)) else [];
      Attempts(KeyAuth(config, net).1) ==
        (if HasKeyPath(config) then [ExplicitKey(config.keyPath.value)] else []) +
        (if explicitOk then [] else [Agent]) +
        (if explicitOk || agentOk then [] else scanned)
  {
    var e := ExplicitKeyStep(config, net);
    var a := AgentStep(net);
    var d := KeyDirStep(net);
    ExplicitKeyAttempts(config, net);
    AgentAttempts(net);
    KeyDirAttempts(net);
    AttemptsAppend([TryKeys], e.1);
    if !e.0 {
      AttemptsAppend([TryKeys] + e.1, a.1);
      if !a.0 {
        var tail: seq<LogLine> := if d.0 then [] else [AllKeysFailed];
        AttemptsAppend([TryKeys] + e.1 + a.1, d.1);
        AttemptsAppend([TryKeys] + e.1 + a.1 + d.1, tail);
      }
    }
  }

  /** Key authentication succeeds iff the explicit key, the agent or some
      candidate of the key directory is accepted. */
  lemma KeyAuthSucceedsIff(config: ServerConfig, net: Network)
    ensures KeyAuth(config, net).0 <==>
      (HasKeyPath(config) && net.keyAuth(config.keyPath.value) == Pass) || net.agentAuth == Pass ||
      (net.keyDir.Listing? && exists i :: 0 <= i < |Candidates(net.keyDir.entries)| &&
                                          net.keyAuth(Candidates(net.keyDir.entries)[i].path) == Pass)
  {
    if net.keyDir.Listing? {
      ScanSucceedsIffSomeCandidateAccepted(net.keyDir.entries, net.keyAuth);
    }
  }

  /** Key authentication as the program writes it, with its `authenticated` flag. */
  method AuthenticateWithKey(config: ServerConfig, net: Network) returns (authenticated: bool, logs: seq<LogLine>)
    ensures (authenticated, logs) == KeyAuth(config, net)
  {
    logs := [TryKeys];
    authenticated := false;
    if config.keyPath.Some? {
      var path := config.keyPath.value;
      if path != "" {
        match net.keyAuth(path)
        case Pass =>
          logs := logs + [TryExplicitKey(path), ExplicitKeyOk];
          authenticated := true;
        case Fail(e) =>
          logs := logs + [TryExplicitKey(path), ExplicitKeyFailed(e)];
      }
    }
    assert logs == [TryKeys] + ExplicitKeyStep(config, net).1;
    assert authenticated == ExplicitKeyStep(config, net).0;
    ghost var before := logs;
    if !authenticated {
      match net.agentAuth
      case Pass =>
        logs := logs + [TryAgent, AgentOk];
        authenticated := true;
      case Fail(e) =>
        logs := logs + [TryAgent, AgentFailed(e)];
    }
    assert !ExplicitKeyStep(config, net).0 ==> logs == before + AgentStep(net).1;
    assert authenticated == (ExplicitKeyStep(config, net).0 || AgentStep(net).0);
    ghost var beforeDir := logs;
    if !authenticated {
      match net.keyDir {
        case NoHome =>
          logs := logs + [ScanKeyDir, NoHomeDir];
        case Unreadable =>
          logs := logs + [ScanKeyDir];
        case Listing(es) =>
          var ok, scanLogs := ScanKeyDirectory(es, net.keyAuth);
          logs := logs + ([ScanKeyDir] + scanLogs);
          authenticated := ok;
      }
      assert (authenticated, logs) == (KeyDirStep(net).0, beforeDir + KeyDirStep(net).1);
      ghost var afterDir := logs;
      if !authenticated {
        logs := logs + [AllKeysFailed];
      } else {
        assert logs + [] == logs;
      }
      assert logs == afterDir + (if KeyDirStep(net).0 then [] else [AllKeysFailed]);
      assert beforeDir == [TryKeys] + ExplicitKeyStep(config, net).1 + AgentStep(net).1;
      assert logs == [TryKeys] + ExplicitKeyStep(config, net).1 + AgentStep(net).1 + KeyDirStep(net).1 +
        (if KeyDirStep(net).0 then [] else [AllKeysFailed]);
    } else if ExplicitKeyStep(config, net).0 {
      assert logs == [TryKeys] + ExplicitKeyStep(config, net).1;
    } else {
      assert AgentStep(net).0;
      assert logs == [TryKeys] + ExplicitKeyStep(config, net).1 + AgentStep(net).1;
    }
  }
}
