/** The layered client's connection (src/infra/ssh/client.rs): the transport
    steps, the authentication by configured method, and the decision between
    the in-process ssh library and the system's own ssh tools, plus the
    remote `mkdir` the directory upload uses. */
module SshClient {
  import opened Wrappers
  import opened Text
  import opened Config
  import opened ShellQuote
  import opened SshAuth

  /** Which transport the connection goes on to use. */
  datatype AuthMode = LibSsh2 | NativeSsh

  /** A connected uploader; the session and socket it holds are not modelled. */
  datatype SshUploader = SshUploader(config: ServerConfig, authMode: AuthMode)

  const TCP_FAILED := "TCP 连接失败"
  const SESSION_FAILED := "Session 创建失败"
  const TCP_CLONE_FAILED := "TCP 克隆失败"
  const HANDSHAKE_FAILED := "SSH 握手失败"
  const NOT_AUTHENTICATED := "认证未通过"
  const CHANNEL_FAILED := "创建 channel 失败: "

  /** The socket, the session and the handshake, in order; the first failure
      is the connection's error, with the step's own context. */
  function Transport(net: Network): (Option<Error>, seq<LogLine>) {
    match net.tcp
    case Fail(e) => (Some(Context(TCP_FAILED, Leaf(e))), [TcpFailed(e)])
    case Pass =>
      match net.session
      case Fail(e) => (Some(Context(SESSION_FAILED, Leaf(e))), [TcpOk, SessionFailed(e)])
      case Pass =>
        match net.tcpClone
        case Fail(e) => (Some(Context(TCP_CLONE_FAILED, Leaf(e))), [TcpOk, TcpCloneFailed(e)])
        case Pass =>
          match net.handshake
          case Fail(e) => (Some(Context(HANDSHAKE_FAILED, Leaf(e))), [TcpOk, HandshakeFailed(e)])
          case Pass => (None, [TcpOk, HandshakeOk])
  }

  /** Password authentication (src/infra/ssh/auth.rs): a missing password is
      an error of its own; otherwise the server's verdict. */
  function PasswordAuth(config: ServerConfig, net: Network): Result<()> {
    match config.password
    case None => Err(Leaf(PASSWORD_EMPTY))
    case Some(p) => match net.passwordAuth(p) case Pass => Ok(()) case Fail(e) => Err(Leaf(e))
  }

  /** Authentication by the configured method. */
  function Authenticate(config: ServerConfig, net: Network): (Result<()>, seq<LogLine>) {
    if config.authType == "password" then
      var r := PasswordAuth(config, net);
      (r, [TryPassword] + (if r.Ok? then [PasswordOk] else [PasswordFailed(r.error.Display())]))
    else if config.authType == "key" then
      var k := KeyAuth(config, net);
      (if k.0 then Ok(()) else Err(Leaf(ALL_KEYS_FAILED)), k.1)
    else (Err(Leaf(UNSUPPORTED_AUTH)), [])
  }

  /** After authentication: the library session if it reports itself
      authenticated; after a failure, the system ssh probe decides. */
  function Decide(config: ServerConfig, net: Network, auth: Result<()>): (Result<SshUploader>, seq<LogLine>) {
    match auth
    case Ok(_) =>
      if net.authenticated then (Ok(SshUploader(config, LibSsh2)), [Connected])
      else (Err(Leaf(NOT_AUTHENTICATED)), [NotAuthenticated])
    case Err(e) =>
      var fallback := [AuthFinished(e.Display()), Separator, TryNativeSsh];
      match net.probe
      case Ok(msg) => (Ok(SshUploader(config, NativeSsh)), fallback + [NativeOk(msg), DiagnosisKeyFormat, HintUseScp])
      case Err(ne) => (Err(e), fallback + [NativeFailed(ne.Display()), DiagnosisNetwork])
  }

  /** The whole connection: its result and its transcript. */
  function Connection(config: ServerConfig, net: Network): (Result<SshUploader>, seq<LogLine>) {
    var start := [Connecting(config.host, config.port, config.user)];
    var t := Transport(net);
    if t.0.Some? then (Err(t.0.value), start + t.1)
    else
      var a := Authenticate(config, net);
      var d := Decide(config, net, a.0);
      (d.0, start + t.1 + a.1 + d.1)
  }

  predicate NoAttemptIn(logs: seq<LogLine>) {
    forall i :: 0 <= i < |logs| ==> !logs[i].TryPassword? && !logs[i].TryKeys? && !logs[i].TryNativeSsh?
  }

  predicate Reached(net: Network) {
    net.tcp.Pass? && net.session.Pass? && net.tcpClone.Pass? && net.handshake.Pass?
  }

  /** A failing transport step ends the connection with that step's context
      around the cause: no authentication is tried and no fallback either. */
  lemma TransportFailureIsFinal(config: ServerConfig, net: Network)
    ensures !Reached(net) ==> Connection(config, net).0.Err? && NoAttemptIn(Connection(config, net).1)
    ensures net.tcp.Fail? ==> Connection(config, net).0 == Err(Context(TCP_FAILED, Leaf(net.tcp.reason)))
    ensures net.tcp.Pass? && net.session.Fail? ==>
      Connection(config, net).0 == Err(Context(SESSION_FAILED, Leaf(net.session.reason)))
    ensures net.tcp.Pass? && net.session.Pass? && net.tcpClone.Fail? ==>
      Connection(config, net).0 == Err(Context(TCP_CLONE_FAILED, Leaf(net.tcpClone.reason)))
    ensures net.tcp.Pass? && net.session.Pass? && net.tcpClone.Pass? && net.handshake.Fail? ==>
      Connection(config, net).0 == Err(Context(HANDSHAKE_FAILED, Leaf(net.handshake.reason)))
  {
  }

  /** The choice of transport once the handshake is done: the library when
      authentication succeeded and the session says so; the system ssh tools
      when authentication failed but the probe succeeded; otherwise the
      authentication's own error (not the probe's), or "not authenticated". */
  lemma AuthModeDecision(config: ServerConfig, net: Network)
    requires Reached(net)
    ensures var auth := Authenticate(config, net).0;
      var r := Connection(config, net).0;
      (r == Ok(SshUploader(config, LibSsh2)) <==> auth.Ok? && net.authenticated) &&
      (r == Ok(SshUploader(config, NativeSsh)) <==> auth.Err? && net.probe.Ok?) &&
      (r.Ok? ==> r.value.config == config) &&
      (auth.Ok? && !net.authenticated ==> r == Err(Leaf(NOT_AUTHENTICATED))) &&
      (auth.Err? && net.probe.Err? ==> r == Err(auth.error))
  {
  }

  /** The system ssh probe runs exactly when authentication failed. */
  lemma FallbackOnlyAfterAuthFailure(config: ServerConfig, net: Network)
    requires Reached(net)
    ensures TryNativeSsh in Connection(config, net).1 <==> Authenticate(config, net).0.Err?
  {
    var start := [Connecting(config.host, config.port, config.user)];
    var a := Authenticate(config, net);
    var d := Decide(config, net, a.0);
    assert Connection(config, net).1 == start + [TcpOk, HandshakeOk] + a.1 + d.1;
    assert TryNativeSsh !in a.1 by {
      if config.authType == "key" { KeyAuthHasNoFallback(config, net); }
    }
    if a.0.Err? {
      assert d.1[2] == TryNativeSsh;
    }
  }

  lemma KeyAuthHasNoFallback(config: ServerConfig, net: Network)
    ensures TryNativeSsh !in KeyAuth(config, net).1
  {
    var e, a, d := ExplicitKeyStep(config, net), AgentStep(net), KeyDirStep(net);
    assert TryNativeSsh !in e.1 && TryNativeSsh !in a.1;
    if net.keyDir.Listing? {
      ScanHasNoFallback(net.keyDir.entries, net.keyAuth);
    }
    assert TryNativeSsh !in d.1;
    NotInJoined(TryNativeSsh, [TryKeys], e.1, a.1, d.1 + (if d.0 then [] else [AllKeysFailed]));
  }

  lemma NotInJoined(x: LogLine, p: seq<LogLine>, a: seq<LogLine>, b: seq<LogLine>, c: seq<LogLine>)
    requires x !in p && x !in a && x !in b && x !in c
    ensures x !in p + a && x !in p + a + b && x !in p + a + b + c
  {
  }

  lemma {:induction false} ScanHasNoFallback(entries: seq<KeyFile>, keyAuth: string -> Outcome)
    ensures TryNativeSsh !in Scan(entries, keyAuth).1
  {
    if entries != [] {
      ScanHasNoFallback(entries[1..], keyAuth);
    }
  }

  /** What each authentication method yields: a missing password and an
      unsupported method are errors of their own; keys fail as a whole. */
  lemma AuthenticateOutcomes(config: ServerConfig, net: Network)
    ensures config.authType == "password" ==>
      (Authenticate(config, net).0.Ok? <==> config.password.Some? && net.passwordAuth(config.password.value) == Pass)
    ensures config.authType == "password" && config.password.None? ==>
      Authenticate(config, net).0 == Err(Leaf(PASSWORD_EMPTY))
    ensures config.authType == "key" ==>
      Authenticate(config, net).0 == if KeyAuth(config, net).0 then Ok(()) else Err(Leaf(ALL_KEYS_FAILED))
    ensures config.authType != "password" && config.authType != "key" ==>
      Authenticate(config, net) == (Err(Leaf(UNSUPPORTED_AUTH)), [])
  {
  }

  /** The connection as the program writes it: each step appends to the
      transcript and a failure returns at once. */
  method ConnectWithLog(config: ServerConfig, net: Network) returns (res: Result<SshUploader>, logs: seq<LogLine>)
    ensures (res, logs) == Connection(config, net)
  {
    logs := [Connecting(config.host, config.port, config.user)];
    if net.tcp.Fail? {
      logs := logs + [TcpFailed(net.tcp.reason)];
      return Err(Context(TCP_FAILED, Leaf(net.tcp.reason))), logs;
    }
    if net.session.Fail? {
      logs := logs + [TcpOk, SessionFailed(net.session.reason)];
      return Err(Context(SESSION_FAILED, Leaf(net.session.reason))), logs;
    }
    if net.tcpClone.Fail? {
      logs := logs + [TcpOk, TcpCloneFailed(net.tcpClone.reason)];
      return Err(Context(TCP_CLONE_FAILED, Leaf(net.tcpClone.reason))), logs;
    }
    if net.handshake.Fail? {
      logs := logs + [TcpOk, HandshakeFailed(net.handshake.reason)];
      return Err(Context(HANDSHAKE_FAILED, Leaf(net.handshake.reason))), logs;
    }
    logs := logs + [TcpOk, HandshakeOk];
    var auth: Result<()>;
    if config.authType == "password" {
      auth := PasswordAuth(config, net);
      if auth.Ok? {
        logs := logs + ([TryPassword] + [PasswordOk]);
      } else {
        logs := logs + ([TryPassword] + [PasswordFailed(auth.error.Display())]);
      }
    } else if config.authType == "key" {
      var ok, keyLogs := AuthenticateWithKey(config, net);
      logs := logs + keyLogs;
      auth := if ok then Ok(()) else Err(Leaf(ALL_KEYS_FAILED));
    } else {
      auth := Err(Leaf(UNSUPPORTED_AUTH));
      logs := logs + [];
    }
    assert Transport(net) == (None, [TcpOk, HandshakeOk]);
    assert (auth, logs) == (Authenticate(config, net).0,
      [Connecting(config.host, config.port, config.user)] + [TcpOk, HandshakeOk] + Authenticate(config, net).1);
    ghost var mid := logs;
    match auth {
      case Ok(_) =>
        if net.authenticated {
          logs := logs + [Connected];
          res := Ok(SshUploader(config, LibSsh2));
        } else {
          logs := logs + [NotAuthenticated];
          res := Err(Leaf(NOT_AUTHENTICATED));
        }
      case Err(e) =>
        var fallback := [AuthFinished(e.Display()), Separator, TryNativeSsh];
        match net.probe {
          case Ok(msg) =>
            logs := logs + (fallback + [NativeOk(msg), DiagnosisKeyFormat, HintUseScp]);
            res := Ok(SshUploader(config, NativeSsh));
          case Err(ne) =>
            logs := logs + (fallback + [NativeFailed(ne.Display()), DiagnosisNetwork]);
            res := Err(e);
        }
    }
    assert (res, logs) == (Decide(config, net, auth).0, mid + Decide(config, net, auth).1);
  }

  /** `connect`: the same connection without its transcript. */
  method Connect(config: ServerConfig, net: Network) returns (res: Result<SshUploader>)
    ensures res == Connection(config, net).0
  {
    var logs;
    res, logs := ConnectWithLog(config, net);
  }

  // ---------------------------------------------------------------------------
  // Running a command on the server

  /** The arguments the system `ssh` gets before the remote command. */
  function SshArgs(config: ServerConfig): (args: seq<string>)
    ensures |args| == if HasKeyPath(config) then 9 else 7
    ensures args[..6] == ["-o", "BatchMode=yes", "-o", "StrictHostKeyChecking=no", "-p", NatToString(config.port)]
    ensures args[|args| - 1] == config.user + "@" + config.host
    ensures HasKeyPath(config) ==> args[6] == "-i" && args[7] == config.keyPath.value
  {
    ["-o", "BatchMode=yes", "-o", "StrictHostKeyChecking=no", "-p", NatToString(config.port)] +
    (if HasKeyPath(config) then ["-i", config.keyPath.value] else []) +
    [config.user + "@" + config.host]
  }

  /** A command sent to the server: over a channel of the library session, or
      as the last argument of the system `ssh`. */
  datatype RemoteCommand = ChannelExec(command: string) | SystemSsh(args: seq<string>, command: string)

  function Dispatch(u: SshUploader, command: string): RemoteCommand {
    if u.authMode == LibSsh2 then ChannelExec(command) else SystemSsh(SshArgs(u.config), command)
  }

  /** Backslashes become forward slashes in remote paths. */
  function RemotePath(path: string): (r: string)
    ensures '\\' !in r
  {
    ReplaceRemoves(path, '\\', "/");
    Replace(path, '\\', "/")
  }

  /** `remote_mkdir` of the layered client: the command it sends, or the
      channel error; what the command itself reports is ignored. */
  function RemoteMkdir(u: SshUploader, channel: Outcome, path: string): (r: Result<RemoteCommand>)
    ensures r.Err? <==> u.authMode == LibSsh2 && channel.Fail?
    ensures r.Ok? ==> r.value == Dispatch(u, "mkdir -p " + EscapeShellArg(RemotePath(path)))
  {
    if u.authMode == LibSsh2 && channel.Fail? then Err(Leaf(CHANNEL_FAILED + channel.reason))
    else Ok(Dispatch(u, "mkdir -p " + EscapeShellArg(RemotePath(path))))
  }

  /** The server's shell reads the `mkdir` command as `mkdir`, `-p` and the
      path with forward slashes, whatever characters the path holds. */
  lemma RemoteMkdirReadsBack(u: SshUploader, channel: Outcome, path: string)
    requires RemoteMkdir(u, channel, path).Ok?
    ensures ReadWords(RemoteMkdir(u, channel, path).value.command) == Some(["mkdir", "-p", RemotePath(path)])
  {
    var cmd := "mkdir -p " + EscapeShellArg(RemotePath(path));
    MkdirPrefix(EscapeShellArg(RemotePath(path)), cmd);
    ReadPlainPlainEscaped("mkdir", "-p", RemotePath(path), cmd);
  }
}
