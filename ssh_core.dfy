/** The flat module's connection (src/ssh_core.rs), which the layered client
    replaced: the same steps and transcript, except that cloning the TCP
    stream is not checked, a missing password logs its own line, and the
    uploader it returns has no transport mode. Its upload goes through the
    same scp-then-sftp code as the layered one (`FileTransfer.Upload`). */
module SshCore {
  import opened Wrappers
  import opened Config
  import opened SshAuth
  import SshClient

  /** The flat module's uploader: the session and the configuration. */
  datatype LegacyUploader = LegacyUploader(config: ServerConfig)

  /** The transport steps, without a checked clone of the TCP stream. */
  function Transport(net: Network): (Option<Error>, seq<LogLine>) {
    match net.tcp
    case Fail(e) => (Some(Context(SshClient.TCP_FAILED, Leaf(e))), [TcpFailed(e)])
    case Pass =>
      match net.session
      case Fail(e) => (Some(Context(SshClient.SESSION_FAILED, Leaf(e))), [TcpOk, SessionFailed(e)])
      case Pass =>
        match net.handshake
        case Fail(e) => (Some(Context(SshClient.HANDSHAKE_FAILED, Leaf(e))), [TcpOk, HandshakeFailed(e)])
        case Pass => (None, [TcpOk, HandshakeOk])
  }

  /** Authentication by the configured method; a missing password is
      reported without asking the server. */
  function Authenticate(config: ServerConfig, net: Network): (Result<()>, seq<LogLine>) {
    if config.authType == "password" then
      match config.password
      case None => (Err(Leaf(PASSWORD_EMPTY)), [TryPassword, PasswordMissing])
      case Some(p) =>
        match net.passwordAuth(p)
        case Pass => (Ok(()), [TryPassword, PasswordOk])
        case Fail(e) => (Err(Leaf(e)), [TryPassword, PasswordFailed(e)])
    else if config.authType == "key" then
      var k := KeyAuth(config, net);
      (if k.0 then Ok(()) else Err(Leaf(ALL_KEYS_FAILED)), k.1)
    else (Err(Leaf(UNSUPPORTED_AUTH)), [])
  }

  function Decide(config: ServerConfig, net: Network, auth: Result<()>): (Result<LegacyUploader>, seq<LogLine>) {
    match auth
    case Ok(_) =>
      if net.authenticated then (Ok(LegacyUploader(config)), [Connected])
      else (Err(Leaf(SshClient.NOT_AUTHENTICATED)), [NotAuthenticated])
    case Err(e) =>
      var fallback := [AuthFinished(e.Display()), Separator, TryNativeSsh];
      match net.probe
      case Ok(msg) => (Ok(LegacyUploader(config)), fallback + [NativeOk(msg), DiagnosisKeyFormat, HintUseScp])
      case Err(ne) => (Err(e), fallback + [NativeFailed(ne.Display()), DiagnosisNetwork])
  }

  /** The whole connection: its result and its transcript. */
  function Connection(config: ServerConfig, net: Network): (Result<LegacyUploader>, seq<LogLine>) {
    var start := [Connecting(config.host, config.port, config.user)];
    var t := Transport(net);
    if t.0.Some? then (Err(t.0.value), start + t.1)
    else
      var a := Authenticate(config, net);
      var d := Decide(config, net, a.0);
      (d.0, start + t.1 + a.1 + d.1)
  }

  /** Where the stream clone succeeds, the flat connection and the layered
      one agree: both succeed or both fail with the same error, hand out the
      same configuration, and write the same transcript except for the line
      about a missing password. */
  lemma AgreesWithLayeredClient(config: ServerConfig, net: Network)
    requires net.tcpClone.Pass?
    ensures var flat := Connection(config, net); var layered := SshClient.Connection(config, net);
      flat.0.Ok? == layered.0.Ok? &&
      (flat.0.Err? ==> flat.0.error == layered.0.error) &&
      (flat.0.Ok? ==> flat.0.value.config == layered.0.value.config == config) &&
      (!(config.authType == "password" && config.password.None?) ==> flat.1 == layered.1)
  {
    if config.authType == "password" && config.password.Some? {
      assert Authenticate(config, net).1 == SshClient.Authenticate(config, net).1;
    }
  }

  /** With no password configured the server is never asked: the result does
      not depend on how the server would answer a password. */
  lemma MissingPasswordSkipsServer(config: ServerConfig, net: Network, answer: string -> Outcome)
    requires config.authType == "password" && config.password.None?
    ensures Connection(config, net) == Connection(config, net.(passwordAuth := answer))
    ensures Authenticate(config, net) == (Err(Leaf(PASSWORD_EMPTY)), [TryPassword, PasswordMissing])
  {
  }

  /** The connection as the program writes it. */
  method ConnectWithLog(config: ServerConfig, net: Network) returns (res: Result<LegacyUploader>, logs: seq<LogLine>)
    ensures (res, logs) == Connection(config, net)
  {
    logs := [Connecting(config.host, config.port, config.user)];
    if net.tcp.Fail? {
      logs := logs + [TcpFailed(net.tcp.reason)];
      return Err(Context(SshClient.TCP_FAILED, Leaf(net.tcp.reason))), logs;
    }
    if net.session.Fail? {
      logs := logs + [TcpOk, SessionFailed(net.session.reason)];
      return Err(Context(SshClient.SESSION_FAILED, Leaf(net.session.reason))), logs;
    }
    if net.handshake.Fail? {
      logs := logs + [TcpOk, HandshakeFailed(net.handshake.reason)];
      return Err(Context(SshClient.HANDSHAKE_FAILED, Leaf(net.handshake.reason))), logs;
    }
    logs := logs + [TcpOk, HandshakeOk];
    var auth: Result<()>;
    if config.authType == "password" {
      if config.password.None? {
        logs := logs + [TryPassword, PasswordMissing];
        auth := Err(Leaf(PASSWORD_EMPTY));
      } else {
        var answer := net.passwordAuth(config.password.value);
        if answer.Pass? {
          logs := logs + [TryPassword, PasswordOk];
          auth := Ok(());
        } else {
          logs := logs + [TryPassword, PasswordFailed(answer.reason)];
          auth := Err(Leaf(answer.reason));
        }
      }
    } else if config.authType == "key" {
      var ok, keyLogs := AuthenticateWithKey(config, net);
      logs := logs + keyLogs;
      auth := if ok then Ok(()) else Err(Leaf(ALL_KEYS_FAILED));
    } else {
      auth := Err(Leaf(UNSUPPORTED_AUTH));
      assert logs + [] == logs;
    }
    assert Transport(net) == (None, [TcpOk, HandshakeOk]);
    assert (auth, logs) == (Authenticate(config, net).0,
      [Connecting(config.host, config.port, config.user)] + [TcpOk, HandshakeOk] + Authenticate(config, net).1);
    ghost var mid := logs;
    match auth {
      case Ok(_) =>
        if net.authenticated {
          logs := logs + [Connected];
          res := Ok(LegacyUploader(config));
        } else {
          logs := logs + [NotAuthenticated];
          res := Err(Leaf(SshClient.NOT_AUTHENTICATED));
        }
      case Err(e) =>
        var fallback := [AuthFinished(e.Display()), Separator, TryNativeSsh];
        match net.probe {
          case Ok(msg) =>
            logs := logs + (fallback + [NativeOk(msg), DiagnosisKeyFormat, HintUseScp]);
            res := Ok(LegacyUploader(config));
          case Err(ne) =>
            logs := logs + (fallback + [NativeFailed(ne.Display()), DiagnosisNetwork]);
            res := Err(e);
        }
    }
    assert (res, logs) == (Decide(config, net, auth).0, mid + Decide(config, net, auth).1);
  }

  /** `connect`: the same connection without its transcript. */
  method Connect(config: ServerConfig, net: Network) returns (res: Result<LegacyUploader>)
    ensures res == Connection(config, net).0
  {
    var logs;
    res, logs := ConnectWithLog(config, net);
  }
}
