/** The settings form's text fields and the configuration record behind them
    (src/ui_bridge/convert.rs). The form holds every field as text: the port
    in decimal, and an absent password or key path as the empty string. */
module Convert {
  import opened Wrappers
  import opened Text
  import opened Config

  datatype ServerConfigUi = ServerConfigUi(
    name: string,
    host: string,
    port: string,
    user: string,
    authType: string,
    password: string,
    keyPath: string,
    defaultTargetDir: string)

  const DEFAULT_PORT: Port := 22

  /** An optional text shown as the empty string when absent. */
  function OrEmpty(o: Option<string>): (s: string)
    ensures o.Some? ==> s == o.value
    ensures o.None? ==> s == ""
  {
    if o.Some? then o.value else ""
  }

  /** An empty text read as absent. */
  function NonEmpty(s: string): (o: Option<string>)
    ensures o.None? <==> s == ""
    ensures o.Some? ==> o.value == s
  {
    if s == "" then None else Some(s)
  }

  /** The port typed in the form: a 16-bit number of at least 1, else 22. */
  function PortOf(text: string): (p: Port)
    ensures p >= 1
    ensures ParseUnsigned(text, U16_BOUND).Some? && ParseUnsigned(text, U16_BOUND).value >= 1 ==>
      p == ParseUnsigned(text, U16_BOUND).value
    ensures !(ParseUnsigned(text, U16_BOUND).Some? && ParseUnsigned(text, U16_BOUND).value >= 1) ==>
      p == DEFAULT_PORT
  {
    var parsed := ParseUnsigned(text, U16_BOUND);
    if parsed.Some? && parsed.value >= 1 then parsed.value else DEFAULT_PORT
  }

  /** `to_ui`: the record shown in the form. */
  function ToUi(server: ServerConfig): (u: ServerConfigUi)
    ensures u.name == server.name && u.host == server.host && u.user == server.user
    ensures u.authType == server.authType && u.defaultTargetDir == server.defaultTargetDir
    ensures ParseUnsigned(u.port, U16_BOUND) == Some(server.port)
    ensures NonEmpty(u.password) == server.password <==> server.password != Some("")
    ensures NonEmpty(u.keyPath) == server.keyPath <==> server.keyPath != Some("")
  {
    NatToStringParses(server.port, U16_BOUND);
    ServerConfigUi(server.name, server.host, NatToString(server.port), server.user, server.authType,
                   OrEmpty(server.password), OrEmpty(server.keyPath), server.defaultTargetDir)
  }

  /** `from_ui`: the record the form describes. The form has no default flag,
      and the record is built with it unset. */
  function FromUi(u: ServerConfigUi): (s: ServerConfig)
    ensures s.name == u.name && s.host == u.host && s.user == u.user
    ensures s.authType == u.authType && s.defaultTargetDir == u.defaultTargetDir
    ensures s.port == PortOf(u.port)
    ensures s.port >= 1 && !s.isDefault
    ensures s.password != Some("") && s.keyPath != Some("")
    ensures OrEmpty(s.password) == u.password && OrEmpty(s.keyPath) == u.keyPath
  {
    ServerConfig(u.name, u.host, PortOf(u.port), u.user, u.authType,
                 NonEmpty(u.password), NonEmpty(u.keyPath), u.defaultTargetDir, false)
  }

  /** Showing a record and reading the form back gives the record again
      (without its default flag) exactly when its port is not 0 and it holds
      no present-but-empty password or key path. */
  lemma FromUiToUi(server: ServerConfig)
    ensures FromUi(ToUi(server)) == server.(isDefault := false) <==>
      server.port >= 1 && server.password != Some("") && server.keyPath != Some("")
  {
    var back := FromUi(ToUi(server));
    if server.port >= 1 {
      assert back.port == server.port;
    }
  }

  /** A form whose port is the decimal form of a valid port comes back
      unchanged; any other port text comes back as "22". */
  lemma ToUiFromUi(u: ServerConfigUi, p: Port)
    ensures u.port == NatToString(p) && p >= 1 ==> ToUi(FromUi(u)) == u
    ensures ParseUnsigned(u.port, U16_BOUND).None? ==> ToUi(FromUi(u)).port == NatToString(DEFAULT_PORT)
  {
    if u.port == NatToString(p) && p >= 1 {
      NatToStringParses(p, U16_BOUND);
    }
  }

  /** `default_ui_config`: the form for a new server. */
  function DefaultUiConfig(): ServerConfigUi {
    ServerConfigUi("New Server", "", "22", "root", "password", "", "", "/tmp")
  }

  /** A new server is a password server on port 22 logging in as root, with
      no password or key, uploading to `/tmp`. */
  lemma DefaultConfig(d: ServerConfigUi)
    requires d == DefaultUiConfig()
    ensures FromUi(d) == ServerConfig("New Server", "", 22, "root", "password", None, None, "/tmp", false)
    ensures ToUi(FromUi(d)) == d
  {
    assert NatToString(22) == "22" by { assert NatToString(2) == "2"; }
    NatToStringParses(22, U16_BOUND);
  }
}
