/** The configuration records the core reads: a server's credentials and a
    bookmark. Only the fields are modelled; loading and saving them is not. */
module Config {
  import opened Wrappers

  /** A 16-bit port number. */
  type Port = p: nat | p < 0x1_0000

  datatype ServerConfig = ServerConfig(
    name: string,
    host: string,
    port: Port,
    user: string,
    authType: string,          // "password" or "key"
    password: Option<string>,
    keyPath: Option<string>,
    defaultTargetDir: string,
    isDefault: bool)

  datatype Bookmark = Bookmark(name: string, path: string, side: string)   // side: "local" or "remote"

  /** A configured key path that is present and not empty (the program only
      passes `-i <key>`, or tries the explicit key, in that case). */
  predicate HasKeyPath(c: ServerConfig) {
    c.keyPath.Some? && c.keyPath.value != ""
  }
}
