/** The server list of the settings page (src/app/services/settings_service.rs):
    saving a server at an index or as a new one, with at most the saved
    server marked as default, deleting one, and loading one. The
    configuration store is an outcome handed in for each write. */
module Settings {
  import opened Wrappers
  import opened Config

  /** Every server with its default flag cleared. */
  function ClearedDefaults(servers: seq<ServerConfig>): (r: seq<ServerConfig>)
    ensures |r| == |servers|
    ensures forall i :: 0 <= i < |r| ==> r[i] == servers[i].(isDefault := false)
  {
    seq(|servers|, i requires 0 <= i < |servers| => servers[i].(isDefault := false))
  }

  predicate ValidIndex(servers: seq<ServerConfig>, index: int) {
    0 <= index < |servers|
  }

  /** The list after `save_server`: index -1 appends, a valid index replaces,
      any other index changes nothing; a new default clears the others. */
  function Saved(servers: seq<ServerConfig>, index: int, server: ServerConfig): seq<ServerConfig> {
    var base := if server.isDefault then ClearedDefaults(servers) else servers;
    if index == -1 then base + [server]
    else if ValidIndex(servers, index) then base[index := server]
    else servers
  }

  /** The list after `delete_server`. */
  function Deleted(servers: seq<ServerConfig>, index: int): seq<ServerConfig> {
    if ValidIndex(servers, index) then servers[..index] + servers[index + 1..] else servers
  }

  /** Where the saved server lands. */
  function Slot(servers: seq<ServerConfig>, index: int): int {
    if index == -1 then |servers| else index
  }

  class ServerList {
    var servers: seq<ServerConfig>

    constructor(servers: seq<ServerConfig>)
      ensures this.servers == servers
    {
      this.servers := servers;
    }

    /** The loop that clears every server's default flag in place. */
    method ClearDefaults()
      modifies this
      ensures servers == ClearedDefaults(old(servers))
    {
      var i := 0;
      while i < |servers|
        invariant 0 <= i <= |servers| == |old(servers)|
        invariant forall k :: 0 <= k < i ==> servers[k] == old(servers)[k].(isDefault := false)
        invariant forall k :: i <= k < |servers| ==> servers[k] == old(servers)[k]
      {
        servers := servers[i := servers[i].(isDefault := false)];
        i := i + 1;
      }
    }

    /** `save_server`: the list changes as `Saved` says whether or not the
        store then accepts it; the store's failure is the result. */
    method SaveServer(index: int, server: ServerConfig, store: Outcome) returns (r: Result<seq<ServerConfig>>)
      modifies this
      ensures servers == Saved(old(servers), index, server)
      ensures r == if store.Pass? then Ok(servers) else Err(Leaf(store.reason))
    {
      if index == -1 {
        if server.isDefault {
          ClearDefaults();
        }
        servers := servers + [server];
      } else if 0 <= index < |servers| {
        if server.isDefault {
          ClearDefaults();
        }
        servers := servers[index := server];
      }
      if store.Fail? {
        return Err(Leaf(store.reason));
      }
      return Ok(servers);
    }

    /** `delete_server`: a valid index is removed and the list stored; any
        other index changes nothing and stores nothing. */
    method DeleteServer(index: int, store: Outcome) returns (r: Result<seq<ServerConfig>>)
      modifies this
      ensures servers == Deleted(old(servers), index)
      ensures r == if ValidIndex(old(servers), index) && store.Fail? then Err(Leaf(store.reason)) else Ok(servers)
    {
      if 0 <= index < |servers| {
        servers := servers[..index] + servers[index + 1..];
        if store.Fail? {
          return Err(Leaf(store.reason));
        }
      }
      return Ok(servers);
    }

    /** `load_server`: the server at a valid index, otherwise none. */
    function LoadServer(index: int): (r: Option<ServerConfig>)
      reads this
      ensures r.Some? <==> ValidIndex(servers, index)
      ensures r.Some? ==> r.value == servers[index]
    {
      if 0 <= index < |servers| then Some(servers[index]) else None
    }
  }

  /** Appending grows the list by one, replacing keeps its length, and any
      other index leaves it as it was. */
  lemma SavedShape(servers: seq<ServerConfig>, index: int, server: ServerConfig)
    ensures index == -1 ==> |Saved(servers, index, server)| == |servers| + 1
    ensures ValidIndex(servers, index) ==> |Saved(servers, index, server)| == |servers|
    ensures index != -1 && !ValidIndex(servers, index) ==> Saved(servers, index, server) == servers
    ensures index == -1 || ValidIndex(servers, index) ==>
      Saved(servers, index, server)[Slot(servers, index)] == server
  {
  }

  /** A default server is the only default afterwards. */
  lemma SavedDefaultIsUnique(servers: seq<ServerConfig>, index: int, server: ServerConfig)
    requires server.isDefault && (index == -1 || ValidIndex(servers, index))
    ensures var r := Saved(servers, index, server);
      forall i :: 0 <= i < |r| ==> (r[i].isDefault <==> i == Slot(servers, index))
  {
  }

  /** A server that is not default leaves every other server as it was. */
  lemma SavedNonDefaultKeepsOthers(servers: seq<ServerConfig>, index: int, server: ServerConfig)
    requires !server.isDefault && (index == -1 || ValidIndex(servers, index))
    ensures var r := Saved(servers, index, server);
      forall i :: 0 <= i < |servers| && i != Slot(servers, index) ==> r[i] == servers[i]
  {
  }

  /** Deleting removes exactly the indexed server and keeps the others in order. */
  lemma DeletedShape(servers: seq<ServerConfig>, index: int)
    requires ValidIndex(servers, index)
    ensures var r := Deleted(servers, index);
      |r| == |servers| - 1 &&
      (forall i :: 0 <= i < index ==> r[i] == servers[i]) &&
      (forall i :: index <= i < |r| ==> r[i] == servers[i + 1])
  {
  }
}
