/** The project manifest `.mcp.json` (src/mcp-config.ts): one stdio entry
    per installed project server, keyed by server id. */
module McpConfig {
  import opened Wrappers
  import opened Json
  import opened Types
  import Lists

  /** An `MCPServerConfig`; its `type` is always `"stdio"`. */
  datatype ServerEntry = ServerEntry(command: string, args: seq<string>, env: Option<map<string, string>>)

  /** `{ mcpServers: {...} }`: the entries by id, and the order in which
      `Object.keys` lists the ids (insertion order). */
  datatype Manifest = Manifest(order: seq<string>, servers: map<string, ServerEntry>) {
    predicate Valid() {
      Lists.NoDuplicates(order)
      && (forall id :: id in order ==> id in servers)
      && (forall id :: id in servers ==> id in order)
    }
  }

  const EmptyManifest := Manifest([], map[])

  /** The value of the `paths` option, when it is set to a truthy value. */
  function PathsOf(config: Option<ServerConfig>): seq<string> {
    if config.Some? && PathsKey in config.value && config.value[PathsKey].CList?
    then config.value[PathsKey].items
    else []
  }

  /** The source casts `paths` to a string list without checking it. */
  predicate PathsAreList(config: Option<ServerConfig>) {
    config.Some? && PathsKey in config.value ==>
      match config.value[PathsKey]
      case CList(_) => true
      case CStr(s) => s == ""
      case CBool(b) => !b
      case CNum(n) => n == 0
      case CObject => false
  }

  const DashboardFlag := ["--enable-web-dashboard", "False"]

  /** `config.SERENA_DISABLE_WEB_DASHBOARD === true`. */
  predicate DashboardDisabled(config: Option<ServerConfig>) {
    config.Some? && "SERENA_DISABLE_WEB_DASHBOARD" in config.value
    && config.value["SERENA_DISABLE_WEB_DASHBOARD"] == CBool(true)
  }

  /** The command line of a server without the extra paths and flags: its
      own command and args, or `npx -y <package>` and its args. */
  function BaseCommand(server: MCPServer): seq<string> {
    if server.HasCommand() then [server.command.value] + server.ExtraArgs()
    else ["npx", "-y", server.package] + server.ExtraArgs()
  }

  /** The arguments after the command: the base arguments, the filesystem
      directories, and Serena's dashboard switch. */
  function EntryArgs(server: MCPServer, config: Option<ServerConfig>): seq<string> {
    BaseCommand(server)[1..]
      + (if server.id == "filesystem" then PathsOf(config) else [])
      + (if server.id == "serena" && DashboardDisabled(config) then DashboardFlag else [])
  }

  /** The environment of the entry, absent when it would be empty. */
  function EntryEnv(config: Option<ServerConfig>): Option<map<string, string>> {
    if config.None? || ConfigEnv(config.value) == map[] then None else Some(ConfigEnv(config.value))
  }

  /** The entry `addProjectServer` builds. */
  function BuildEntry(server: MCPServer, config: Option<ServerConfig>): ServerEntry {
    ServerEntry(BaseCommand(server)[0], EntryArgs(server, config), EntryEnv(config))
  }

  /** The built entry runs the server's own command with a copy of its
      args, or `npx -y <package>` with them; the filesystem directories,
      and Serena's dashboard switch when it is set, follow those args and
      no other server gets anything more; the environment holds exactly the
      non-`paths` options, stringified, and is left out when there are
      none. */
  lemma BuildEntryShape(server: MCPServer, config: Option<ServerConfig>)
    ensures var e := BuildEntry(server, config);
      var base := if server.HasCommand() then server.ExtraArgs() else ["-y", server.package] + server.ExtraArgs();
      e.command == (if server.HasCommand() then server.command.value else "npx")
      && (server.id == "filesystem" ==> e.args == base + PathsOf(config))
      && (server.id == "serena" ==> e.args == base + (if DashboardDisabled(config) then DashboardFlag else []))
      && (server.id != "filesystem" && server.id != "serena" ==> e.args == base)
      && (e.env.None? <==> config.None? || config.value.Keys <= {PathsKey})
      && (e.env.Some? ==>
            e.env.value.Keys == config.value.Keys - {PathsKey}
            && forall k :: k in e.env.value ==> e.env.value[k] == Stringify(config.value[k]))
  {
    BaseArgs(server);
    if config.Some? && !(config.value.Keys <= {PathsKey}) {
      var k :| k in config.value.Keys && k != PathsKey;
      assert k in ConfigEnv(config.value);
    }
  }

  /** The base arguments after the command. */
  lemma BaseArgs(server: MCPServer)
    ensures BaseCommand(server)[1..]
      == if server.HasCommand() then server.ExtraArgs() else ["-y", server.package] + server.ExtraArgs()
  {
    if !server.HasCommand() {
      assert ["npx", "-y", server.package] + server.ExtraArgs() == ["npx"] + (["-y", server.package] + server.ExtraArgs());
    }
  }

  /** Sets the entry for `id`; a new id goes last in key order. */
  function Put(m: Manifest, id: string, e: ServerEntry): Manifest {
    Manifest(if id in m.servers then m.order else m.order + [id], m.servers[id := e])
  }

  /** Deletes the entry for `id`. */
  function Delete(m: Manifest, id: string): Manifest {
    Manifest(Lists.Filter(m.order, k => k != id), m.servers - {id})
  }

  /** Writing an entry replaces the entry for that id only, keeps the key
      order, and appends a new id last. */
  lemma PutEffect(m: Manifest, id: string, e: ServerEntry)
    requires m.Valid()
    ensures var r := Put(m, id, e);
      r.Valid() && r.servers[id] == e
      && (forall k :: k != id ==> (k in r.servers <==> k in m.servers))
      && (forall k :: k != id && k in m.servers ==> r.servers[k] == m.servers[k])
      && m.order <= r.order
      && (id !in m.servers ==> r.order == m.order + [id])
  {
    var r := Put(m, id, e);
    if id !in m.servers {
      forall i, j | 0 <= i < j < |r.order| ensures r.order[i] != r.order[j] {
        if j == |m.order| {
          assert r.order[i] in m.order;
        }
      }
    }
  }

  /** Deleting an entry removes exactly that id and keeps the order of the
      other ids. */
  lemma DeleteEffect(m: Manifest, id: string)
    requires m.Valid()
    ensures var r := Delete(m, id);
      r.Valid() && id !in r.servers
      && (forall k :: k != id ==> (k in r.servers <==> k in m.servers))
      && (forall k :: k in r.servers ==> r.servers[k] == m.servers[k])
      && r.order == Lists.Filter(m.order, k => k != id)
  {
  }

  /** `readProjectMcpConfig() || { mcpServers: {} }`. */
  function LoadOrEmpty(f: File<Manifest>): Manifest {
    f.Read().GetOr(EmptyManifest)
  }

  /** `getProjectServers` on a file: the ids in key order, or none. */
  function ProjectServers(f: File<Manifest>): seq<string> {
    match f.Read()
    case None => []
    case Some(m) => m.order
  }

  /** The argument-building steps of `addProjectServer`. */
  method BuildArgs(server: MCPServer, config: Option<ServerConfig>) returns (args: seq<string>)
    requires PathsAreList(config)
    ensures args == EntryArgs(server, config)
  {
    args := [];
    if server.HasCommand() {
      if server.args.Some? {
        args := server.args.value;
      }
    } else {
      args := ["-y", server.package];
      if server.args.Some? {
        args := args + server.args.value;
      }
    }
    assert args == BaseCommand(server)[1..];
    if server.id == "filesystem" && config.Some? && PathsKey in config.value {
      match config.value[PathsKey]
      case CList(paths) =>
        args := args + paths;
      case _ =>
    }
    if server.id == "serena" && DashboardDisabled(config) {
      args := args + ["--enable-web-dashboard", "False"];
    }
  }

  /** The environment-building steps of `addProjectServer`. */
  method BuildEnv(config: Option<ServerConfig>) returns (env: Option<map<string, string>>)
    ensures env == EntryEnv(config)
  {
    env := None;
    if config.Some? {
      var e := AddConfigEnv(map[], config.value);
      assert e == ConfigEnv(config.value);
      if |e.Keys| > 0 {
        env := Some(e);
      } else {
        assert e == map[];
      }
    }
  }

  /** The entry-building steps of `addProjectServer`. */
  method BuildServerEntry(server: MCPServer, config: Option<ServerConfig>) returns (entry: ServerEntry)
    requires PathsAreList(config)
    ensures entry == BuildEntry(server, config)
  {
    var command := if server.HasCommand() then server.command.value else "npx";
    var args := BuildArgs(server, config);
    var env := BuildEnv(config);
    entry := ServerEntry(command, args, env);
  }

  /** The manifest file. */
  class ManifestStore {
    var file: File<Manifest>

    /** A stored manifest is well formed. */
    predicate Valid()
      reads this
    {
      file.Stored? ==> file.value.Valid()
    }

    constructor (initial: File<Manifest>)
      requires initial.Stored? ==> initial.value.Valid()
      ensures Valid() && file == initial
    {
      file := initial;
    }

    /** `addProjectServer`. */
    method AddProjectServer(server: MCPServer, config: Option<ServerConfig>)
      requires Valid() && PathsAreList(config)
      modifies this
      ensures Valid()
      ensures file == Stored(Put(LoadOrEmpty(old(file)), server.id, BuildEntry(server, config)))
    {
      var m := LoadOrEmpty(file);
      var entry := BuildServerEntry(server, config);
      PutEffect(m, server.id, entry);
      file := Stored(Put(m, server.id, entry));
    }

    /** `removeProjectServer`: `false` and no change when there is no such
        entry; otherwise the entry is deleted and the file removed when no
        entries remain. */
    method RemoveProjectServer(id: string) returns (removed: bool)
      requires Valid()
      modifies this
      ensures Valid()
      ensures removed <==> id in ProjectServers(old(file))
      ensures !removed ==> file == old(file)
      ensures removed ==>
        var r := Delete(old(file).value, id);
        file == if r.servers == map[] then Missing else Stored(r)
    {
      match file.Read()
      case None =>
        return false;
      case Some(m) =>
        if id !in m.servers {
          return false;
        }
        DeleteEffect(m, id);
        var r := Delete(m, id);
        if |r.servers.Keys| == 0 {
          file := Missing;
        } else {
          file := Stored(r);
        }
        return true;
    }

    /** `getProjectServers`. */
    method GetProjectServers() returns (ids: seq<string>)
      requires Valid()
      ensures ids == ProjectServers(file)
      ensures Lists.NoDuplicates(ids)
      ensures forall id :: id in ids <==> file.Stored? && id in file.value.servers
    {
      ids := ProjectServers(file);
    }

    /** `isServerInProject`. */
    method IsServerInProject(id: string) returns (b: bool)
      requires Valid()
      ensures b <==> file.Stored? && id in file.value.servers
    {
      var ids := GetProjectServers();
      b := id in ids;
    }
  }
}
