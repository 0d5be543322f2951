/** The `claude mcp add` invocation that `installServerViaClaude` builds
    (src/installer.ts): its argument list and its environment. */
module InstallCommand {
  import opened Wrappers
  import opened Types
  import McpConfig

  /** The scope as `claude mcp add -s` spells it. */
  function ScopeName(scope: InstallScope): string {
    match scope
    case UserScope => "user"
    case ProjectScope => "project"
  }

  /** The full argument list: `mcp add <id> -s <scope> --`, then the base
      command of the server, then the filesystem directories. Unlike the
      project manifest, no dashboard switch is added for Serena. */
  function InstallArgs(server: MCPServer, config: Option<ServerConfig>, scope: InstallScope): seq<string> {
    ["mcp", "add", server.id, "-s", ScopeName(scope), "--"]
      + McpConfig.BaseCommand(server)
      + (if server.id == "filesystem" then McpConfig.PathsOf(config) else [])
  }

  /** The entries of `process.env` whose value is not `undefined`. */
  function DefinedEnv(processEnv: map<string, Option<string>>): map<string, string> {
    map k | k in processEnv.Keys && processEnv[k].Some? :: processEnv[k].value
  }

  /** The environment of the child process: the defined inherited
      variables, overridden by the stringified options other than `paths`. */
  function InstallEnv(processEnv: map<string, Option<string>>, config: Option<ServerConfig>): map<string, string> {
    DefinedEnv(processEnv) + (if config.Some? then ConfigEnv(config.value) else map[])
  }

  /** The `for (const [key, value] of Object.entries(process.env))` loop. */
  method CopyDefinedEnv(processEnv: map<string, Option<string>>) returns (env: map<string, string>)
    ensures env == DefinedEnv(processEnv)
  {
    env := map[];
    var todo := processEnv.Keys;
    while todo != {}
      invariant todo <= processEnv.Keys
      invariant env == map k | k in processEnv.Keys - todo && processEnv[k].Some? :: processEnv[k].value
      decreases todo
    {
      var key :| key in todo;
      if processEnv[key].Some? {
        env := env[key := processEnv[key].value];
      }
      todo := todo - {key};
    }
  }

  /** The `commandArgs` of `installServerViaClaude`: `--`, then the
      server's command or `npx -y <package>`, its arguments, and the
      filesystem directories. */
  method BuildCommandArgs(server: MCPServer, config: Option<ServerConfig>) returns (commandArgs: seq<string>)
    requires McpConfig.PathsAreList(config)
    ensures commandArgs == ["--"] + McpConfig.BaseCommand(server)
      + (if server.id == "filesystem" then McpConfig.PathsOf(config) else [])
  {
    if server.HasCommand() {
      commandArgs := ["--", server.command.value];
      if server.args.Some? {
        commandArgs := commandArgs + server.args.value;
      }
    } else {
      commandArgs := ["--", "npx", "-y", server.package];
      if server.args.Some? {
        commandArgs := commandArgs + server.args.value;
      }
    }
    assert commandArgs == ["--"] + McpConfig.BaseCommand(server);
    if server.id == "filesystem" && config.Some? && PathsKey in config.value {
      match config.value[PathsKey] {
        case CList(paths) => commandArgs := commandArgs + paths;
        case _ =>
      }
    }
  }

  /** The environment building of `installServerViaClaude`. */
  method BuildInstallEnv(processEnv: map<string, Option<string>>, config: Option<ServerConfig>)
    returns (env: map<string, string>)
    ensures env == InstallEnv(processEnv, config)
  {
    env := CopyDefinedEnv(processEnv);
    if config.Some? {
      env := AddConfigEnv(env, config.value);
    }
  }

  /** The argument and environment building of `installServerViaClaude`,
      step by step as the source pushes onto `args`. */
  method BuildInstallCommand(server: MCPServer, config: Option<ServerConfig>, scope: InstallScope,
                             processEnv: map<string, Option<string>>)
    returns (args: seq<string>, env: map<string, string>)
    requires McpConfig.PathsAreList(config)
    ensures args == InstallArgs(server, config, scope)
    ensures env == InstallEnv(processEnv, config)
  {
    args := ["mcp", "add", server.id];
    match scope {
      case UserScope => args := args + ["-s", "user"];
      case ProjectScope => args := args + ["-s", "project"];
    }
    var commandArgs := BuildCommandArgs(server, config);
    args := args + commandArgs;
    env := BuildInstallEnv(processEnv, config);
  }

  /** The argument list starts with `mcp add <id> -s <scope> --`, and what
      follows the `--` is exactly the command and arguments the project
      manifest records for the same server, except for Serena's dashboard
      switch, which only the manifest adds. */
  lemma InstallArgsMatchManifest(server: MCPServer, config: Option<ServerConfig>, scope: InstallScope)
    ensures var args := InstallArgs(server, config, scope);
      var entry := McpConfig.BuildEntry(server, config);
      |args| > 6
      && args[..6] == ["mcp", "add", server.id, "-s", ScopeName(scope), "--"]
      && (server.id != "serena" ==> args[6..] == [entry.command] + entry.args)
      && (server.id == "serena" ==>
            [entry.command] + entry.args == args[6..]
              + (if McpConfig.DashboardDisabled(config) then McpConfig.DashboardFlag else []))
  {
    var base := McpConfig.BaseCommand(server);
    assert base == [base[0]] + base[1..];
  }

  /** Every option other than `paths` reaches the child process with the
      value the manifest entry records for it; inherited variables that are
      not options pass through unchanged. */
  lemma InstallEnvMatchesManifest(processEnv: map<string, Option<string>>, config: Option<ServerConfig>)
    ensures var env := InstallEnv(processEnv, config);
      var entryEnv := McpConfig.EntryEnv(config);
      (entryEnv.Some? ==> forall k :: k in entryEnv.value ==> k in env && env[k] == entryEnv.value[k])
      && (forall k :: k in processEnv && processEnv[k].Some? && (config.None? || k !in config.value || k == PathsKey)
            ==> k in env && env[k] == processEnv[k].value)
      && (forall k :: k in env ==> k in processEnv || (config.Some? && k in config.value && k != PathsKey))
  {
  }
}
