/** The catalog entry and configuration shapes shared by the installer, the
    project manifest and the config store (src/types.ts). */
module Types {
  import opened Wrappers
  import Text

  datatype Category = Essential | Development | Productivity | Data | Automation | Social | Search

  datatype OptionKind = TextField | Password | PathField | PathList | Toggle | Choice

  /** The `validate` lambdas of the catalog. Each returns `true` or its
      message: `NonEmpty` for a required non-empty string, `AnyPrefix` for a
      string starting with one of the prefixes. */
  datatype Validator =
    | NonEmpty(message: string)
    | AnyPrefix(prefixes: seq<string>, message: string)

  /** A value entered for a configuration option (`ServerConfig` values).
      Numbers are integers; a nested record is only ever stringified. */
  datatype ConfigValue =
    | CStr(s: string)
    | CBool(b: bool)
    | CList(items: seq<string>)
    | CNum(n: int)
    | CObject

  datatype ConfigOption = ConfigOption(
    key: string,
    kind: OptionKind,
    required: bool,
    default: Option<ConfigValue>,
    validate: Option<Validator>)

  datatype ScopePreference = PreferUser | PreferProject | PreferBoth

  /** `MCPServer` without its display texts. `command` and `args` are
      optional; an empty `command` counts as absent wherever it is checked. */
  datatype MCPServer = MCPServer(
    id: string,
    name: string,
    category: Category,
    package: string,
    command: Option<string>,
    args: Option<seq<string>>,
    requiresConfig: bool,
    configOptions: Option<seq<ConfigOption>>,
    recommended: bool,
    preferredScope: Option<ScopePreference>,
    forceProjectScope: bool)
  {
    /** `if (server.command)`. */
    predicate HasCommand() {
      command.Some? && command.value != ""
    }

    /** `server.args`, with an absent list read as empty. */
    function ExtraArgs(): seq<string> {
      args.GetOr([])
    }
  }

  /** `ServerConfig`: the values entered for a server, by option key. */
  type ServerConfig = map<string, ConfigValue>

  datatype InstallScope = UserScope | ProjectScope

  /** `String(value)`. */
  function Stringify(v: ConfigValue): string {
    match v
    case CStr(s) => s
    case CBool(b) => if b then "true" else "false"
    case CList(items) => Text.Join(items, ",")
    case CNum(n) => Text.IntToString(n)
    case CObject => "[object Object]"
  }

  /** The key that carries the filesystem server's directories; it becomes
      command arguments, never an environment variable. */
  const PathsKey := "paths"

  /** The environment variables a configuration contributes: every key
      except `paths`, stringified. */
  function ConfigEnv(config: ServerConfig): map<string, string> {
    map k | k in config.Keys && k != PathsKey :: Stringify(config[k])
  }

  /** The `for (const [key, value] of Object.entries(config))` loop that
      fills `env`, starting from `base`. */
  method AddConfigEnv(base: map<string, string>, config: ServerConfig) returns (env: map<string, string>)
    ensures env.Keys == base.Keys + (config.Keys - {PathsKey})
    ensures forall k :: k in env ==> env[k] == (if k in config && k != PathsKey then Stringify(config[k]) else base[k])
    ensures env == base + ConfigEnv(config)
  {
    env := base;
    var todo := config.Keys;
    while todo != {}
      invariant todo <= config.Keys
      invariant env.Keys == base.Keys + (config.Keys - todo - {PathsKey})
      invariant forall k :: k in env ==>
        env[k] == (if k in config && k !in todo && k != PathsKey then Stringify(config[k]) else base[k])
      decreases todo
    {
      var key :| key in todo;
      if key != PathsKey {
        env := env[key := Stringify(config[key])];
      }
      todo := todo - {key};
    }
  }
}
