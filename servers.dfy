/** The server catalog and presets (src/servers.ts) and the checks its
    configuration options run on entered values. */
module Servers {
  import opened Wrappers
  import opened Types
  import Text
  import Lists

  /** `path.join(dir, name)` for a plain directory name. */
  function JoinPath(dir: string, name: string): string {
    dir + "/" + name
  }

  /** The filesystem server's default directories under the home directory. */
  function DefaultPaths(home: string): seq<string> {
    [JoinPath(home, "Documents"), JoinPath(home, "Projects")]
  }

  const GitHubTokenRule := NonEmpty("GitHub token is required")

  const PostgresRule := AnyPrefix(["postgres://", "postgresql://"], "Must be a valid PostgreSQL URL")

  const SerenaDashboardKey := "SERENA_DISABLE_WEB_DASHBOARD"

  function Secret(key: string, validate: Option<Validator>): ConfigOption {
    ConfigOption(key, Password, true, None, validate)
  }

  function Field(key: string, kind: OptionKind, default: Option<ConfigValue>): ConfigOption {
    ConfigOption(key, kind, true, default, None)
  }

  const GitHubServer :=
    MCPServer(
      id := "github", name := "GitHub", category := Essential,
      package := "@modelcontextprotocol/server-github",
      command := None, args := None,
      requiresConfig := true,
      configOptions := Some([
        Secret("GITHUB_TOKEN", Some(GitHubTokenRule))]),
      recommended := true, preferredScope := None, forceProjectScope := false)

  function FilesystemServer(home: string): MCPServer {
    MCPServer(
      id := "filesystem", name := "File System", category := Essential,
      package := "@modelcontextprotocol/server-filesystem",
      command := None, args := None,
      requiresConfig := true,
      configOptions := Some([
        ConfigOption(PathsKey, PathList, true, Some(CList(DefaultPaths(home))), None)]),
      recommended := true, preferredScope := None, forceProjectScope := false)
  }

  const Context7Server :=
    MCPServer(
      id := "context7", name := "Context7", category := Essential,
      package := "@upstash/context7-mcp",
      command := None, args := None,
      requiresConfig := false,
      configOptions := None,
      recommended := true, preferredScope := None, forceProjectScope := false)

  const SequentialThinkingServer :=
    MCPServer(
      id := "sequential-thinking", name := "Sequential Thinking", category := Development,
      package := "@modelcontextprotocol/server-sequential-thinking",
      command := None, args := None,
      requiresConfig := false,
      configOptions := None,
      recommended := false, preferredScope := None, forceProjectScope := false)

  const PostgreSqlServer :=
    MCPServer(
      id := "postgresql", name := "PostgreSQL", category := Development,
      package := "@modelcontextprotocol/server-postgres",
      command := None, args := None,
      requiresConfig := true,
      configOptions := Some([
        ConfigOption("DATABASE_URL", TextField, true, None, Some(AnyPrefix(["postgres://", "postgresql://"], "Must be a valid PostgreSQL URL")))]),
      recommended := false, preferredScope := Some(PreferProject), forceProjectScope := false)

  const PuppeteerServer :=
    MCPServer(
      id := "puppeteer", name := "Puppeteer", category := Development,
      package := "@modelcontextprotocol/server-puppeteer",
      command := None, args := None,
      requiresConfig := false,
      configOptions := None,
      recommended := false, preferredScope := None, forceProjectScope := false)

  const PlaywrightServer :=
    MCPServer(
      id := "playwright", name := "Playwright", category := Development,
      package := "@playwright/mcp",
      command := None, args := None,
      requiresConfig := false,
      configOptions := None,
      recommended := false, preferredScope := None, forceProjectScope := false)

  const BrowserToolsServer :=
    MCPServer(
      id := "browser-tools", name := "Browser Tools", category := Development,
      package := "@agentdesk/browser-tools-mcp",
      command := None, args := None,
      requiresConfig := false,
      configOptions := None,
      recommended := false, preferredScope := None, forceProjectScope := false)

  const ChromeServer :=
    MCPServer(
      id := "chrome", name := "Chrome", category := Development,
      package := "@mcp/chrome-bridge",
      command := None, args := None,
      requiresConfig := false,
      configOptions := None,
      recommended := false, preferredScope := None, forceProjectScope := false)

  const DockerServer :=
    MCPServer(
      id := "docker", name := "Docker", category := Development,
      package := "@modelcontextprotocol/server-docker",
      command := None, args := None,
      requiresConfig := false,
      configOptions := None,
      recommended := false, preferredScope := None, forceProjectScope := false)

  const SerenaServer :=
    MCPServer(
      id := "serena", name := "Serena", category := Development,
      package := "git+https://github.com/oraios/serena",
      command := Some("uvx"), args := Some(["--from", "git+https://github.com/oraios/serena", "serena-mcp-server"]),
      requiresConfig := true,
      configOptions := Some([
        ConfigOption(SerenaDashboardKey, Toggle, false, Some(CBool(false)), None)]),
      recommended := false, preferredScope := None, forceProjectScope := true)

  const SlackServer :=
    MCPServer(
      id := "slack", name := "Slack", category := Productivity,
      package := "@modelcontextprotocol/server-slack",
      command := None, args := None,
      requiresConfig := true,
      configOptions := Some([
        Secret("SLACK_BOT_TOKEN", Some(AnyPrefix(["xoxb-"], "Must be a valid bot token"))),
        Secret("SLACK_APP_TOKEN", Some(AnyPrefix(["xapp-"], "Must be a valid app token")))]),
      recommended := false, preferredScope := None, forceProjectScope := false)

  const NotionServer :=
    MCPServer(
      id := "notion", name := "Notion", category := Productivity,
      package := "@modelcontextprotocol/server-notion",
      command := None, args := None,
      requiresConfig := true,
      configOptions := Some([
        Secret("NOTION_API_KEY", Some(AnyPrefix(["secret_"], "Must be a valid Notion token")))]),
      recommended := false, preferredScope := None, forceProjectScope := false)

  const MemoryServer :=
    MCPServer(
      id := "memory", name := "Memory Bank", category := Productivity,
      package := "@modelcontextprotocol/server-memory",
      command := None, args := None,
      requiresConfig := false,
      configOptions := None,
      recommended := false, preferredScope := None, forceProjectScope := true)

  const JupyterServer :=
    MCPServer(
      id := "jupyter", name := "Jupyter", category := Data,
      package := "@modelcontextprotocol/server-jupyter",
      command := None, args := None,
      requiresConfig := false,
      configOptions := None,
      recommended := false, preferredScope := Some(PreferProject), forceProjectScope := false)

  const DuckDuckGoServer :=
    MCPServer(
      id := "duckduckgo", name := "DuckDuckGo", category := Search,
      package := "@modelcontextprotocol/server-duckduckgo",
      command := None, args := None,
      requiresConfig := false,
      configOptions := None,
      recommended := false, preferredScope := None, forceProjectScope := false)

  const ZapierServer :=
    MCPServer(
      id := "zapier", name := "Zapier", category := Automation,
      package := "@modelcontextprotocol/server-zapier",
      command := None, args := None,
      requiresConfig := true,
      configOptions := Some([
        Secret("ZAPIER_API_KEY", None)]),
      recommended := false, preferredScope := None, forceProjectScope := false)

  const StripeServer :=
    MCPServer(
      id := "stripe", name := "Stripe", category := Automation,
      package := "@modelcontextprotocol/server-stripe",
      command := None, args := None,
      requiresConfig := true,
      configOptions := Some([
        Secret("STRIPE_API_KEY", Some(AnyPrefix(["sk_"], "Must be a valid Stripe secret key")))]),
      recommended := false, preferredScope := None, forceProjectScope := false)

  const DiscordServer :=
    MCPServer(
      id := "discord", name := "Discord", category := Social,
      package := "@modelcontextprotocol/server-discord",
      command := None, args := None,
      requiresConfig := true,
      configOptions := Some([
        Secret("DISCORD_BOT_TOKEN", None)]),
      recommended := false, preferredScope := None, forceProjectScope := false)

  const EmailServer :=
    MCPServer(
      id := "email", name := "Email", category := Social,
      package := "@modelcontextprotocol/server-email",
      command := None, args := None,
      requiresConfig := true,
      configOptions := Some([
        Field("EMAIL_HOST", TextField, None),
        Field("EMAIL_PORT", TextField, Some(CStr("587"))),
        Field("EMAIL_USER", TextField, None),
        Secret("EMAIL_PASS", None)]),
      recommended := false, preferredScope := None, forceProjectScope := false)

  const YoutubeServer :=
    MCPServer(
      id := "youtube", name := "YouTube", category := Social,
      package := "@anaisbetts/mcp-youtube",
      command := None, args := None,
      requiresConfig := false,
      configOptions := None,
      recommended := false, preferredScope := None, forceProjectScope := false)

  const FigmaServer :=
    MCPServer(
      id := "figma", name := "Figma", category := Development,
      package := "@modelcontextprotocol/server-figma",
      command := None, args := None,
      requiresConfig := true,
      configOptions := Some([
        Secret("FIGMA_ACCESS_TOKEN", None)]),
      recommended := false, preferredScope := None, forceProjectScope := false)

  const SupabaseServer :=
    MCPServer(
      id := "supabase", name := "Supabase", category := Development,
      package := "@modelcontextprotocol/server-supabase",
      command := None, args := None,
      requiresConfig := true,
      configOptions := Some([
        Field("SUPABASE_URL", TextField, None),
        Secret("SUPABASE_KEY", None)]),
      recommended := false, preferredScope := Some(PreferProject), forceProjectScope := false)

  const BraveSearchServer :=
    MCPServer(
      id := "brave-search", name := "Brave Search", category := Search,
      package := "@modelcontextprotocol/server-brave-search",
      command := None, args := None,
      requiresConfig := true,
      configOptions := Some([
        Secret("BRAVE_API_KEY", None)]),
      recommended := false, preferredScope := None, forceProjectScope := false)

  const GSuiteServer :=
    MCPServer(
      id := "gsuite", name := "Google Suite", category := Productivity,
      package := "@modelcontextprotocol/server-gsuite",
      command := None, args := None,
      requiresConfig := true,
      configOptions := Some([
        Field("GOOGLE_CREDENTIALS", TextField, None)]),
      recommended := false, preferredScope := None, forceProjectScope := false)

  const ExcelServer :=
    MCPServer(
      id := "excel", name := "Excel", category := Data,
      package := "@modelcontextprotocol/server-excel",
      command := None, args := None,
      requiresConfig := false,
      configOptions := None,
      recommended := false, preferredScope := None, forceProjectScope := false)

  /** The catalog, in source order; only the filesystem defaults depend on
      the home directory. */
  function Catalog(home: string): seq<MCPServer> {
    [
    GitHubServer, FilesystemServer(home), Context7Server, SequentialThinkingServer,
    PostgreSqlServer, PuppeteerServer, PlaywrightServer, BrowserToolsServer, ChromeServer,
    DockerServer, SerenaServer, SlackServer, NotionServer, MemoryServer, JupyterServer,
    DuckDuckGoServer, ZapierServer, StripeServer, DiscordServer, EmailServer, YoutubeServer,
    FigmaServer, SupabaseServer, BraveSearchServer, GSuiteServer, ExcelServer
    ]
  }

  /** The presets, by name. */
  const Presets: map<string, seq<string>> := map[
    "recommended" := ["github", "filesystem", "context7", "sequential-thinking"],
    "dev" := ["github", "filesystem", "docker", "postgresql", "sequential-thinking"],
    "data" := ["filesystem", "jupyter", "postgresql", "excel"],
    "web" := ["github", "puppeteer", "figma", "filesystem"],
    "productivity" := ["notion", "slack", "gsuite", "filesystem", "memory"]
  ]

  function Ids(catalog: seq<MCPServer>): (ids: seq<string>)
    ensures |ids| == |catalog|
    ensures forall i :: 0 <= i < |catalog| ==> ids[i] == catalog[i].id
  {
    seq(|catalog|, i requires 0 <= i < |catalog| => catalog[i].id)
  }

  /** `catalog.find((s) => s.id === id)`: the first server with that id. */
  function Find(catalog: seq<MCPServer>, id: string): (r: Option<MCPServer>)
    ensures r.None? <==> id !in Ids(catalog)
    ensures r.Some? ==> r.value in catalog && r.value.id == id
  {
    if catalog == [] then None
    else if catalog[0].id == id then Some(catalog[0])
    else
      assert Ids(catalog) == [catalog[0].id] + Ids(catalog[1..]);
      Find(catalog[1..], id)
  }

  /** The outcome of a `validate` lambda: `true` or an error message. */
  datatype Verdict = Accepted | Rejected(message: string)

  /** Runs a validator on an entered value: a value that is not a non-empty
      string is rejected with the validator's message, a non-empty string is
      checked against the validator's rule. */
  function Validate(v: Validator, value: ConfigValue): Verdict {
    if !(value.CStr? && value.s != "") then Rejected(v.message)
    else match v
      case NonEmpty(_) => Accepted
      case AnyPrefix(prefixes, message) =>
        if exists p :: p in prefixes && Text.StartsWith(value.s, p) then Accepted else Rejected(message)
  }

  /** The validator attached to option `key` of server `id`. */
  function ValidatorOf(catalog: seq<MCPServer>, id: string, key: string): Option<Validator> {
    match Find(catalog, id)
    case None => None
    case Some(server) =>
      match server.configOptions
      case None => None
      case Some(options) => FindValidator(options, key)
  }

  function FindValidator(options: seq<ConfigOption>, key: string): Option<Validator> {
    if options == [] then None
    else if options[0].key == key then options[0].validate
    else FindValidator(options[1..], key)
  }

  /** The catalog ids, in catalog order. */
  const CatalogIds := ["github", "filesystem", "context7", "sequential-thinking", "postgresql",
    "puppeteer", "playwright", "browser-tools", "chrome", "docker", "serena", "slack", "notion",
    "memory", "jupyter", "duckduckgo", "zapier", "stripe", "discord", "email", "youtube", "figma",
    "supabase", "brave-search", "gsuite", "excel"]

  lemma CatalogIdsAre(home: string)
    ensures Ids(Catalog(home)) == CatalogIds
  {
  }

  /** A fingerprint of an id: its first two characters and its last.
      Different fingerprints mean different ids, and fingerprints are
      cheaper to compare than the ids themselves. */
  function Fingerprint(id: string): int {
    if |id| < 2 then 0 else id[0] as int * 65536 + id[1] as int * 256 + id[|id| - 1] as int
  }

  /** The catalog position of the id with fingerprint `f`, or -1. */
  function FingerprintPosition(f: int): int {
    if f == 6777186 then 0 else  // github
    if f == 6711661 then 1 else  // filesystem
    if f == 6516535 then 2 else  // context7
    if f == 7562599 then 3 else  // sequential-thinking
    if f == 7368556 then 4 else  // postgresql
    if f == 7370098 then 5 else  // puppeteer
    if f == 7367796 then 6 else  // playwright
    if f == 6451827 then 7 else  // browser-tools
    if f == 6514789 then 8 else  // chrome
    if f == 6582130 then 9 else  // docker
    if f == 7562593 then 10 else  // serena
    if f == 7564395 then 11 else  // slack
    if f == 7237486 then 12 else  // notion
    if f == 7169401 then 13 else  // memory
    if f == 6976882 then 14 else  // jupyter
    if f == 6583663 then 15 else  // duckduckgo
    if f == 8020338 then 16 else  // zapier
    if f == 7566437 then 17 else  // stripe
    if f == 6580580 then 18 else  // discord
    if f == 6647148 then 19 else  // email
    if f == 7958373 then 20 else  // youtube
    if f == 6711649 then 21 else  // figma
    if f == 7566693 then 22 else  // supabase
    if f == 6451816 then 23 else  // brave-search
    if f == 6779749 then 24 else  // gsuite
    if f == 6649964 then 25 else  // excel
    -1
  }

  lemma FingerprintPositionsLow()
    ensures forall i :: 0 <= i < 13 ==> FingerprintPosition(Fingerprint(CatalogIds[i])) == i
  {
  }

  lemma FingerprintPositionsHigh()
    ensures forall i :: 13 <= i < |CatalogIds| ==> FingerprintPosition(Fingerprint(CatalogIds[i])) == i
  {
  }

  lemma CatalogIdsDistinct()
    ensures Lists.NoDuplicates(CatalogIds)
  {
    FingerprintPositionsLow();
    FingerprintPositionsHigh();
    forall i, j | 0 <= i < j < |CatalogIds| ensures CatalogIds[i] != CatalogIds[j] {
      assert FingerprintPosition(Fingerprint(CatalogIds[i])) != FingerprintPosition(Fingerprint(CatalogIds[j]));
    }
  }

  /** Catalog ids are unique. */
  lemma CatalogIdsUnique(home: string)
    ensures Lists.NoDuplicates(Ids(Catalog(home)))
  {
    CatalogIdsAre(home);
    CatalogIdsDistinct();
  }

  /** With unique ids, looking a server up by its id finds that server. */
  lemma {:induction false} FindById(catalog: seq<MCPServer>, i: nat)
    requires Lists.NoDuplicates(Ids(catalog)) && i < |catalog|
    ensures Find(catalog, catalog[i].id) == Some(catalog[i])
  {
    var ids := Ids(catalog);
    if i > 0 {
      assert ids[0] != ids[i];
      var rest := catalog[1..];
      assert Ids(rest) == ids[1..];
      assert rest[i - 1] == catalog[i];
      FindById(rest, i - 1);
    }
  }

  /** Every preset is non-empty and names only catalog servers. */
  lemma PresetsValid(home: string)
    ensures forall name :: name in Presets ==> |Presets[name]| > 0
    ensures forall name, id :: name in Presets && id in Presets[name] ==> id in Ids(Catalog(home))
  {
    CatalogIdsAre(home);
  }

  /** A server that requires configuration offers at least one option. */
  lemma RequiresConfigHasOptions(home: string)
    ensures forall s :: s in Catalog(home) && s.requiresConfig ==>
      s.configOptions.Some? && |s.configOptions.value| > 0
  {
    var c := Catalog(home);
    OptionsFrom(home, 0, 13);
    OptionsFrom(home, 13, |c|);
    forall s | s in c && s.requiresConfig ensures s.configOptions.Some? && |s.configOptions.value| > 0 {
      var i :| 0 <= i < |c| && c[i] == s;
    }
  }

  lemma OptionsFrom(home: string, lo: nat, hi: nat)
    requires (lo, hi) == (0, 13) || (lo, hi) == (13, |Catalog(home)|)
    ensures forall i :: lo <= i < hi ==>
      Catalog(home)[i].requiresConfig ==> Catalog(home)[i].configOptions.Some? && |Catalog(home)[i].configOptions.value| > 0
  {
  }

  /** A single-prefix rule accepts exactly the strings starting with the
      prefix and otherwise answers with its message. */
  lemma PrefixRule(prefix: string, message: string, value: ConfigValue)
    requires prefix != ""
    ensures Validate(AnyPrefix([prefix], message), value) == Accepted <==>
      value.CStr? && Text.StartsWith(value.s, prefix)
    ensures Validate(AnyPrefix([prefix], message), value) != Accepted ==>
      Validate(AnyPrefix([prefix], message), value) == Rejected(message)
  {
    if value.CStr? && Text.StartsWith(value.s, prefix) {
      assert prefix in [prefix];
    }
  }

  /** The validator of option `key` of the `i`-th catalog server. */
  lemma ValidatorAt(home: string, i: nat, key: string)
    requires i < |Catalog(home)|
    ensures var s := Catalog(home)[i];
      ValidatorOf(Catalog(home), s.id, key) ==
        if s.configOptions.None? then None else FindValidator(s.configOptions.value, key)
  {
    CatalogIdsUnique(home);
    FindById(Catalog(home), i);
  }

  /** The GitHub token accepts exactly the non-empty strings. */
  lemma GithubTokenRule(value: ConfigValue)
    ensures Validate(GitHubTokenRule, value) == Accepted <==> value.CStr? && value.s != ""
    ensures Validate(GitHubTokenRule, value) != Accepted ==>
      Validate(GitHubTokenRule, value) == Rejected("GitHub token is required")
  {
  }

  /** The PostgreSQL URL must start with `postgres://` or `postgresql://`. */
  lemma PostgresUrlRule(value: ConfigValue)
    ensures Validate(PostgresRule, value) == Accepted <==>
      value.CStr? && (Text.StartsWith(value.s, "postgres://") || Text.StartsWith(value.s, "postgresql://"))
    ensures Validate(PostgresRule, value) != Accepted ==>
      Validate(PostgresRule, value) == Rejected("Must be a valid PostgreSQL URL")
  {
    var ps := PostgresRule.prefixes;
    if value.CStr? && Text.StartsWith(value.s, "postgres://") {
      assert ps[0] in ps;
    } else if value.CStr? && Text.StartsWith(value.s, "postgresql://") {
      assert ps[1] in ps;
    }
  }

  /** The catalog's GitHub token and PostgreSQL URL carry their rules. */
  lemma CatalogValidators(home: string)
    ensures ValidatorOf(Catalog(home), "github", "GITHUB_TOKEN") == Some(GitHubTokenRule)
    ensures ValidatorOf(Catalog(home), "postgresql", "DATABASE_URL") == Some(PostgresRule)
  {
    var c := Catalog(home);
    assert c[0] == GitHubServer && c[4] == PostgreSqlServer;
    ValidatorAt(home, 0, "GITHUB_TOKEN");
    ValidatorAt(home, 4, "DATABASE_URL");
  }

  /** Slack's two tokens carry single-prefix rules (see `PrefixRule`). */
  lemma CatalogSlackValidators(home: string)
    ensures ValidatorOf(Catalog(home), "slack", "SLACK_BOT_TOKEN") == Some(AnyPrefix(["xoxb-"], "Must be a valid bot token"))
    ensures ValidatorOf(Catalog(home), "slack", "SLACK_APP_TOKEN") == Some(AnyPrefix(["xapp-"], "Must be a valid app token"))
  {
    assert Catalog(home)[11] == SlackServer;
    ValidatorAt(home, 11, "SLACK_BOT_TOKEN");
    ValidatorAt(home, 11, "SLACK_APP_TOKEN");
  }

  /** Notion's and Stripe's secrets carry single-prefix rules. */
  lemma CatalogSecretValidators(home: string)
    ensures ValidatorOf(Catalog(home), "notion", "NOTION_API_KEY") == Some(AnyPrefix(["secret_"], "Must be a valid Notion token"))
    ensures ValidatorOf(Catalog(home), "stripe", "STRIPE_API_KEY") == Some(AnyPrefix(["sk_"], "Must be a valid Stripe secret key"))
  {
    var c := Catalog(home);
    assert c[12] == NotionServer && c[17] == StripeServer;
    ValidatorAt(home, 12, "NOTION_API_KEY");
    ValidatorAt(home, 17, "STRIPE_API_KEY");
  }
}
