/** gomcp's own configuration file, `~/.gomcp/config.json` (src/config.ts):
    the record of installed servers, custom presets and the language
    preference, its defaults, and its export and import. */
module Config {
  import opened Wrappers
  import opened Json
  import opened Types
  import Lists

  /** An entry of `installedServers`. */
  datatype InstalledServer = InstalledServer(id: string, name: string, installedAt: string, config: Option<ServerConfig>)

  /** `GomcpConfig`, with the `lastUpdateCheck` field that the update check
      adds. `version` is kept as the JSON value it was read as: only its
      truthiness is ever examined. */
  datatype GomcpConfig = GomcpConfig(
    version: Json,
    installedServers: seq<InstalledServer>,
    presets: map<string, seq<string>>,
    lastUpdated: string,
    language: Option<string>,
    lastUpdateCheck: Option<string>)

  /** The record a mutator starts from when no configuration can be read. */
  function DefaultConfig(now: string): GomcpConfig {
    GomcpConfig(JStr("1.0.0"), [], map[], now, None, None)
  }

  /** `(await loadConfig()) || { ...defaults }`. */
  function OrDefault(loaded: Option<GomcpConfig>, now: string): GomcpConfig {
    if loaded.Some? then loaded.value else DefaultConfig(now)
  }

  /** What `saveConfig` writes: the record with `lastUpdated` set to now. */
  function Touched(c: GomcpConfig, now: string): GomcpConfig {
    c.(lastUpdated := now)
  }

  function Entry(server: MCPServer, config: Option<ServerConfig>, now: string): InstalledServer {
    InstalledServer(server.id, server.name, now, config)
  }

  /** `installedServers.filter((s) => s.id !== id)`. */
  function Others(servers: seq<InstalledServer>, id: string): (r: seq<InstalledServer>)
    ensures forall s :: s in r <==> s in servers && s.id != id
  {
    Lists.Filter(servers, (s: InstalledServer) => s.id != id)
  }

  /** `addInstalledServer` before saving: drop the entries with the server's
      id, then append the new entry. */
  function WithInstalled(c: GomcpConfig, server: MCPServer, config: Option<ServerConfig>, now: string): GomcpConfig {
    c.(installedServers := Others(c.installedServers, server.id) + [Entry(server, config, now)])
  }

  /** After adding, the new entry is last and is the only one with its id;
      every other entry is kept, in its previous relative order, and nothing
      else in the record changes. */
  lemma WithInstalledEffect(c: GomcpConfig, server: MCPServer, config: Option<ServerConfig>, now: string)
    ensures var r := WithInstalled(c, server, config, now);
      var l := r.installedServers;
      |l| >= 1 && l[|l| - 1] == Entry(server, config, now)
      && (forall i :: 0 <= i < |l| - 1 ==> l[i].id != server.id)
      && l[..|l| - 1] == Others(c.installedServers, server.id)
      && (forall s :: s in c.installedServers && s.id != server.id ==> s in l)
      && r == c.(installedServers := l)
  {
    var l := WithInstalled(c, server, config, now).installedServers;
    var others := Others(c.installedServers, server.id);
    assert l[..|l| - 1] == others;
    forall i | 0 <= i < |l| - 1 ensures l[i].id != server.id {
      assert l[i] in others;
    }
  }

  /** Filtering by id splits over a concatenation, so two entries of other
      servers keep their order. */
  lemma OthersKeepOrder(before: seq<InstalledServer>, after: seq<InstalledServer>, id: string)
    ensures Others(before + after, id) == Others(before, id) + Others(after, id)
  {
    Lists.FilterAppend(before, after, (s: InstalledServer) => s.id != id);
  }

  /** `saveCustomPreset` before saving. */
  function WithPreset(c: GomcpConfig, name: string, ids: seq<string>): GomcpConfig {
    c.(presets := c.presets[name := ids])
  }

  /** The preset is set to exactly the given ids, replacing any previous
      value; every other preset and every other field is unchanged. */
  lemma WithPresetEffect(c: GomcpConfig, name: string, ids: seq<string>)
    ensures var r := WithPreset(c, name, ids);
      name in r.presets && r.presets[name] == ids
      && r.presets.Keys == c.presets.Keys + {name}
      && (forall n :: n in c.presets && n != name ==> r.presets[n] == c.presets[n])
      && r.(presets := c.presets) == c
  {
  }

  /** `getInstalledServers`: `config?.installedServers || []`. */
  function InstalledOf(loaded: Option<GomcpConfig>): seq<InstalledServer> {
    if loaded.Some? then loaded.value.installedServers else []
  }

  /** `getCustomPresets`: `config?.presets || {}`. */
  function PresetsOf(loaded: Option<GomcpConfig>): map<string, seq<string>> {
    if loaded.Some? then loaded.value.presets else map[]
  }

  /** `getLanguagePreference`: `config?.language || 'en'`. */
  function LanguageOf(loaded: Option<GomcpConfig>): (lang: string)
    ensures lang != ""
    ensures lang != "en" ==> loaded.Some? && loaded.value.language == Some(lang)
  {
    if loaded.Some? && loaded.value.language.Some? && loaded.value.language.value != "" then loaded.value.language.value
    else "en"
  }

  /** A stored non-empty language is what the getter returns; any other
      stored value, or no configuration at all, reads as English. */
  lemma LanguageRule(loaded: Option<GomcpConfig>, lang: string)
    requires lang != ""
    ensures loaded.Some? && loaded.value.language == Some(lang) ==> LanguageOf(loaded) == lang
    ensures loaded.None? || loaded.value.language.None? || loaded.value.language == Some("") ==> LanguageOf(loaded) == "en"
  {
  }

  /** `JSON.stringify` of a configuration value. */
  function ValueToJson(v: ConfigValue): Json {
    match v
    case CStr(s) => JStr(s)
    case CBool(b) => JBool(b)
    case CList(items) => JArr(StringsToJson(items))
    case CNum(n) => JNum(n)
    case CObject => JObj(map[])
  }

  function StringsToJson(items: seq<string>): seq<Json> {
    seq(|items|, i requires 0 <= i < |items| => JStr(items[i]))
  }

  /** A JSON array read as a list of strings; other elements read as empty. */
  function JsonToStrings(items: seq<Json>): seq<string> {
    seq(|items|, i requires 0 <= i < |items| => if items[i].JStr? then items[i].s else "")
  }

  /** A parsed option value read back as a configuration value. */
  function JsonToValue(j: Json): ConfigValue {
    match j
    case JStr(s) => CStr(s)
    case JBool(b) => CBool(b)
    case JArr(items) => CList(JsonToStrings(items))
    case JNum(n) => CNum(n)
    case JObj(_) => CObject
    case JNull => CStr("null")
  }

  function ServerConfigToJson(config: ServerConfig): Json {
    JObj(map k | k in config :: ValueToJson(config[k]))
  }

  /** An installed entry as written; an absent `config` is omitted, as
      `JSON.stringify` omits `undefined`. */
  function ServerToJson(s: InstalledServer): Json {
    var fields := map["id" := JStr(s.id), "name" := JStr(s.name), "installedAt" := JStr(s.installedAt)];
    JObj(if s.config.Some? then fields["config" := ServerConfigToJson(s.config.value)] else fields)
  }

  function StringField(j: Json, key: string): string {
    var v := j.Get(key);
    if v.Some? && v.value.JStr? then v.value.s else ""
  }

  function OptionalString(j: Json, key: string): Option<string> {
    var v := j.Get(key);
    if v.Some? && v.value.JStr? then Some(v.value.s) else None
  }

  function JsonToServer(j: Json): InstalledServer {
    var config := j.Get("config");
    InstalledServer(StringField(j, "id"), StringField(j, "name"), StringField(j, "installedAt"),
      if config.Some? && config.value.JObj? then Some(map k | k in config.value.fields :: JsonToValue(config.value.fields[k]))
      else None)
  }

  /** The document `saveConfig` and `exportConfig` write. */
  function ToJson(c: GomcpConfig): Json {
    var fields := map[
      "version" := c.version,
      "installedServers" := JArr(seq(|c.installedServers|, i requires 0 <= i < |c.installedServers| => ServerToJson(c.installedServers[i]))),
      "presets" := JObj(map n | n in c.presets :: JArr(StringsToJson(c.presets[n]))),
      "lastUpdated" := JStr(c.lastUpdated)];
    var withLanguage := if c.language.Some? then fields["language" := JStr(c.language.value)] else fields;
    JObj(if c.lastUpdateCheck.Some? then withLanguage["lastUpdateCheck" := JStr(c.lastUpdateCheck.value)] else withLanguage)
  }

  /** A parsed document read through the `GomcpConfig` type: fields of
      another type read as empty. */
  function FromJson(doc: Json): GomcpConfig {
    var version := doc.Get("version");
    var servers := doc.Get("installedServers");
    var presets := doc.Get("presets");
    GomcpConfig(
      if version.Some? then version.value else JNull,
      if servers.Some? && servers.value.JArr?
      then seq(|servers.value.items|, i requires 0 <= i < |servers.value.items| => JsonToServer(servers.value.items[i]))
      else [],
      if presets.Some? && presets.value.JObj?
      then map n | n in presets.value.fields && presets.value.fields[n].JArr? :: JsonToStrings(presets.value.fields[n].items)
      else map[],
      StringField(doc, "lastUpdated"),
      OptionalString(doc, "language"),
      OptionalString(doc, "lastUpdateCheck"))
  }

  lemma StringsRoundTrip(items: seq<string>)
    ensures JsonToStrings(StringsToJson(items)) == items
  {
  }

  lemma ValueRoundTrip(v: ConfigValue)
    ensures JsonToValue(ValueToJson(v)) == v
  {
    if v.CList? {
      StringsRoundTrip(v.items);
    }
  }

  lemma ServerRoundTrip(s: InstalledServer)
    ensures JsonToServer(ServerToJson(s)) == s
  {
    var j := ServerToJson(s);
    if s.config.Some? {
      var c := s.config.value;
      var f := ServerConfigToJson(c).fields;
      forall k | k in c ensures JsonToValue(f[k]) == c[k] {
        ValueRoundTrip(c[k]);
      }
      assert (map k | k in f :: JsonToValue(f[k])) == c;
    }
  }

  lemma ServersRoundTrip(servers: seq<InstalledServer>)
    ensures var items := seq(|servers|, i requires 0 <= i < |servers| => ServerToJson(servers[i]));
      seq(|items|, i requires 0 <= i < |items| => JsonToServer(items[i])) == servers
  {
    forall i | 0 <= i < |servers| ensures JsonToServer(ServerToJson(servers[i])) == servers[i] {
      ServerRoundTrip(servers[i]);
    }
  }

  lemma PresetsRoundTrip(presets: map<string, seq<string>>)
    ensures var f := map n | n in presets :: JArr(StringsToJson(presets[n]));
      (map n | n in f && f[n].JArr? :: JsonToStrings(f[n].items)) == presets
  {
    forall n | n in presets ensures JsonToStrings(StringsToJson(presets[n])) == presets[n] {
      StringsRoundTrip(presets[n]);
    }
  }

  /** Reading back a written document gives the same record. */
  lemma {:induction false} JsonRoundTrip(c: GomcpConfig)
    ensures FromJson(ToJson(c)) == c
  {
    ServersRoundTrip(c.installedServers);
    PresetsRoundTrip(c.presets);
  }

  /** Why `exportConfig` or `importConfig` fails. */
  datatype ConfigError = NoConfiguration | Unreadable | NotJson | Crashed | InvalidFormat

  /** The structure check of `importConfig`: a truthy `version` and an
      `installedServers` array. */
  predicate ValidImport(doc: Json) {
    doc.Has("version") && doc.Get("installedServers").Some? && doc.Get("installedServers").value.JArr?
  }

  /** What `importConfig` stores for an input file, before `saveConfig`
      stamps it. Reading `version` of a `null` document throws. */
  function Imported(input: File<Json>): Result<GomcpConfig, ConfigError> {
    match input
    case Missing => Err(Unreadable)
    case Malformed(_) => Err(NotJson)
    case Stored(doc) =>
      if doc == JNull then Err(Crashed)
      else if !ValidImport(doc) then Err(InvalidFormat)
      else Ok(FromJson(doc))
  }

  /** What `exportConfig` writes, or why it throws. */
  function Exported(file: File<GomcpConfig>): Result<Json, ConfigError> {
    if file.Stored? then Ok(ToJson(file.value)) else Err(NoConfiguration)
  }

  /** Export then import restores the exported record whenever its version
      is truthy, and is rejected as malformed otherwise; a missing or
      unreadable configuration cannot be exported. */
  lemma ExportImportRoundTrip(file: File<GomcpConfig>)
    ensures file.Read().None? <==> Exported(file).Err?
    ensures Exported(file).Ok? ==>
      Imported(Stored(Exported(file).value)) ==
        if file.value.version.Truthy() then Ok(file.value) else Err(InvalidFormat)
  {
    if file.Stored? {
      JsonRoundTrip(file.value);
      assert ToJson(file.value).Get("installedServers").Some?;
    }
  }

  /** The import accepts exactly the parsed non-null documents with a
      truthy `version` and an array of `installedServers`. */
  lemma ImportRule(input: File<Json>)
    ensures Imported(input).Ok? <==> input.Stored? && input.value != JNull && ValidImport(input.value)
    ensures input.Stored? && input.value != JNull && !input.value.Has("version") ==> Imported(input) == Err(InvalidFormat)
  {
  }

  /** With no readable configuration every mutator starts from version
      `1.0.0` with no installed servers and no presets. */
  lemma MutatorsStartFromDefault(server: MCPServer, config: Option<ServerConfig>, name: string, ids: seq<string>, now: string)
    ensures var c := WithInstalled(OrDefault(None, now), server, config, now);
      c.version == JStr("1.0.0") && c.installedServers == [Entry(server, config, now)] && c.presets == map[]
    ensures var c := WithPreset(OrDefault(None, now), name, ids);
      c.version == JStr("1.0.0") && c.installedServers == [] && c.presets == map[name := ids]
  {
  }

  /** The configuration file. Every mutator loads it, changes the record
      and saves it with a fresh `lastUpdated`; `now` is the current time as
      an ISO string. */
  class ConfigStore {
    var file: File<GomcpConfig>

    constructor (initial: File<GomcpConfig>)
      ensures file == initial
    {
      file := initial;
    }

    /** `loadConfig`: `null` for a missing or unparseable file. */
    function LoadConfig(): (r: Option<GomcpConfig>)
      reads this
      ensures r.None? <==> !file.Stored?
    {
      file.Read()
    }

    /** `saveConfig`. */
    method SaveConfig(c: GomcpConfig, now: string)
      modifies this
      ensures file == Stored(Touched(c, now))
    {
      var saved := c.(lastUpdated := now);
      file := Stored(saved);
    }

    /** `addInstalledServer`. */
    method AddInstalledServer(server: MCPServer, config: Option<ServerConfig>, now: string)
      modifies this
      ensures file == Stored(Touched(WithInstalled(OrDefault(old(file).Read(), now), server, config, now), now))
    {
      var c := OrDefault(LoadConfig(), now);
      var kept := Others(c.installedServers, server.id);
      kept := kept + [InstalledServer(server.id, server.name, now, config)];
      c := c.(installedServers := kept);
      SaveConfig(c, now);
    }

    /** `getInstalledServers`. */
    function GetInstalledServers(): (r: seq<InstalledServer>)
      reads this
      ensures r == InstalledOf(LoadConfig())
    {
      if file.Stored? then file.value.installedServers else []
    }

    /** `saveCustomPreset`. */
    method SaveCustomPreset(name: string, ids: seq<string>, now: string)
      modifies this
      ensures file == Stored(Touched(WithPreset(OrDefault(old(file).Read(), now), name, ids), now))
    {
      var c := OrDefault(LoadConfig(), now);
      c := c.(presets := c.presets[name := ids]);
      SaveConfig(c, now);
    }

    /** `getCustomPresets`. */
    function GetCustomPresets(): (r: map<string, seq<string>>)
      reads this
      ensures r == PresetsOf(LoadConfig())
    {
      if file.Stored? then file.value.presets else map[]
    }

    /** `exportConfig`: the document written to the output path. */
    method ExportConfig() returns (r: Result<Json, ConfigError>)
      ensures r == Exported(file)
    {
      var c := LoadConfig();
      if c.None? {
        return Err(NoConfiguration);
      }
      return Ok(ToJson(c.value));
    }

    /** `getLanguagePreference`. */
    function GetLanguagePreference(): (lang: string)
      reads this
      ensures lang == LanguageOf(LoadConfig())
    {
      var c := LoadConfig();
      if c.Some? && c.value.language.Some? && c.value.language.value != "" then c.value.language.value else "en"
    }

    /** `setLanguagePreference`. */
    method SetLanguagePreference(language: string, now: string)
      modifies this
      ensures file == Stored(Touched(OrDefault(old(file).Read(), now).(language := Some(language)), now))
    {
      var c := OrDefault(LoadConfig(), now);
      c := c.(language := Some(language));
      SaveConfig(c, now);
    }

    /** `importConfig`: a rejected input leaves the stored configuration as
        it was. */
    method ImportConfig(input: File<Json>, now: string) returns (r: Result<(), ConfigError>)
      modifies this
      ensures Imported(input).Err? ==> r == Err(Imported(input).error) && file == old(file)
      ensures Imported(input).Ok? ==> r == Ok(()) && file == Stored(Touched(Imported(input).value, now))
    {
      if input.Missing? {
        return Err(Unreadable);
      }
      if input.Malformed? {
        return Err(NotJson);
      }
      var doc := input.value;
      if doc == JNull {
        return Err(Crashed);
      }
      var servers := doc.Get("installedServers");
      if !doc.Has("version") || servers.None? || !servers.value.JArr? {
        return Err(InvalidFormat);
      }
      SaveConfig(FromJson(doc), now);
      return Ok(());
    }
  }
}
