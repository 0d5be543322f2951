/** Backup and restore of the Claude Code configuration files
    (src/installer.ts): the combined `2.0` backup, the typed `2.1` user and
    project backups, and the restore that dispatches on the document's
    version. The file system is a map from paths to contents and the clock
    is the ISO timestamp in the environment. */
module Backup {
  import opened Wrappers
  import opened Json

  /** A file's text as `JSON.parse` sees it: a document, or text it rejects. */
  datatype Content = Doc(doc: Json) | Raw(text: string)

  type Files = map<string, Content>

  /** `process.env.HOME || ''`, `process.cwd()` and `new Date().toISOString()`. */
  datatype Env = Env(home: string, cwd: string, now: string)

  /** `path.join(dir, name)` for a name without separators. */
  function JoinPath(dir: string, name: string): string {
    if dir == "" then name else dir + "/" + name
  }

  function UserConfigPath(env: Env): string {
    JoinPath(JoinPath(env.home, ".claude"), "config.json")
  }

  function ProjectConfigPath(env: Env): string {
    JoinPath(env.cwd, ".mcp.json")
  }

  /** `toISOString().replace(/[:.]/g, '-')`. */
  function FileStamp(iso: string): (r: string)
    ensures |r| == |iso| && ':' !in r && '.' !in r
  {
    seq(|iso|, i requires 0 <= i < |iso| => if iso[i] == ':' || iso[i] == '.' then '-' else iso[i])
  }

  /** A backup file, written relative to the working directory. */
  function BackupPath(env: Env, prefix: string): string {
    JoinPath(env.cwd, prefix + FileStamp(env.now) + ".json")
  }

  /** The copy of a live file taken before a restore overwrites it. */
  function SafetyPath(path: string, env: Env): string {
    path + ".backup-" + FileStamp(env.now)
  }

  /** Reading and parsing a file; a missing or unparseable file reads as
      nothing. */
  function ReadJson(fs: Files, path: string): Option<Json> {
    if path in fs && fs[path].Doc? then Some(fs[path].doc) else None
  }

  /** What a backup or restore reports. */
  datatype Outcome =
    | Saved(path: string)
    | NothingToBackup
    | Restored
    | FileNotFound
    | NotJson
    | WrongType
    | NoSection
    | Ignored
    | Crashed

  /** The `configs` section of a combined backup: the configurations found. */
  function Sections(fs: Files, env: Env): map<string, Json> {
    var user := ReadJson(fs, UserConfigPath(env));
    var project := ReadJson(fs, ProjectConfigPath(env));
    (if user.Some? then map["user" := user.value] else map[])
      + (if project.Some? then map["project" := project.value] else map[])
  }

  /** The `version: '2.0'` document of `backupConfig`. */
  function CombinedBackup(fs: Files, env: Env): Json {
    var fields := map["version" := JStr("2.0"), "timestamp" := JStr(env.now), "configs" := JObj(Sections(fs, env))];
    JObj(if ReadJson(fs, ProjectConfigPath(env)).Some? then fields["projectPath" := JStr(env.cwd)] else fields)
  }

  /** The `version: '2.1'` document of `backupUserConfig`. */
  function UserBackup(user: Json, env: Env): Json {
    JObj(map["version" := JStr("2.1"), "type" := JStr("user"), "timestamp" := JStr(env.now),
             "configs" := JObj(map["user" := user])])
  }

  /** The `version: '2.1'` document of `backupProjectConfig`. */
  function ProjectBackup(project: Json, env: Env): Json {
    JObj(map["version" := JStr("2.1"), "type" := JStr("project"), "timestamp" := JStr(env.now),
             "projectPath" := JStr(env.cwd), "configs" := JObj(map["project" := project])])
  }

  /** `backupConfig`: read each configuration that exists and parses, and
      write the combined document unless none was found. */
  method BackupConfig(fs: Files, env: Env) returns (result: Files, outcome: Outcome)
    ensures Sections(fs, env) == map[] ==> result == fs && outcome == NothingToBackup
    ensures Sections(fs, env) != map[] ==>
      var path := BackupPath(env, "mcp-backup-");
      result == fs[path := Doc(CombinedBackup(fs, env))] && outcome == Saved(path)
  {
    var configs: map<string, Json> := map[];
    var user := ReadJson(fs, UserConfigPath(env));
    if user.Some? {
      configs := configs["user" := user.value];
    }
    var project := ReadJson(fs, ProjectConfigPath(env));
    if project.Some? {
      configs := configs["project" := project.value];
    }
    assert configs == Sections(fs, env);
    if |configs.Keys| == 0 {
      assert configs == map[];
      return fs, NothingToBackup;
    }
    var fields := map["version" := JStr("2.0"), "timestamp" := JStr(env.now), "configs" := JObj(configs)];
    if project.Some? {
      fields := fields["projectPath" := JStr(env.cwd)];
    }
    var path := BackupPath(env, "mcp-backup-");
    return fs[path := Doc(JObj(fields))], Saved(path);
  }

  /** The combined document records exactly the configurations that exist
      and parse, with their parsed contents, and the project directory
      exactly when the project configuration was found. */
  lemma CombinedBackupShape(fs: Files, env: Env)
    ensures var d := CombinedBackup(fs, env);
      d.Get("version") == Some(JStr("2.0")) && d.Get("type") == None
      && d.Get("configs") == Some(JObj(Sections(fs, env)))
      && ("user" in Sections(fs, env) <==> ReadJson(fs, UserConfigPath(env)).Some?)
      && ("project" in Sections(fs, env) <==> ReadJson(fs, ProjectConfigPath(env)).Some?)
      && (forall k :: k in Sections(fs, env) ==> k == "user" || k == "project")
      && ("user" in Sections(fs, env) ==> Some(Sections(fs, env)["user"]) == ReadJson(fs, UserConfigPath(env)))
      && ("project" in Sections(fs, env) ==> Some(Sections(fs, env)["project"]) == ReadJson(fs, ProjectConfigPath(env)))
      && (d.Get("projectPath").Some? <==> ReadJson(fs, ProjectConfigPath(env)).Some?)
  {
  }

  /** `backupUserConfig`: fails without writing when there is no readable
      user configuration. */
  method BackupUserConfig(fs: Files, env: Env) returns (result: Files, outcome: Outcome)
    ensures ReadJson(fs, UserConfigPath(env)).None? ==> result == fs && outcome == NoSection
    ensures ReadJson(fs, UserConfigPath(env)).Some? ==>
      var path := BackupPath(env, "mcp-user-backup-");
      result == fs[path := Doc(UserBackup(ReadJson(fs, UserConfigPath(env)).value, env))]
      && outcome == Saved(path)
  {
    var user := ReadJson(fs, UserConfigPath(env));
    if user.None? {
      return fs, NoSection;
    }
    var path := BackupPath(env, "mcp-user-backup-");
    return fs[path := Doc(UserBackup(user.value, env))], Saved(path);
  }

  /** `backupProjectConfig`: fails without writing when there is no
      readable project configuration. */
  method BackupProjectConfig(fs: Files, env: Env) returns (result: Files, outcome: Outcome)
    ensures ReadJson(fs, ProjectConfigPath(env)).None? ==> result == fs && outcome == NoSection
    ensures ReadJson(fs, ProjectConfigPath(env)).Some? ==>
      var path := BackupPath(env, "mcp-project-backup-");
      result == fs[path := Doc(ProjectBackup(ReadJson(fs, ProjectConfigPath(env)).value, env))]
      && outcome == Saved(path)
  {
    var project := ReadJson(fs, ProjectConfigPath(env));
    if project.None? {
      return fs, NoSection;
    }
    var path := BackupPath(env, "mcp-project-backup-");
    return fs[path := Doc(ProjectBackup(project.value, env))], Saved(path);
  }

  /** Overwriting a live configuration: an existing file is first copied,
      whatever it holds, to its safety path. */
  function SafeWrite(fs: Files, path: string, content: Content, env: Env): Files {
    (if path in fs then fs[SafetyPath(path, env) := fs[path]] else fs)[path := content]
  }

  /** The target is written, the old contents survive at the safety path,
      and no other file changes. */
  lemma SafeWriteEffect(fs: Files, path: string, content: Content, env: Env)
    ensures var r := SafeWrite(fs, path, content, env);
      path in r && r[path] == content
      && (path in fs ==> SafetyPath(path, env) in r && r[SafetyPath(path, env)] == fs[path])
      && (forall p :: p != path && p != SafetyPath(path, env) ==>
            (p in r <==> p in fs) && (p in fs ==> r[p] == fs[p]))
      && (path !in fs ==> forall p :: p != path ==> (p in r <==> p in fs) && (p in fs ==> r[p] == fs[p]))
  {
    var s := SafetyPath(path, env);
    assert |s| > |path|;
  }

  /** `backupData.type` is present and is not `expected`. */
  predicate OtherType(doc: Json, expected: string) {
    doc.Has("type") && doc.Get("type") != Some(JStr(expected))
  }

  /** `configs?.user || (backupData.mcpServers ? backupData : null)`. */
  function UserTarget(doc: Json): Option<Json> {
    var configs := doc.Get("configs");
    if configs.Some? && configs.value.Has("user") then configs.value.Get("user")
    else if doc.Has("mcpServers") then Some(doc)
    else None
  }

  /** `configs?.project`, when truthy. */
  function ProjectTarget(doc: Json): Option<Json> {
    var configs := doc.Get("configs");
    if configs.Some? && configs.value.Has("project") then configs.value.Get("project") else None
  }

  /** The checks every restore makes first: the backup exists and parses.
      Reading a property of a `null` document throws, which the outer
      `catch` reports. */
  function Load(fs: Files, path: string): Result<Json, Outcome> {
    if path !in fs then Err(FileNotFound)
    else if fs[path].Raw? then Err(NotJson)
    else if fs[path].doc == JNull then Err(Crashed)
    else Ok(fs[path].doc)
  }

  /** What `restoreUserConfig` does. */
  function UserRestore(fs: Files, env: Env, path: string): (Files, Outcome) {
    match Load(fs, path)
    case Err(o) => (fs, o)
    case Ok(doc) =>
      if OtherType(doc, "user") then (fs, WrongType)
      else match UserTarget(doc)
        case None => (fs, NoSection)
        case Some(user) => (SafeWrite(fs, UserConfigPath(env), Doc(user), env), Restored)
  }

  /** What `restoreProjectConfig` does. */
  function ProjectRestore(fs: Files, env: Env, path: string): (Files, Outcome) {
    match Load(fs, path)
    case Err(o) => (fs, o)
    case Ok(doc) =>
      if OtherType(doc, "project") then (fs, WrongType)
      else match ProjectTarget(doc)
        case None => (fs, NoSection)
        case Some(project) => (SafeWrite(fs, ProjectConfigPath(env), Doc(project), env), Restored)
  }

  /** The `version: '2.0'` branch of `restoreConfig`: each section present
      overwrites its live file, the user file first. */
  function CombinedRestore(fs: Files, env: Env, configs: Json): Files {
    var afterUser := if configs.Has("user") then SafeWrite(fs, UserConfigPath(env), Doc(configs.Get("user").value), env) else fs;
    if configs.Has("project") then SafeWrite(afterUser, ProjectConfigPath(env), Doc(configs.Get("project").value), env) else afterUser
  }

  /** What `restoreConfig` does: a typed `2.1` document goes to the typed
      restore of its type (any other type is ignored), a `2.0` document
      with `configs` restores its sections, and anything else is a legacy
      backup whose text is copied to the user configuration. */
  function FullRestore(fs: Files, env: Env, path: string): (Files, Outcome) {
    match Load(fs, path)
    case Err(o) => (fs, o)
    case Ok(doc) =>
      if doc.Get("version") == Some(JStr("2.1")) && doc.Has("type") then
        if doc.Get("type") == Some(JStr("user")) then UserRestore(fs, env, path)
        else if doc.Get("type") == Some(JStr("project")) then ProjectRestore(fs, env, path)
        else (fs, Ignored)
      else if doc.Get("version") == Some(JStr("2.0")) && doc.Has("configs") then
        (CombinedRestore(fs, env, doc.Get("configs").value), Restored)
      else (SafeWrite(fs, UserConfigPath(env), fs[path], env), Restored)
  }

  /** The safety copy and write of a live file, as the restores do it. */
  method WriteLive(fs: Files, path: string, content: Content, env: Env) returns (result: Files)
    ensures result == SafeWrite(fs, path, content, env)
  {
    result := fs;
    if path in result {
      var current := result[path];
      result := result[SafetyPath(path, env) := current];
    }
    result := result[path := content];
  }

  /** `restoreUserConfig`. */
  method RestoreUserConfig(fs: Files, env: Env, path: string) returns (result: Files, outcome: Outcome)
    ensures (result, outcome) == UserRestore(fs, env, path)
  {
    if path !in fs {
      return fs, FileNotFound;
    }
    if fs[path].Raw? {
      return fs, NotJson;
    }
    var doc := fs[path].doc;
    if doc == JNull {
      return fs, Crashed;
    }
    if doc.Has("type") && doc.Get("type") != Some(JStr("user")) {
      return fs, WrongType;
    }
    var user := UserTarget(doc);
    if user.None? {
      return fs, NoSection;
    }
    result := WriteLive(fs, UserConfigPath(env), Doc(user.value), env);
    outcome := Restored;
  }

  /** `restoreProjectConfig`. */
  method RestoreProjectConfig(fs: Files, env: Env, path: string) returns (result: Files, outcome: Outcome)
    ensures (result, outcome) == ProjectRestore(fs, env, path)
  {
    if path !in fs {
      return fs, FileNotFound;
    }
    if fs[path].Raw? {
      return fs, NotJson;
    }
    var doc := fs[path].doc;
    if doc == JNull {
      return fs, Crashed;
    }
    if doc.Has("type") && doc.Get("type") != Some(JStr("project")) {
      return fs, WrongType;
    }
    var project := ProjectTarget(doc);
    if project.None? {
      return fs, NoSection;
    }
    result := WriteLive(fs, ProjectConfigPath(env), Doc(project.value), env);
    outcome := Restored;
  }

  /** `restoreConfig`. */
  method RestoreConfig(fs: Files, env: Env, path: string) returns (result: Files, outcome: Outcome)
    ensures (result, outcome) == FullRestore(fs, env, path)
  {
    if path !in fs {
      return fs, FileNotFound;
    }
    if fs[path].Raw? {
      return fs, NotJson;
    }
    var doc := fs[path].doc;
    if doc == JNull {
      return fs, Crashed;
    }
    if doc.Get("version") == Some(JStr("2.1")) && doc.Has("type") {
      if doc.Get("type") == Some(JStr("user")) {
        result, outcome := RestoreUserConfig(fs, env, path);
      } else if doc.Get("type") == Some(JStr("project")) {
        result, outcome := RestoreProjectConfig(fs, env, path);
      } else {
        result, outcome := fs, Ignored;
      }
    } else if doc.Get("version") == Some(JStr("2.0")) && doc.Has("configs") {
      var configs := doc.Get("configs").value;
      result := fs;
      if configs.Has("user") {
        result := WriteLive(result, UserConfigPath(env), Doc(configs.Get("user").value), env);
      }
      if configs.Has("project") {
        result := WriteLive(result, ProjectConfigPath(env), Doc(configs.Get("project").value), env);
      }
      outcome := Restored;
    } else {
      result := WriteLive(fs, UserConfigPath(env), fs[path], env);
      outcome := Restored;
    }
  }

  /** A restore that does not report `Restored` writes nothing; a missing
      backup, unparseable text and a wrong type are rejected. */
  lemma RejectionsWriteNothing(fs: Files, env: Env, path: string)
    ensures FullRestore(fs, env, path).1 != Restored ==> FullRestore(fs, env, path).0 == fs
    ensures UserRestore(fs, env, path).1 != Restored ==> UserRestore(fs, env, path).0 == fs
    ensures ProjectRestore(fs, env, path).1 != Restored ==> ProjectRestore(fs, env, path).0 == fs
    ensures path !in fs ==> FullRestore(fs, env, path).1 == FileNotFound
    ensures path in fs && fs[path].Raw? ==> FullRestore(fs, env, path).1 == NotJson
    ensures path in fs && fs[path].Doc? && OtherType(fs[path].doc, "user") ==> UserRestore(fs, env, path).1 == WrongType
    ensures path in fs && fs[path].Doc? && OtherType(fs[path].doc, "project") ==> ProjectRestore(fs, env, path).1 == WrongType
  {
  }

  /** A typed user restore writes the user section of the backup, else a
      whole document that has `mcpServers`, to the user configuration, and
      keeps the previous file at its safety path. */
  lemma UserRestoreEffect(fs: Files, env: Env, path: string)
    requires Load(fs, path).Ok? && !OtherType(Load(fs, path).value, "user")
    ensures var (r, o) := UserRestore(fs, env, path);
      var doc := Load(fs, path).value;
      var target := UserConfigPath(env);
      (o == Restored <==> UserTarget(doc).Some?)
      && (o == Restored ==> r[target] == Doc(UserTarget(doc).value))
      && (o == Restored && target in fs ==> r[SafetyPath(target, env)] == fs[target])
      && ((doc.Get("configs").Some? && doc.Get("configs").value.Has("user"))
            ==> UserTarget(doc) == doc.Get("configs").value.Get("user"))
      && (UserTarget(doc).Some? && UserTarget(doc) != Some(doc) ==> doc.Get("configs").Some?)
  {
    var doc := Load(fs, path).value;
    if UserTarget(doc).Some? {
      SafeWriteEffect(fs, UserConfigPath(env), Doc(UserTarget(doc).value), env);
    }
  }

  /** The user and project configurations and their safety copies are four
      different files. */
  predicate SeparatePaths(env: Env) {
    var u, p := UserConfigPath(env), ProjectConfigPath(env);
    u != p && SafetyPath(u, env) != p && SafetyPath(p, env) != u
  }

  /** The `2.0` branch writes each section present to its live file; with
      separate paths, the project write does not disturb the user one. */
  lemma CombinedRestoreEffect(fs: Files, env: Env, configs: Json)
    requires SeparatePaths(env)
    ensures var r := CombinedRestore(fs, env, configs);
      (configs.Has("user") ==> r[UserConfigPath(env)] == Doc(configs.Get("user").value))
      && (configs.Has("project") ==> r[ProjectConfigPath(env)] == Doc(configs.Get("project").value))
  {
    var u, p := UserConfigPath(env), ProjectConfigPath(env);
    var afterUser := if configs.Has("user") then SafeWrite(fs, u, Doc(configs.Get("user").value), env) else fs;
    if configs.Has("user") {
      SafeWriteEffect(fs, u, Doc(configs.Get("user").value), env);
    }
    if configs.Has("project") {
      SafeWriteEffect(afterUser, p, Doc(configs.Get("project").value), env);
    }
  }

  /** Restoring the combined backup brings back every configuration that
      was found when it was taken (as long as it is a truthy document),
      wherever the user home and project directory now are. */
  lemma CombinedRoundTrip(fs: Files, env: Env, later: Files, env2: Env, path: string)
    requires Sections(fs, env) != map[]
    requires path in later && later[path] == Doc(CombinedBackup(fs, env))
    requires SeparatePaths(env2)
    ensures var (r, o) := FullRestore(later, env2, path);
      o == Restored
      && (forall u :: ReadJson(fs, UserConfigPath(env)) == Some(u) && u.Truthy() ==>
            r[UserConfigPath(env2)] == Doc(u))
      && (forall p :: ReadJson(fs, ProjectConfigPath(env)) == Some(p) && p.Truthy() ==>
            r[ProjectConfigPath(env2)] == Doc(p))
  {
    var doc := CombinedBackup(fs, env);
    var configs := JObj(Sections(fs, env));
    assert doc.Get("version") == Some(JStr("2.0")) && doc.Get("configs") == Some(configs);
    assert FullRestore(later, env2, path) == (CombinedRestore(later, env2, configs), Restored);
    CombinedRestoreEffect(later, env2, configs);
  }

  /** Restoring a typed user backup brings back the user configuration it
      holds, directly or through `restoreConfig`. */
  lemma UserRoundTrip(user: Json, env: Env, later: Files, env2: Env, path: string)
    requires user.Truthy()
    requires path in later && later[path] == Doc(UserBackup(user, env))
    ensures FullRestore(later, env2, path) == UserRestore(later, env2, path)
    ensures var (r, o) := UserRestore(later, env2, path);
      o == Restored && r[UserConfigPath(env2)] == Doc(user)
  {
    var doc := UserBackup(user, env);
    assert doc.Get("configs") == Some(JObj(map["user" := user]));
  }

  /** Restoring a typed project backup brings back the project
      configuration it holds, directly or through `restoreConfig`. */
  lemma ProjectRoundTrip(project: Json, env: Env, later: Files, env2: Env, path: string)
    requires project.Truthy()
    requires path in later && later[path] == Doc(ProjectBackup(project, env))
    ensures FullRestore(later, env2, path) == ProjectRestore(later, env2, path)
    ensures var (r, o) := ProjectRestore(later, env2, path);
      o == Restored && r[ProjectConfigPath(env2)] == Doc(project)
  {
    var doc := ProjectBackup(project, env);
    assert doc.Get("configs") == Some(JObj(map["project" := project]));
  }

  /** A typed backup cannot be restored as the other type. */
  lemma TypedBackupsDoNotCross(user: Json, project: Json, env: Env, later: Files, env2: Env, path: string)
    ensures path in later && later[path] == Doc(UserBackup(user, env)) ==>
      ProjectRestore(later, env2, path) == (later, WrongType)
    ensures path in later && later[path] == Doc(ProjectBackup(project, env)) ==>
      UserRestore(later, env2, path) == (later, WrongType)
  {
  }

  /** A parsed document that is neither a `2.1` typed backup nor a `2.0`
      backup with `configs` is copied as it is to the user configuration. */
  lemma LegacyCopied(fs: Files, env: Env, path: string)
    requires Load(fs, path).Ok?
    requires Load(fs, path).value.Get("version") != Some(JStr("2.1"))
    requires Load(fs, path).value.Get("version") != Some(JStr("2.0"))
    ensures var (r, o) := FullRestore(fs, env, path);
      o == Restored && r[UserConfigPath(env)] == fs[path]
      && (UserConfigPath(env) in fs ==> r[SafetyPath(UserConfigPath(env), env)] == fs[UserConfigPath(env)])
  {
    SafeWriteEffect(fs, UserConfigPath(env), fs[path], env);
  }
}
