# gomcp bookkeeping, modelled in Dafny

gomcp is a command-line installer for Model Context Protocol servers. This
project models the rules behind its bookkeeping and proves properties of
them. It covers the server catalog and its option checks, gomcp's own
configuration file, the project manifest `.mcp.json`, and Claude Code's
project settings with server activation. It also covers the `claude mcp add`
invocation, the reading of `claude mcp list` output, version comparison,
backup and restore of configuration files, the update check, the changelog
generator and translation lookup.

Each source file is one module:

| module | source |
|---|---|
| `Types` | src/types.ts |
| `Servers` | src/servers.ts |
| `Config` | src/config.ts |
| `McpConfig` | src/mcp-config.ts |
| `ClaudeSettings` | src/claude-settings.ts |
| `Activation` | src/activation.ts |
| `InstallCommand`, `StatusLine`, `InstallerVersions`, `Backup` | src/installer.ts |
| `VersionCheck` | src/utils/version-check.ts |
| `Changelog` | src/utils/changelog.ts |
| `I18n` | src/i18n/index.ts |

Shared helper modules:

- `Wrappers`: `Option` and `Result`.
- `Json`: JSON values, and files that are missing, malformed or hold a value.
- `Text`: JavaScript string operations.
- `Lists`: push-unless-present and filter.
- `VersionParts`: component-wise version comparison.

Files that the source loads, changes and saves become classes with one
`file` field. Their methods are proved against pure functions of the old
file contents. Loops in the source are `while`/`for` loops with their
invariants. Pure helpers are functions, and each has lemmas relating it to
the behaviour the source promises.

## Model

| member | source | states |
|---|---|---|
| Types.AddConfigEnv | src/mcp-config.ts:94-100 | the loop over the options adds every key except `paths`, stringified, to the given environment and keeps the rest of it |
| Servers.Ids | src/servers.ts:5-499 | one id per catalog server, in catalog order |
| Servers.Find | src/activation.ts:38 | the lookup finds nothing exactly when no server has the id, and otherwise a catalog server with that id |
| Servers.CatalogIdsAre | src/servers.ts:5-499 | the catalog lists the 26 servers from `github` to `excel` in source order |
| Servers.CatalogIdsDistinct | src/__tests__/servers.test.ts:45-49 | the catalog ids hold no duplicate |
| Servers.CatalogIdsUnique | src/__tests__/servers.test.ts:45-49 | server ids in the catalog are unique |
| Servers.FindById | src/activation.ts:38 | with unique ids, looking up a server's id finds that server |
| Servers.PresetsValid | src/servers.ts:501-507 | every preset is non-empty and names only catalog servers |
| Servers.RequiresConfigHasOptions | src/__tests__/servers.test.ts:34-41 | every server that requires configuration offers at least one option |
| Servers.PrefixRule | src/servers.ts:222-240 | a single-prefix validator accepts exactly the strings starting with its prefix and otherwise returns its message |
| Servers.ValidatorAt | src/servers.ts:5-499 | the validator looked up for a server's option is the one declared on that server's option |
| Servers.GithubTokenRule | src/servers.ts:26-31 | the GitHub token validator accepts exactly the non-empty strings and otherwise returns `GitHub token is required` |
| Servers.PostgresUrlRule | src/servers.ts:103-112 | the PostgreSQL validator accepts exactly the strings starting with `postgres://` or `postgresql://` and otherwise returns its message |
| Servers.CatalogValidators | src/servers.ts:21-112 | the GitHub token and the PostgreSQL URL options carry those two rules |
| Servers.CatalogSlackValidators | src/servers.ts:218-240 | Slack's bot and app tokens require the prefixes `xoxb-` and `xapp-` |
| Servers.CatalogSecretValidators | src/servers.ts:258-352 | Notion's token requires `secret_` and Stripe's key `sk_` |
| Config.Others | src/config.ts:57 | the filtered list holds exactly the entries whose id differs from the server's |
| Config.WithInstalledEffect | src/config.ts:56-65 | after adding, the new entry is last and the only one with its id, the other entries are kept in their previous order, and nothing else changes |
| Config.OthersKeepOrder | src/config.ts:57 | filtering by id distributes over concatenation, so entries of other servers keep their relative order |
| Config.WithPresetEffect | src/config.ts:83 | the preset becomes exactly the given ids, replacing any previous value; other presets and fields are unchanged |
| Config.LanguageOf | src/config.ts:104-107 | the preference is never empty, and anything other than `en` is the stored language |
| Config.LanguageRule | src/config.ts:104-107 | a stored non-empty language is returned; no configuration, no language or an empty one reads as `en` |
| Config.StringsRoundTrip | src/config.ts:32-46 | a list of strings written as JSON reads back unchanged |
| Config.ValueRoundTrip | src/config.ts:32-46 | an option value written as JSON reads back unchanged |
| Config.ServerRoundTrip | src/config.ts:32-46 | an installed-server entry written as JSON reads back unchanged |
| Config.ServersRoundTrip | src/config.ts:32-46 | the list of installed servers written as JSON reads back unchanged |
| Config.PresetsRoundTrip | src/config.ts:32-46 | the presets written as JSON read back unchanged |
| Config.JsonRoundTrip | src/config.ts:32-46 | a configuration that was saved loads back as the same record |
| Config.ExportImportRoundTrip | src/config.ts:94-130 | export fails exactly when no configuration can be read; importing an export restores the record when its version is truthy and is rejected as malformed otherwise |
| Config.ImportRule | src/config.ts:121-128 | import accepts exactly the parsed non-null documents with a truthy `version` and an `installedServers` array |
| Config.MutatorsStartFromDefault | src/config.ts:48-119 | with no readable configuration, mutators start from version `1.0.0`, no installed servers and no presets |
| Config.ConfigStore.constructor | src/config.ts:21-22 | the store holds the given file |
| Config.ConfigStore.LoadConfig | src/config.ts:32-40 | nothing is loaded exactly when the file is missing or unparseable |
| Config.ConfigStore.SaveConfig | src/config.ts:42-46 | the file afterwards holds the record with `lastUpdated` set to now |
| Config.ConfigStore.AddInstalledServer | src/config.ts:48-68 | the file afterwards holds the loaded (or default) record with the server's entries replaced by one new entry at the end, stamped |
| Config.ConfigStore.GetInstalledServers | src/config.ts:70-73 | the stored installed servers, or none without a configuration |
| Config.ConfigStore.SaveCustomPreset | src/config.ts:75-87 | the file afterwards holds the loaded (or default) record with the preset set, stamped |
| Config.ConfigStore.GetCustomPresets | src/config.ts:89-92 | the stored presets, or none without a configuration |
| Config.ConfigStore.ExportConfig | src/config.ts:94-102 | fails with no configuration, and otherwise yields the stored record as a document |
| Config.ConfigStore.GetLanguagePreference | src/config.ts:104-107 | the stored language, or `en` |
| Config.ConfigStore.SetLanguagePreference | src/config.ts:109-119 | the file afterwards holds the loaded (or default) record with the language set, stamped |
| Config.ConfigStore.ImportConfig | src/config.ts:121-132 | an unreadable, unparseable, null or malformed input is rejected and nothing changes; otherwise the input is stored, stamped |
| McpConfig.BuildEntryShape | src/mcp-config.ts:62-104 | the entry runs the server's command or `npx`; its args are exactly the server's args, or `-y <package>` and its args, followed for `filesystem` by the paths, for `serena` by the dashboard switch only when disabled, and by nothing for any other server; env holds exactly the non-`paths` options stringified and is absent when empty |
| McpConfig.PutEffect | src/mcp-config.ts:107 | writing an entry sets the entry for that id only, keeps the other entries and the key order, and lists a new id last |
| McpConfig.DeleteEffect | src/mcp-config.ts:125 | deleting removes exactly that id and keeps the other entries in order |
| McpConfig.BuildArgs | src/mcp-config.ts:62-90 | the push steps build exactly the entry's argument list |
| McpConfig.BuildEnv | src/mcp-config.ts:92-104 | the loop over the options builds exactly the entry's environment, omitted when empty |
| McpConfig.BuildServerEntry | src/mcp-config.ts:61-104 | the steps build exactly the specified entry |
| McpConfig.ManifestStore.constructor | src/mcp-config.ts:29-38 | the store holds the given well-formed file |
| McpConfig.ManifestStore.AddProjectServer | src/mcp-config.ts:52-110 | a missing or unreadable manifest counts as `{mcpServers: {}}`; the built entry is written under the server id; the manifest stays well formed |
| McpConfig.ManifestStore.RemoveProjectServer | src/mcp-config.ts:119-137 | false and no change when the id has no entry; otherwise true, the entry is deleted and the file removed when no entries remain |
| McpConfig.ManifestStore.GetProjectServers | src/mcp-config.ts:142-149 | the manifest's ids without duplicates in key order, or none without a readable manifest |
| McpConfig.ManifestStore.IsServerInProject | src/mcp-config.ts:154-157 | true exactly when the manifest has an entry for the id |
| ClaudeSettings.UnreadableLoadsEmpty | src/claude-settings.ts:49-58 | a missing or unparseable settings file loads as the empty record `{}` that every mutator starts from |
| ClaudeSettings.WildcardHasPrefix | src/claude-settings.ts:197-205 | the wildcard permission `mcp__<id>__*` starts with the server prefix `mcp__<id>__` |
| ClaudeSettings.ActivationRule | src/claude-settings.ts:184-206 | with the flag set, activated exactly when not disabled; otherwise exactly when enabled or some allow entry starts with `mcp__<id>__` (the wildcard test is subsumed) |
| ClaudeSettings.RemoveIds | src/claude-settings.ts:110-117 | the filtered list keeps exactly the entries not given; the key is deleted when the list empties; no duplicates are introduced |
| ClaudeSettings.EnableAllEffect | src/claude-settings.ts:73-81 | the flag becomes true, both id lists are deleted, permissions and other keys are unchanged, and every server is activated |
| ClaudeSettings.RemoveIdsIdempotent | src/claude-settings.ts:110-117 | removing the same ids from a list again changes nothing |
| ClaudeSettings.EnableSpecificIdempotent | src/claude-settings.ts:89-119 | enabling the same servers twice leaves the settings as enabling them once |
| ClaudeSettings.DisableSpecificIdempotent | src/claude-settings.ts:211-236 | disabling the same servers twice leaves the settings as disabling them once |
| ClaudeSettings.EnableSpecificEffect | src/claude-settings.ts:89-119 | the flag is cleared if set; the enabled list becomes the old list plus each new id once in first-seen order (present even for no ids); the given ids leave the disabled list, whose key goes when it empties; permissions unchanged; every given id is activated |
| ClaudeSettings.DisableSpecificEffect | src/claude-settings.ts:211-236 | the disabled list gains each new id once in first-seen order; the given ids leave the enabled list, whose key goes when it empties; flag and permissions unchanged |
| ClaudeSettings.MutatorsKeepDisjoint | src/claude-settings.ts:73-117 | if no id is both enabled and disabled beforehand, none is after enable-all, enable-specific or disable-specific |
| ClaudeSettings.MutatorsKeepNoDuplicates | src/claude-settings.ts:102-107 | no mutator puts an entry twice in the enabled, disabled or allow list |
| ClaudeSettings.AddPermissionsEffect | src/claude-settings.ts:126-141 | `{allow: [], deny: []}` is created when absent, each new permission is appended once in first-seen order, and `deny` and the id lists are unchanged |
| ClaudeSettings.RemovePermissionsEffect | src/claude-settings.ts:148-158 | nothing is written without `permissions`; otherwise exactly the listed entries leave `allow`, the rest keep their order, and `deny` is unchanged |
| ClaudeSettings.SettingsStore.constructor | src/claude-settings.ts:49-58 | the store holds the given file |
| ClaudeSettings.SettingsStore.Write | src/claude-settings.ts:63-68 | the file afterwards holds the given settings |
| ClaudeSettings.SettingsStore.EnableAllProjectServers | src/claude-settings.ts:73-84 | the file afterwards holds the loaded settings (or `{}`) after enable-all |
| ClaudeSettings.SettingsStore.EnableSpecificServers | src/claude-settings.ts:89-121 | the file afterwards holds the loaded settings (or `{}`) after enable-specific, built by the push loop |
| ClaudeSettings.SettingsStore.DisableSpecificServers | src/claude-settings.ts:211-238 | the file afterwards holds the loaded settings (or `{}`) after disable-specific |
| ClaudeSettings.SettingsStore.AddPermissions | src/claude-settings.ts:126-143 | the file afterwards holds the loaded settings with the permissions added |
| ClaudeSettings.SettingsStore.RemovePermissions | src/claude-settings.ts:148-160 | the file is untouched without `permissions`, else holds the settings with the permissions removed |
| Activation.ClassifyRule | src/activation.ts:41-55 | the type is `none` exactly when the server is not activated; otherwise `all` under the flag, else `specific` for an enabled id, else `permission` |
| Activation.DisplayNameRule | src/activation.ts:38-59 | an id missing from the catalog is reported under its own name; a reported name is never empty unless the id is |
| Activation.WildcardPermissions | src/activation.ts:153 | one permission per id, `mcp__<id>__*`, in order |
| Activation.ServerPermissionsMembers | src/activation.ts:179-185 | the collected permissions are exactly the allow entries that start with `mcp__<id>__` for one of the ids |
| Activation.DeactivatedEffect | src/activation.ts:168-189 | after deactivation every id is disabled, not enabled and holds no permission, the other allow entries keep their order, the flag is unchanged, and no id is activated |
| Activation.InitializedActivatesAll | src/activation.ts:209-217 | the settings initialisation writes have the flag set and activate every server |
| Activation.Activator.constructor | src/activation.ts:3-13 | the activator works on the given settings and manifest stores |
| Activation.Activator.GetProjectServersActivationStatus | src/activation.ts:27-67 | one status per project server in manifest order, each installed, with the catalog name or the id, the activation decision and its classification |
| Activation.Activator.ActivateServers | src/activation.ts:134-163 | `all` and `specific` delegate to enable-all and enable-specific; `permission` adds exactly `mcp__<id>__*` for each id |
| Activation.Activator.DeactivateServers | src/activation.ts:168-196 | disables the ids, collects their permissions from a fresh read and removes them only when there are any |
| Activation.Activator.HasClaudeSettings | src/activation.ts:201-204 | true exactly when the settings file holds a readable document |
| Activation.Activator.InitializeClaudeSettings | src/activation.ts:209-217 | writes enable-all over `{}` only when no settings can be read, and changes nothing otherwise |
| InstallCommand.CopyDefinedEnv | src/installer.ts:172-177 | the loop copies exactly the inherited variables whose value is defined |
| InstallCommand.BuildCommandArgs | src/installer.ts:140-165 | `--`, then the server's command and args or `npx -y <package>` and args, then the filesystem directories |
| InstallCommand.BuildInstallEnv | src/installer.ts:168-186 | the defined inherited variables, overridden by every option except `paths`, stringified |
| InstallCommand.BuildInstallCommand | src/installer.ts:126-186 | the arguments are `mcp add <id> -s <scope>` followed by the command arguments, and the environment is as above |
| InstallCommand.InstallArgsMatchManifest | src/installer.ts:132-165 | the arguments start with `mcp add <id> -s <scope> --`, and what follows is the command line the project manifest records for the same server, except Serena's dashboard switch |
| InstallCommand.InstallEnvMatchesManifest | src/installer.ts:172-186 | every manifest environment entry reaches the child with the same value, inherited variables that are not options pass through, and nothing else is added |
| StatusLine.SpaceRun | src/installer.ts:330 | the greedy `\s+` run is maximal: all white space, followed by the end or a visible character |
| StatusLine.TokenRun | src/installer.ts:330 | the greedy `\S+` run is maximal: no white space, followed by the end or white space |
| StatusLine.LazyEnd | src/installer.ts:330 | the lazy `(.+?)` ends where a `\s+-\s+(✓\|✗)` tail matches, without crossing a line terminator |
| StatusLine.TryGapSound | src/installer.ts:330 | backtracking the greedy `\s+` after the colon yields only spans where the command starts after white space and is followed by a tail |
| StatusLine.LocateSound | src/installer.ts:330 | every span found is a match of `^(\S+):\s+(.+?)\s+-\s+(✓\|✗)` |
| StatusLine.ParseLineSound | src/installer.ts:330-335 | a parsed line yields a non-empty id without white space, the command between the separators, and `connected` exactly when the mark is ✓ |
| StatusLine.ParseRender | src/installer.ts:329-335 | reading a line printed as `id: command - ✓…` or `… - ✗…` gives back its id, command and state |
| StatusLine.ParseLocated | src/installer.ts:331-335 | the match groups are the id, the command and the mark at the located positions |
| StatusLine.RenderLayout | src/installer.ts:329 | where the id, the command, the dash and the mark sit in a printed line |
| StatusLine.LocateRendered | src/installer.ts:330 | the scanner finds exactly the printed positions in a printed line |
| StatusLine.RenderedTail | src/installer.ts:330 | the ` - <mark>` after a printed command matches the tail |
| StatusLine.RenderedLazy | src/installer.ts:330 | the lazy command scan over a printed command stops right after it |
| StatusLine.TokenRunExact | src/installer.ts:330 | the `\S+` run ends at the first white space |
| StatusLine.SpaceRunExact | src/installer.ts:330 | the `\s+` run ends at the first visible character |
| StatusLine.NoTailInside | src/installer.ts:330 | no tail can match strictly inside a printed command |
| StatusLine.NoTailsInside | src/installer.ts:330 | no tail matches at any position inside a printed command |
| StatusLine.LazyEndSkips | src/installer.ts:330 | the lazy scan passes every position without a tail and stops at the first one with a tail |
| StatusLine.CollectKeys | src/installer.ts:323-337 | an id has an entry exactly when some line reading names it |
| StatusLine.CollectLast | src/installer.ts:336 | an id's entry is what the last line naming it says |
| StatusLine.CollectStep | src/installer.ts:323-337 | one more line sets its id's entry, or changes nothing |
| StatusLine.ReadStatuses | src/installer.ts:320-339 | the loop over the output's lines skips health-check and blank lines and records each matching line, giving exactly the specified map, or nothing when the output has no colon |
| VersionParts.RestPart | src/installer.ts:760-762 | dropping the first component shifts every later component down by one |
| VersionParts.CompareAtFirstDifference | src/installer.ts:759-766 | the comparison is the sign of the first component where the two versions differ |
| VersionParts.CompareAllEqual | src/installer.ts:767 | versions whose components all agree, missing ones as 0, compare equal |
| VersionParts.CompareRange | src/installer.ts:750-751 | the comparison is -1, 0 or 1, and 0 exactly when every component agrees |
| VersionParts.CompareOneWitness | src/utils/version-check.ts:94-111 | a result of 1 has a first differing component where the first version is larger |
| VersionParts.CompareAntisymmetric | src/installer.ts:750-768 | swapping the versions negates the comparison |
| VersionParts.TrailingZero | src/installer.ts:760-762 | a trailing zero component never changes the comparison |
| VersionParts.CompareLoop | src/installer.ts:757-767 | the index loop with early return computes the comparison |
| InstallerVersions.KeepDigitsDots | src/installer.ts:753 | stripping keeps only digits and dots and never lengthens the text |
| InstallerVersions.KeepAppend | src/installer.ts:753 | stripping works character by character: it distributes over concatenation |
| InstallerVersions.KeepIdempotent | src/installer.ts:753 | a stripped version strips to itself |
| InstallerVersions.KeepDropsSpace | src/installer.ts:753 | white space is stripped |
| InstallerVersions.Normalize | src/installer.ts:753 | a normalised version has at least one component |
| InstallerVersions.Components | src/installer.ts:753 | one component per piece, each `parseInt(n) \|\| 0` |
| InstallerVersions.SplitPiecesChars | src/installer.ts:753 | every piece of a split is made of characters of the split text |
| InstallerVersions.ComponentsAreDigits | src/installer.ts:753 | every piece holds only digits, an empty piece reads as 0 and any other as its decimal value, so no component is negative |
| InstallerVersions.SplitPiecesHaveNoSep | src/installer.ts:753 | no piece of a split contains the separator |
| InstallerVersions.FirstIndexIsFirst | src/installer.ts:753 | nothing before the first occurrence of the separator contains it |
| InstallerVersions.IndexOfAppend | src/installer.ts:753 | the first dot of `a + "." + b` is the first dot of `a`, or the added one |
| InstallerVersions.SplitAppend | src/installer.ts:753 | splitting around an added dot splits each side separately |
| InstallerVersions.CompareVersions | src/installer.ts:752-768 | the result is -1, 0 or 1, the sign of the first differing component of the normalised versions, and 0 exactly when all components agree |
| InstallerVersions.CompareVersionsAntisymmetric | src/installer.ts:752-768 | swapping the arguments negates the result |
| InstallerVersions.IgnoresOtherCharacters | src/installer.ts:753 | characters other than digits and dots do not matter: `v1.2.3` normalises like `1.2.3` |
| InstallerVersions.KeepNone | src/installer.ts:753 | a text with no digit or dot strips to nothing |
| InstallerVersions.AppendZeroComponent | src/installer.ts:752-768 | a trailing `.0` adds a zero component and never changes the comparison, so `1.0` equals `1.0.0` |
| InstallerVersions.NormalizeAppendZero | src/installer.ts:753 | appending `.0` appends the component 0 |
| InstallerVersions.EqualCompareSame | src/installer.ts:752-768 | versions that compare equal compare alike against any third one |
| InstallerVersions.SameParts | src/installer.ts:757-767 | versions with the same components, missing as 0, compare alike against any third one |
| InstallerVersions.NeedsUpdate | src/installer.ts:810-812 | an update is needed exactly when the installed version is `unknown` or `installed`, or the trimmed latest version is newer |
| InstallerVersions.TrimKeepsComponents | src/installer.ts:812 | trimming the latest version does not change its components |
| InstallerVersions.KeepTrimStart | src/installer.ts:812 | leading white space does not change the stripped text |
| InstallerVersions.KeepTrimEnd | src/installer.ts:812 | trailing white space does not change the stripped text |
| InstallerVersions.UpToDateNeedsNoUpdate | src/installer.ts:810-812 | a readable installed version equal to the latest one needs no update |
| Backup.FileStamp | src/installer.ts:983 | the file-name timestamp has the ISO string's length and holds no `:` or `.` |
| Backup.BackupConfig | src/installer.ts:939-986 | writes nothing and reports it when neither configuration exists and parses; otherwise writes the `2.0` document to `mcp-backup-<stamp>.json` |
| Backup.CombinedBackupShape | src/installer.ts:945-972 | the `2.0` document has no `type`, records exactly the configurations that exist and parse with their parsed contents, and has `projectPath` exactly when the project configuration was found |
| Backup.BackupUserConfig | src/installer.ts:1006-1037 | without a readable user configuration nothing is written; otherwise the `2.1` user document goes to `mcp-user-backup-<stamp>.json` |
| Backup.BackupProjectConfig | src/installer.ts:1045-1080 | without a readable project configuration nothing is written; otherwise the `2.1` project document goes to `mcp-project-backup-<stamp>.json` |
| Backup.SafeWriteEffect | src/installer.ts:1138-1151 | the target is written, its old contents survive at `<path>.backup-<stamp>`, and no other file changes |
| Backup.WriteLive | src/installer.ts:1138-1151 | the copy-then-write steps produce exactly the safe write |
| Backup.RestoreUserConfig | src/installer.ts:1213-1283 | the steps produce exactly the specified user restore: missing file, invalid JSON, a present non-`user` type and a missing section are reported without writing |
| Backup.RestoreProjectConfig | src/installer.ts:1285-1354 | the steps produce exactly the specified project restore: missing file, invalid JSON, a present non-`project` type and a missing section are reported without writing |
| Backup.RestoreConfig | src/installer.ts:1088-1211 | the steps produce exactly the specified dispatch: `2.1` by type (other types ignored), `2.0` with `configs` by section, anything else copied as text to the user configuration |
| Backup.RejectionsWriteNothing | src/installer.ts:1095-1323 | a restore that does not restore writes nothing; a missing backup, invalid JSON and a wrong type are rejected |
| Backup.UserRestoreEffect | src/installer.ts:1254-1277 | the user restore succeeds exactly when there is a user section or a whole document with `mcpServers`, writes it to the user configuration and keeps the previous file at its safety path |
| Backup.CombinedRestoreEffect | src/installer.ts:1130-1171 | each section present in a `2.0` backup ends up in its live file |
| Backup.CombinedRoundTrip | src/installer.ts:939-1171 | restoring a combined backup brings back every truthy configuration it captured |
| Backup.UserRoundTrip | src/installer.ts:1006-1283 | restoring a typed user backup, directly or through the dispatch, brings back the user configuration |
| Backup.ProjectRoundTrip | src/installer.ts:1045-1354 | restoring a typed project backup, directly or through the dispatch, brings back the project configuration |
| Backup.TypedBackupsDoNotCross | src/installer.ts:1243-1323 | a typed backup is rejected by the restore of the other type |
| Backup.LegacyCopied | src/installer.ts:1187-1205 | a parsed document of no known version is copied verbatim to the user configuration, keeping the previous file at its safety path |
| VersionCheck.RecordedCheckDelays | src/utils/version-check.ts:20-47 | right after a check time is recorded, the next check is due exactly when a full day has passed, and only the check time and `lastUpdated` changed |
| VersionCheck.ShouldCheckRule | src/utils/version-check.ts:20-32 | no configuration or no recorded check makes the check due; a recorded time that is not a date disables it |
| VersionCheck.StripV | src/utils/version-check.ts:96 | at most one leading `v` is removed |
| VersionCheck.Defaulted | src/utils/version-check.ts:103-104 | each component is the parsed number, or 0 for `NaN` or a missing one |
| VersionCheck.IsNewerAtFirstDifference | src/utils/version-check.ts:94-111 | the latest version is newer exactly when, at the first component where the two differ, its component is larger |
| VersionCheck.IsNewerStrict | src/utils/version-check.ts:94-111 | no version is newer than itself, and of two versions at most one is newer than the other |
| VersionCheck.IsNewerVersion | src/utils/version-check.ts:94-111 | parses both versions and returns whether the latest is newer |
| VersionCheck.LatestAhead | src/utils/version-check.ts:102-110 | the index loop with early return answers whether the latest components are ahead |
| VersionCheck.ShouldCheckForUpdates | src/utils/version-check.ts:20-32 | decided on the loaded configuration: due without a recorded check, else once 24 hours have passed |
| VersionCheck.SaveLastCheckTime | src/utils/version-check.ts:37-47 | the file afterwards holds the loaded (or default) record with the check time set, other fields kept, stamped |
| VersionCheck.CheckForUpdates | src/utils/version-check.ts:116-142 | nothing, and no write, when no check is due or the request fails; otherwise the check time is recorded, and the result is nothing when the reply has no latest version and otherwise reports whether the fetched version is newer |
| VersionCheck.GetUpdateCommand | src/utils/version-check.ts:147-155 | `npx` exactly when `npm_execpath` contains `npx`, else `npm update -g gomcp` |
| Changelog.WordEnd | src/utils/changelog.ts:115 | the type `(\w+)` is the whole leading run of word characters: every character before the end is a word character, the one at the end is not |
| Changelog.SpaceEnd | src/utils/changelog.ts:115 | the `\s*` after the colon is the whole run of white space: every character before the end is white space, the one at the end is not |
| Changelog.DescriptionSound | src/utils/changelog.ts:115 | what `(.+)` captures follows nothing but white space after the colon and is one non-empty line |
| Changelog.DescriptionRendered | src/utils/changelog.ts:115 | white space followed by a one-line description that does not start with white space is read back as exactly that description |
| Changelog.ScopeGroupSound | src/utils/changelog.ts:115 | the optional group is either absent or a non-empty scope without `)` between parentheses |
| Changelog.ParseSummarySound | src/utils/changelog.ts:115 | every summary the expression matches is well formed and is the rendering `type(scope)!:` + white space + description of what it matched |
| Changelog.ParseSummaryRendered | src/utils/changelog.ts:115 | rendering a well-formed summary and matching it gives the same summary back |
| Changelog.ShortHash | src/utils/changelog.ts:120 | the short hash is a prefix of the hash: its first seven characters, or all of it when shorter |
| Changelog.ReleaseDropped | src/utils/changelog.ts:109-112 | a summary containing `release` or `version` in any mix of upper and lower case, anywhere, is dropped whatever the hash and body |
| Changelog.EmptyDropped | src/utils/changelog.ts:104-107 | a commit with an empty hash or an empty summary is dropped |
| Changelog.NotConventional | src/utils/changelog.ts:115 | a summary that has no `:` at all, or does not start with a word character, does not match the conventional pattern |
| Changelog.PlainSummaryIsChore | src/utils/changelog.ts:103-137 | a kept summary of that kind becomes an unscoped, non-breaking `chore` with the short hash, the trimmed summary and the trimmed body |
| Changelog.ParseConventionalCommit | src/utils/changelog.ts:114-126 | a conventional summary gives its lower-cased type, its scope and its trimmed description |
| Changelog.LogLines | src/utils/changelog.ts:90 | the lines kept are exactly the lines of the output that are not blank |
| Changelog.CollectSound | src/utils/changelog.ts:92-98 | the loop yields at most one commit per line, and a commit is collected exactly when some line reads as it |
| Changelog.CommitsFromLogSound | src/utils/changelog.ts:85-98 | a commit is listed exactly when some non-blank line of a non-empty output reads as it |
| Changelog.GetCommits | src/utils/changelog.ts:85-100 | the commits are the readings of the non-blank lines that succeed, in order, and none for empty output |
| Changelog.CollectLines | src/utils/changelog.ts:92-98 | the loop keeps the successful readings of the lines in order |
| Changelog.GroupsAreFilters | src/utils/changelog.ts:139-150 | there is a group exactly for each type that occurs, and each group holds exactly the commits of its type in input order |
| Changelog.CategorizeCommits | src/utils/changelog.ts:139-150 | the loop builds exactly those groups (the corrected grouping; see Findings) |
| Changelog.ConstructorTypeThrows | src/utils/changelog.ts:139-146 | a commit of type `constructor` makes the loop as written throw |
| Changelog.AsWrittenAgrees | src/utils/changelog.ts:139-150 | when no type names an inherited `Object.prototype` member, the loop as written builds exactly the groups |
| Changelog.InheritedTypeThrows | src/utils/changelog.ts:115-146 | an ordinary conventional summary such as `constructor: add factory` passes `parseCommit` and then makes the loop throw |
| Changelog.GenerateChangelog | src/utils/changelog.ts:25-59 | the changelog is the header with the version and the date part of the instant, then the breaking section, then the sections of the listed types, for the commits of the log (grouped by the corrected grouping; see Findings) |
| Changelog.AppendBreaking | src/utils/changelog.ts:33-43 | the breaking block is its title, one entry per breaking commit with the body indented by two spaces, and a blank line |
| Changelog.AppendTypeSections | src/utils/changelog.ts:46-56 | the loop appends the section of each listed type in the order of the type table |
| Changelog.AppendTypeSection | src/utils/changelog.ts:48-55 | a type section is its title, one entry per commit with its bold scope when it has one, and a blank line |
| Changelog.TypeSectionsEmpty | src/utils/changelog.ts:46-56 | without any group no type section is written |
| Changelog.NoCommitsOnlyHeader | src/utils/changelog.ts:25-59 | without commits the changelog is just its header |
| Changelog.BreakingSectionRule | src/utils/changelog.ts:33-43 | the breaking section is present exactly when some commit is breaking, and then it opens with its title |
| Changelog.TypeSectionsIgnore | src/utils/changelog.ts:46-56 | the sections of the listed types do not depend on the group of any other type |
| Changelog.UnlistedTypeOmitted | src/utils/changelog.ts:12-56 | a commit whose type is not in the type table changes no type section |
| Changelog.TypeSectionRule | src/utils/changelog.ts:46-56 | the section of a type is present exactly when some commit has that type, and it lists those commits in input order |
| Changelog.EntriesContain | src/utils/changelog.ts:36-53 | the entry of every listed commit is among the entries |
| Changelog.BreakingListedInBoth | src/utils/changelog.ts:33-56 | a breaking commit of a listed type appears both among the breaking changes and in the section of its type |
| I18n.WalkFirst | src/i18n/index.ts:88-91 | following a dotted path is following its first key and then the rest of the path from there |
| I18n.WalkStops | src/i18n/index.ts:89 | once the path reaches a value that is neither an object nor an array, any further key misses |
| I18n.WalkMissStays | src/i18n/index.ts:88-99 | once a prefix of the path misses, the whole path misses |
| I18n.WalkKeys | src/i18n/index.ts:88-106 | the key loop reaches exactly the value the path leads to, or stops with a miss |
| I18n.NothingLoadedGivesKey | src/i18n/index.ts:79-81 | with neither the current nor the fallback tree loaded the answer is the key |
| I18n.CurrentFirst | src/i18n/index.ts:86-91 | a key found as a string in the current tree is answered from it, whatever the fallback holds |
| I18n.FallbackUsed | src/i18n/index.ts:92-103 | a key missing from the current tree of a language other than `en` is looked up in the `en` tree |
| I18n.MissGivesKey | src/i18n/index.ts:98-110 | the answer is the key when the path is missing from both trees or reaches something that is not a string |
| I18n.NoPlaceholders | src/i18n/index.ts:113-117 | text without any of the placeholders comes back unchanged |
| I18n.OneParam | src/i18n/index.ts:115 | one parameter cuts the text at every `{param}` and puts its value in each cut, keeping the text between them |
| I18n.LoadedFilesRule | src/i18n/index.ts:30-41 | exactly the languages whose file was read and parsed are loaded, each with its tree |
| I18n.I18nManager.constructor | src/i18n/index.ts:24-26 | a new manager has `en` as its language and nothing loaded |
| I18n.I18nManager.Initialize | src/i18n/index.ts:28-47 | every language whose file parses is loaded, and the requested language becomes current only when it was loaded; the current language stays the fallback or a loaded one |
| I18n.I18nManager.SetLanguage | src/i18n/index.ts:49-56 | the language becomes current when loaded, otherwise `en` does; nothing is loaded or dropped |
| I18n.I18nManager.GetCurrentLanguage | src/i18n/index.ts:58-60 | the current language is always `en` or a loaded language |
| I18n.I18nManager.T | src/i18n/index.ts:75-120 | the answer is the string found for the key in the current tree or else the `en` tree, with every placeholder filled in, or the key itself |
| Lists.AppendNew | src/claude-settings.ts:103-107 | pushing each item unless already included keeps the old list as a prefix, holds exactly the old and the new items, and adds no duplicate |
| Lists.FirstSeenMembers | src/claude-settings.ts:103-107 | what gets appended is exactly the items not already in the list |
| Lists.AppendNewIdempotent | src/claude-settings.ts:103-107 | pushing the same items again changes nothing |
| Lists.PushEachNew | src/claude-settings.ts:103-107 | the push-unless-included loop computes that list |
| Lists.RemoveAll | src/claude-settings.ts:111-113 | filtering out the given ids keeps exactly the entries not among them and adds no duplicate |
| Lists.RemoveAllIdempotent | src/claude-settings.ts:111-113 | filtering out the same ids again changes nothing |

## Left out

- The file system, `git`, `execa`, the npm registry, `process.env` and the clock are not modelled as effects. Each is a parameter: a map of file contents, the `git log` output, the fetch outcome, an environment map, or the instant as milliseconds and as ISO text.
- `JSON.stringify` and `JSON.parse` are not modelled character by character. A document written and read back is the same value, and a file that does not parse is `Malformed`.
- Loaded configuration records are assumed to have the shape their TypeScript types declare. A `config.json` that parses to some other shape is treated as that record type.
- Console output, prompts and the terminal UI are not modelled. This includes `displayActivationStatus`, the spinners and the interactive menus.
- `getAvailableLanguages` and `formatChoice` in src/i18n/index.ts are not modelled. They only list or wrap values.
- In the `I18n` walk, `k in value` does not see members inherited from `Object.prototype`. The translation trees are plain data, so lookups are modelled as own keys only.
- I18n.ApplyParams: treats a parameter name as literal text. The source builds a `RegExp` from it, so a name with regular-expression metacharacters, or a value with `$` replacement patterns, behaves differently there.
- I18n.I18nManager.T: takes string parameter values only. A numeric value passes through `String(...)` in the source.
- `toLowerCase` is modelled for ASCII letters only. This is `Text.ToLowerAscii`, used for release detection and commit types.
- The tag and range selection at the start of `getCommitsSinceTag` is not modelled. The log output of whatever range was chosen is the parameter.
- Changelog.CommitsFromLog: splits the log into lines exactly as the source does. A commit whose body spans several lines is therefore read line by line: a `BREAKING CHANGE:` footer on a later body line is not seen, and later body lines are read as lines of their own.
- McpConfig.BuildArgs: requires that a `paths` option, when present, is a list or a falsy value. The source casts it to a string list without checking.
- McpConfig.BuildServerEntry: requires that a `paths` option, when present, is a list or a falsy value, for the same reason.
- McpConfig.ManifestStore.AddProjectServer: requires that a `paths` option, when present, is a list or a falsy value, for the same reason.
- InstallCommand.BuildCommandArgs: requires that a `paths` option, when present, is a list or a falsy value, for the same reason.
- InstallCommand.BuildInstallCommand: requires that a `paths` option, when present, is a list or a falsy value, for the same reason.
- Backup.BackupConfig: computes its timestamp once. The source calls `new Date()` separately for the file name and for the document.
- VersionCheck.SaveLastCheckTime: takes one instant `now` for both `lastUpdated` and `lastUpdateCheck`. The source calls `new Date()` for each, so the two stamps can differ by a few milliseconds.
- Config.ConfigStore.AddInstalledServer: takes one instant `now` for the entry's `installedAt` and the record's `lastUpdated`. The source calls `new Date()` separately for the default record, the entry and the save.
- Config.ConfigStore.SaveCustomPreset: takes one instant `now` for the default record and the save stamp, where the source calls `new Date()` for each.
- Config.ConfigStore.SetLanguagePreference: takes one instant `now` for the default record and the save stamp, where the source calls `new Date()` for each.
- JSON numbers are integers only (`JNum`). Fractional numbers such as `0.5` do not occur in the modelled files, so their truthiness and formatting are not modelled.
- The key order of a project manifest is insertion order. `Object.keys` lists integer-like keys such as `"42"` first in ascending order, which server ids never are.
- `parseInt` is modelled on unbounded integers. Precision lost above 2^53 in the source is not modelled.
- VersionCheck.ShouldCheck: compares elapsed milliseconds with a day in milliseconds. The source divides to floating-point hours and compares with 24, which gives the same answer.
- The compiled `dist/` files and the tests are not modelled. Where a test expects behaviour the code does not have, the model follows the code. Examples are a forced project scope, and `serena` appearing in the recommended preset.

## Findings

| source | as written | input that shows it | evidently intended | confidence | as-written member | corrected member |
|---|---|---|---|---|---|---|
| src/utils/changelog.ts:139-150 | `categorized[commit.type]` looks the type up on a plain object literal. A type that names an inherited `Object.prototype` member finds that member, which is truthy, so no array is created and `push` throws a `TypeError` | a commit whose summary is `constructor: add factory` (or `__proto__: fix`) | every type gets its own group, like any other type not in the type table | not executed | Changelog.InheritedTypeThrows | Changelog.CategorizeCommits |
