/** Claude Code's project-local settings file (`.claude/settings.local.json`)
    and the rules that decide whether a project server is activated
    (src/claude-settings.ts). */
module ClaudeSettings {
  import opened Wrappers
  import opened Json
  import opened Lists
  import Text

  datatype Permissions = Permissions(allow: seq<string>, deny: seq<string>)

  /** The settings document. Each managed key may be absent, which is not
      the same as an empty list; `others` holds the keys this tool never
      touches. */
  datatype Settings = Settings(
    permissions: Option<Permissions>,
    enableAll: Option<bool>,
    enabled: Option<seq<string>>,
    disabled: Option<seq<string>>,
    others: map<string, Json>)
  {
    function EnabledList(): seq<string> { enabled.GetOr([]) }
    function DisabledList(): seq<string> { disabled.GetOr([]) }
    function Allow(): seq<string> { if permissions.Some? then permissions.value.allow else [] }
  }

  /** `{}`: what every mutator starts from when no settings can be read. */
  const EmptySettings := Settings(None, None, None, None, map[])

  /** `(await readClaudeSettings()) || {}`. */
  function LoadOrEmpty(f: File<Settings>): Settings {
    f.Read().GetOr(EmptySettings)
  }

  /** A missing file and an unparseable one both load as the empty record. */
  lemma UnreadableLoadsEmpty(text: string)
    ensures LoadOrEmpty(Missing) == EmptySettings
    ensures LoadOrEmpty(Malformed(text)) == EmptySettings
  {
  }

  /** The summary `getActivationStatus` returns. */
  datatype ActivationStatus = ActivationStatus(
    enableAll: bool,
    enabledServers: seq<string>,
    disabledServers: seq<string>,
    permissions: seq<string>)

  function StatusOf(s: Settings): ActivationStatus {
    ActivationStatus(s.enableAll == Some(true), s.EnabledList(), s.DisabledList(), s.Allow())
  }

  /** The permission that grants every tool of a server. */
  function WildcardPermission(id: string): string {
    "mcp__" + id + "__*"
  }

  /** The prefix shared by all permissions of a server. */
  function PermissionPrefix(id: string): string {
    "mcp__" + id + "__"
  }

  predicate HasServerPermission(permissions: seq<string>, id: string) {
    exists p :: p in permissions && Text.StartsWith(p, PermissionPrefix(id))
  }

  /** `isServerActivated`, decided on a status snapshot. */
  predicate IsActivated(st: ActivationStatus, id: string) {
    if st.enableAll then id !in st.disabledServers
    else (id in st.enabledServers || WildcardPermission(id) in st.permissions
          || HasServerPermission(st.permissions, id))
  }

  /** The wildcard permission starts with the server's prefix. */
  lemma WildcardHasPrefix(id: string)
    ensures Text.StartsWith(WildcardPermission(id), PermissionPrefix(id))
  {
    assert WildcardPermission(id) == PermissionPrefix(id) + "*";
  }

  /** With the flag set only the disabled list is consulted; without it a
      server is activated exactly when it is enabled or holds a permission
      with its prefix (the wildcard test adds nothing). */
  lemma ActivationRule(st: ActivationStatus, id: string)
    ensures st.enableAll ==> (IsActivated(st, id) <==> id !in st.disabledServers)
    ensures !st.enableAll ==>
      (IsActivated(st, id) <==> id in st.enabledServers || HasServerPermission(st.permissions, id))
  {
    if !st.enableAll && WildcardPermission(id) in st.permissions {
      WildcardHasPrefix(id);
    }
  }

  /** No id is both enabled and disabled. */
  predicate Disjoint(s: Settings) {
    forall id :: id in s.EnabledList() ==> id !in s.DisabledList()
  }

  /** No list holds an entry twice. */
  predicate NoDuplicateEntries(s: Settings) {
    NoDuplicates(s.EnabledList()) && NoDuplicates(s.DisabledList()) && NoDuplicates(s.Allow())
  }

  /** A list after ids were filtered out of it: the key disappears when the
      list becomes empty. */
  function RemoveIds(list: Option<seq<string>>, ids: seq<string>): (r: Option<seq<string>>)
    ensures r.Some? ==> list.Some? && r.value != []
    ensures forall x :: x in r.GetOr([]) <==> x in list.GetOr([]) && x !in ids
    ensures NoDuplicates(list.GetOr([])) ==> NoDuplicates(r.GetOr([]))
  {
    match list
    case None => None
    case Some(l) =>
      var kept := RemoveAll(l, ids);
      if kept == [] then None else Some(kept)
  }

  /** `enableAllProjectServers` applied to loaded settings. */
  function EnableAll(s: Settings): Settings {
    s.(enableAll := Some(true), enabled := None, disabled := None)
  }

  /** `enableSpecificServers` applied to loaded settings. */
  function EnableSpecific(s: Settings, ids: seq<string>): Settings {
    s.(enableAll := if s.enableAll == Some(true) then Some(false) else s.enableAll,
       enabled := Some(AppendNew(s.EnabledList(), ids)),
       disabled := RemoveIds(s.disabled, ids))
  }

  /** `disableSpecificServers` applied to loaded settings. */
  function DisableSpecific(s: Settings, ids: seq<string>): Settings {
    s.(disabled := Some(AppendNew(s.DisabledList(), ids)),
       enabled := RemoveIds(s.enabled, ids))
  }

  /** Filtering the same ids out twice is filtering them out once. */
  lemma RemoveIdsIdempotent(list: Option<seq<string>>, ids: seq<string>)
    ensures RemoveIds(RemoveIds(list, ids), ids) == RemoveIds(list, ids)
  {
    if list.Some? {
      RemoveAllIdempotent(list.value, ids);
    }
  }

  /** Enabling the same servers twice gives the settings of enabling them
      once. */
  lemma EnableSpecificIdempotent(s: Settings, ids: seq<string>)
    ensures EnableSpecific(EnableSpecific(s, ids), ids) == EnableSpecific(s, ids)
  {
    AppendNewIdempotent(s.EnabledList(), ids);
    RemoveIdsIdempotent(s.disabled, ids);
  }

  /** Disabling the same servers twice gives the settings of disabling them
      once. */
  lemma DisableSpecificIdempotent(s: Settings, ids: seq<string>)
    ensures DisableSpecific(DisableSpecific(s, ids), ids) == DisableSpecific(s, ids)
  {
    AppendNewIdempotent(s.DisabledList(), ids);
    RemoveIdsIdempotent(s.enabled, ids);
  }

  /** `addPermissions` applied to loaded settings. */
  function AddedPermissions(s: Settings, perms: seq<string>): Settings {
    var p := s.permissions.GetOr(Permissions([], []));
    s.(permissions := Some(p.(allow := AppendNew(p.allow, perms))))
  }

  /** `removePermissions` applied to loaded settings; `None` when there is
      nothing to write. */
  function RemovedPermissions(s: Settings, perms: seq<string>): Option<Settings> {
    match s.permissions
    case None => None
    case Some(p) => Some(s.(permissions := Some(p.(allow := RemoveAll(p.allow, perms)))))
  }

  /** Enabling all sets the flag, drops both lists, keeps the permissions,
      and activates every server. */
  lemma EnableAllEffect(s: Settings, id: string)
    ensures var r := EnableAll(s);
      r.enableAll == Some(true) && r.enabled.None? && r.disabled.None?
      && r.permissions == s.permissions && r.others == s.others
      && IsActivated(StatusOf(r), id)
  {
  }

  /** Enabling specific servers clears the flag, appends each new id once
      after the existing entries, creates the list even for no ids, removes
      the ids from the disabled list (dropping the key when it empties), and
      activates every given id. */
  lemma EnableSpecificEffect(s: Settings, ids: seq<string>)
    ensures var r := EnableSpecific(s, ids);
      r.enableAll != Some(true)
      && (s.enableAll != Some(true) ==> r.enableAll == s.enableAll)
      && r.enabled == Some(s.EnabledList() + FirstSeen(s.EnabledList(), ids))
      && (forall x :: x in r.DisabledList() <==> x in s.DisabledList() && x !in ids)
      && (r.disabled.Some? ==> r.DisabledList() != [])
      && r.permissions == s.permissions && r.others == s.others
      && forall id :: id in ids ==> IsActivated(StatusOf(r), id)
  {
    AppendNewIsFirstSeen(s.EnabledList(), ids);
  }

  /** Disabling adds each new id once to the disabled list, removes the ids
      from the enabled list (dropping the key when it empties), and leaves
      the flag and the permissions alone. */
  lemma DisableSpecificEffect(s: Settings, ids: seq<string>)
    ensures var r := DisableSpecific(s, ids);
      r.enableAll == s.enableAll
      && r.disabled == Some(s.DisabledList() + FirstSeen(s.DisabledList(), ids))
      && (forall x :: x in r.EnabledList() <==> x in s.EnabledList() && x !in ids)
      && (r.enabled.Some? ==> r.EnabledList() != [])
      && r.permissions == s.permissions && r.others == s.others
      && forall id :: id in ids ==> id in r.DisabledList() && id !in r.EnabledList()
  {
    AppendNewIsFirstSeen(s.DisabledList(), ids);
  }

  /** The three list mutators keep the two lists disjoint. */
  lemma MutatorsKeepDisjoint(s: Settings, ids: seq<string>)
    requires Disjoint(s)
    ensures Disjoint(EnableAll(s))
    ensures Disjoint(EnableSpecific(s, ids))
    ensures Disjoint(DisableSpecific(s, ids))
  {
  }

  /** No mutator introduces a duplicate entry. */
  lemma MutatorsKeepNoDuplicates(s: Settings, ids: seq<string>)
    requires NoDuplicateEntries(s)
    ensures NoDuplicateEntries(EnableAll(s))
    ensures NoDuplicateEntries(EnableSpecific(s, ids))
    ensures NoDuplicateEntries(DisableSpecific(s, ids))
    ensures NoDuplicateEntries(AddedPermissions(s, ids))
    ensures RemovedPermissions(s, ids).Some? ==> NoDuplicateEntries(RemovedPermissions(s, ids).value)
  {
  }

  /** Adding permissions creates `{allow: [], deny: []}` when absent, appends
      each new permission once in first-seen order, and keeps `deny`. */
  lemma AddPermissionsEffect(s: Settings, perms: seq<string>)
    ensures var r := AddedPermissions(s, perms);
      r.permissions.Some?
      && r.Allow() == s.Allow() + FirstSeen(s.Allow(), perms)
      && r.permissions.value.deny == (if s.permissions.Some? then s.permissions.value.deny else [])
      && r.enableAll == s.enableAll && r.enabled == s.enabled && r.disabled == s.disabled
      && r.others == s.others
  {
    AppendNewIsFirstSeen(s.Allow(), perms);
  }

  /** Removing permissions writes nothing without a `permissions` key;
      otherwise it drops exactly the listed entries from `allow`, keeps the
      order of the rest, and keeps `deny`. */
  lemma RemovePermissionsEffect(s: Settings, perms: seq<string>)
    ensures RemovedPermissions(s, perms).None? <==> s.permissions.None?
    ensures RemovedPermissions(s, perms).Some? ==>
      var r := RemovedPermissions(s, perms).value;
      r.Allow() == Filter(s.Allow(), p => p !in perms)
      && (forall p :: p in r.Allow() <==> p in s.Allow() && p !in perms)
      && r.permissions.value.deny == s.permissions.value.deny
      && r.enableAll == s.enableAll && r.enabled == s.enabled && r.disabled == s.disabled
      && r.others == s.others
  {
  }

  /** The settings file, read and written as a whole. */
  class SettingsStore {
    var file: File<Settings>

    constructor (initial: File<Settings>)
      ensures file == initial
    {
      file := initial;
    }

    /** `readClaudeSettings`. */
    function Read(): Option<Settings>
      reads this
    {
      file.Read()
    }

    /** `getActivationStatus`. */
    function Status(): ActivationStatus
      reads this
    {
      StatusOf(LoadOrEmpty(file))
    }

    /** `isServerActivated`. */
    function IsServerActivated(id: string): bool
      reads this
    {
      IsActivated(Status(), id)
    }

    /** `writeClaudeSettings`. */
    method Write(s: Settings)
      modifies this
      ensures file == Stored(s)
    {
      file := Stored(s);
    }

    method EnableAllProjectServers()
      modifies this
      ensures file == Stored(EnableAll(LoadOrEmpty(old(file))))
    {
      var s := LoadOrEmpty(file);
      s := s.(enableAll := Some(true));
      s := s.(enabled := None);
      s := s.(disabled := None);
      Write(s);
    }

    method EnableSpecificServers(ids: seq<string>)
      modifies this
      ensures file == Stored(EnableSpecific(LoadOrEmpty(old(file)), ids))
    {
      var s := LoadOrEmpty(file);
      if s.enableAll == Some(true) {
        s := s.(enableAll := Some(false));
      }
      var enabled := if s.enabled.None? then [] else s.enabled.value;
      enabled := PushEachNew(enabled, ids);
      s := s.(enabled := Some(enabled));
      if s.disabled.Some? {
        var kept := RemoveAll(s.disabled.value, ids);
        s := s.(disabled := if kept == [] then None else Some(kept));
      }
      Write(s);
    }

    method DisableSpecificServers(ids: seq<string>)
      modifies this
      ensures file == Stored(DisableSpecific(LoadOrEmpty(old(file)), ids))
    {
      var s := LoadOrEmpty(file);
      var disabled := if s.disabled.None? then [] else s.disabled.value;
      disabled := PushEachNew(disabled, ids);
      s := s.(disabled := Some(disabled));
      if s.enabled.Some? {
        var kept := RemoveAll(s.enabled.value, ids);
        s := s.(enabled := if kept == [] then None else Some(kept));
      }
      Write(s);
    }

    method AddPermissions(perms: seq<string>)
      modifies this
      ensures file == Stored(AddedPermissions(LoadOrEmpty(old(file)), perms))
    {
      var s := LoadOrEmpty(file);
      if s.permissions.None? {
        s := s.(permissions := Some(Permissions([], [])));
      }
      var allow := PushEachNew(s.permissions.value.allow, perms);
      s := s.(permissions := Some(s.permissions.value.(allow := allow)));
      Write(s);
    }

    method RemovePermissions(perms: seq<string>)
      modifies this
      ensures var r := RemovedPermissions(LoadOrEmpty(old(file)), perms);
        file == if r.Some? then Stored(r.value) else old(file)
    {
      var s := LoadOrEmpty(file);
      if s.permissions.None? {
        return;
      }
      var allow := RemoveAll(s.permissions.value.allow, perms);
      s := s.(permissions := Some(s.permissions.value.(allow := allow)));
      Write(s);
    }
  }
}
