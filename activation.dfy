/** Activation of project servers in Claude Code (src/activation.ts): how a
    server came to be activated, and the activate/deactivate operations
    built on the settings store. */
module Activation {
  import opened Wrappers
  import opened Json
  import opened Lists
  import opened ClaudeSettings
  import Text
  import Types
  import Servers
  import McpConfig

  datatype ActivationType = All | Specific | Permission | Inactive

  /** The strategies `activateServers` offers. */
  datatype Strategy = EnableAllStrategy | SpecificStrategy | PermissionStrategy

  datatype ServerActivationStatus = ServerActivationStatus(
    id: string,
    name: string,
    isInstalled: bool,
    isActivated: bool,
    activationType: ActivationType)

  /** The conditional chain that names how an activated server was
      activated. */
  function Classify(st: ActivationStatus, id: string, activated: bool): ActivationType {
    if !activated then Inactive
    else if st.enableAll then All
    else if id in st.enabledServers then Specific
    else if exists p :: (p in st.permissions
      && (Text.StartsWith(p, PermissionPrefix(id)) || p == WildcardPermission(id))) then Permission
    else Inactive
  }

  /** The type is `Inactive` exactly when the server is not activated;
      otherwise it is `All` under the flag, else `Specific` for an enabled
      id, else `Permission`. */
  lemma ClassifyRule(st: ActivationStatus, id: string)
    ensures var t := Classify(st, id, IsActivated(st, id));
      (t == Inactive <==> !IsActivated(st, id))
      && (t == All <==> IsActivated(st, id) && st.enableAll)
      && (t == Specific <==> IsActivated(st, id) && !st.enableAll && id in st.enabledServers)
      && (t == Permission <==>
            IsActivated(st, id) && !st.enableAll && id !in st.enabledServers)
  {
    ActivationRule(st, id);
    if IsActivated(st, id) && !st.enableAll && id !in st.enabledServers {
      var p :| p in st.permissions && Text.StartsWith(p, PermissionPrefix(id));
      assert Text.StartsWith(p, PermissionPrefix(id)) || p == WildcardPermission(id);
    }
  }

  /** `server?.name || serverId`. */
  function DisplayName(catalog: seq<Types.MCPServer>, id: string): string {
    match Servers.Find(catalog, id)
    case Some(server) => if server.name != "" then server.name else id
    case None => id
  }

  /** The status reported for one project server. */
  function StatusFor(catalog: seq<Types.MCPServer>, st: ActivationStatus, id: string): ServerActivationStatus {
    var activated := IsActivated(st, id);
    ServerActivationStatus(id, DisplayName(catalog, id), true, activated, Classify(st, id, activated))
  }

  /** A reported name is the catalog name when there is a non-empty one,
      and the id otherwise. */
  lemma DisplayNameRule(catalog: seq<Types.MCPServer>, id: string)
    ensures id !in Servers.Ids(catalog) ==> DisplayName(catalog, id) == id
    ensures DisplayName(catalog, id) != "" || id == ""
  {
  }

  /** `mcp__<id>__*` for each id. */
  function WildcardPermissions(ids: seq<string>): (perms: seq<string>)
    ensures |perms| == |ids|
    ensures forall i :: 0 <= i < |ids| ==> perms[i] == WildcardPermission(ids[i])
  {
    seq(|ids|, i requires 0 <= i < |ids| => WildcardPermission(ids[i]))
  }

  /** The permissions of `allow` that belong to one of `ids`, server by
      server. */
  function ServerPermissions(allow: seq<string>, ids: seq<string>): seq<string>
    decreases |ids|
  {
    if ids == [] then []
    else
      var init, last := ids[..|ids| - 1], ids[|ids| - 1];
      ServerPermissions(allow, init) + Filter(allow, p => Text.StartsWith(p, PermissionPrefix(last)))
  }

  /** A collected permission is an `allow` entry with the prefix of one of
      the ids, and every such entry is collected. */
  lemma {:induction false} ServerPermissionsMembers(allow: seq<string>, ids: seq<string>)
    ensures forall p :: p in ServerPermissions(allow, ids) <==>
      p in allow && exists id :: id in ids && Text.StartsWith(p, PermissionPrefix(id))
    decreases |ids|
  {
    if ids != [] {
      var init, last := ids[..|ids| - 1], ids[|ids| - 1];
      ServerPermissionsMembers(allow, init);
      forall p | p in allow && (exists id :: id in ids && Text.StartsWith(p, PermissionPrefix(id)))
        ensures p in ServerPermissions(allow, ids)
      {
        var id :| id in ids && Text.StartsWith(p, PermissionPrefix(id));
        if id != last {
          assert id in init;
        }
      }
    }
  }

  /** No permission of `allow` belongs to one of `ids`. */
  predicate Unrelated(p: string, ids: seq<string>) {
    forall id :: id in ids ==> !Text.StartsWith(p, PermissionPrefix(id))
  }

  /** `deactivateServers` on loaded settings: disable, then remove the
      collected permissions when there are any. */
  function Deactivated(s: Settings, ids: seq<string>): Settings {
    var d := DisableSpecific(s, ids);
    var perms := ServerPermissions(d.Allow(), ids);
    if perms != [] && RemovedPermissions(d, perms).Some? then RemovedPermissions(d, perms).value else d
  }

  /** After deactivation every id is disabled, not enabled and holds no
      permission; the other permissions stay in order; and no id is
      activated, whatever the flag. */
  lemma DeactivatedEffect(s: Settings, ids: seq<string>)
    ensures var r := Deactivated(s, ids);
      r.enableAll == s.enableAll
      && r.Allow() == Filter(s.Allow(), p => Unrelated(p, ids))
      && forall id :: id in ids ==>
           id in r.DisabledList() && id !in r.EnabledList()
           && !HasServerPermission(r.Allow(), id)
           && !IsActivated(StatusOf(r), id)
  {
    var d := DisableSpecific(s, ids);
    DisableSpecificEffect(s, ids);
    var allow := d.Allow();
    assert allow == s.Allow();
    var perms := ServerPermissions(allow, ids);
    ServerPermissionsMembers(allow, ids);
    var r := Deactivated(s, ids);
    if perms != [] {
      assert perms[0] in allow;
      RemovePermissionsEffect(d, perms);
      FilterCongruent(allow, p => p !in perms, p => Unrelated(p, ids));
    } else {
      forall p | p in allow ensures Unrelated(p, ids) {
        assert p !in perms;
      }
      FilterAll(allow, p => Unrelated(p, ids));
    }
    assert r.Allow() == Filter(allow, p => Unrelated(p, ids));
    forall id | id in ids
      ensures !HasServerPermission(r.Allow(), id) && !IsActivated(StatusOf(r), id)
    {
      ActivationRule(StatusOf(r), id);
    }
  }

  /** The operations of src/activation.ts over the project's settings and
      manifest files. */
  class Activator {
    var settings: SettingsStore
    var manifest: McpConfig.ManifestStore

    constructor (settings: SettingsStore, manifest: McpConfig.ManifestStore)
      ensures this.settings == settings && this.manifest == manifest
    {
      this.settings := settings;
      this.manifest := manifest;
    }

    /** `getProjectServersActivationStatus`: one status per project server,
        in manifest order. */
    method GetProjectServersActivationStatus(home: string) returns (statuses: seq<ServerActivationStatus>)
      requires manifest.Valid()
      ensures var ids := McpConfig.ProjectServers(manifest.file);
        |statuses| == |ids|
        && forall i :: 0 <= i < |ids| ==>
             statuses[i] == StatusFor(Servers.Catalog(home), settings.Status(), ids[i])
    {
      var ids := manifest.GetProjectServers();
      var st := settings.Status();
      statuses := [];
      for i := 0 to |ids|
        invariant |statuses| == i
        invariant forall k :: 0 <= k < i ==> statuses[k] == StatusFor(Servers.Catalog(home), st, ids[k])
      {
        var id := ids[i];
        var name := DisplayName(Servers.Catalog(home), id);
        var activated := settings.IsServerActivated(id);
        var kind := Inactive;
        if activated {
          if st.enableAll {
            kind := All;
          } else if id in st.enabledServers {
            kind := Specific;
          } else if exists p :: (p in st.permissions
              && (Text.StartsWith(p, PermissionPrefix(id)) || p == WildcardPermission(id))) {
            kind := Permission;
          }
        }
        statuses := statuses + [ServerActivationStatus(id, name, true, activated, kind)];
      }
    }

    /** `activateServers`. */
    method ActivateServers(ids: seq<string>, strategy: Strategy)
      modifies settings
      ensures var s := LoadOrEmpty(old(settings.file));
        settings.file == Stored(
          match strategy
          case EnableAllStrategy => EnableAll(s)
          case SpecificStrategy => EnableSpecific(s, ids)
          case PermissionStrategy => AddedPermissions(s, WildcardPermissions(ids)))
    {
      match strategy
      case EnableAllStrategy =>
        settings.EnableAllProjectServers();
      case SpecificStrategy =>
        settings.EnableSpecificServers(ids);
      case PermissionStrategy =>
        var perms := WildcardPermissions(ids);
        settings.AddPermissions(perms);
    }

    /** `deactivateServers`: disable, read the status again, collect the
        permissions of the ids, and remove them when there are any. */
    method DeactivateServers(ids: seq<string>)
      modifies settings
      ensures settings.file == Stored(Deactivated(LoadOrEmpty(old(settings.file)), ids))
    {
      settings.DisableSpecificServers(ids);
      var st := settings.Status();
      var perms: seq<string> := [];
      for i := 0 to |ids|
        invariant perms == ServerPermissions(st.permissions, ids[..i])
      {
        assert ids[..i + 1][..i] == ids[..i];
        var found := Filter(st.permissions, p => Text.StartsWith(p, PermissionPrefix(ids[i])));
        perms := perms + found;
      }
      assert ids[..|ids|] == ids;
      if |perms| > 0 {
        settings.RemovePermissions(perms);
      }
    }

    /** `hasClaudeSettings`. */
    function HasClaudeSettings(): (has: bool)
      reads this, settings
      ensures has <==> settings.file.Stored?
    {
      settings.Read() != None
    }

    /** `initializeClaudeSettings`: only when no settings can be read, write
        the flag. */
    method InitializeClaudeSettings()
      modifies settings
      ensures old(settings.file).Stored? ==> settings.file == old(settings.file)
      ensures !old(settings.file).Stored? ==> settings.file == Stored(EnableAll(EmptySettings))
    {
      if settings.Read() == None {
        settings.EnableAllProjectServers();
      }
    }
  }

  /** Initialising produces settings in which every server is activated. */
  lemma InitializedActivatesAll(id: string)
    ensures IsActivated(StatusOf(EnableAll(EmptySettings)), id)
    ensures EnableAll(EmptySettings).enableAll == Some(true)
  {
  }
}
