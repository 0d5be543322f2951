/** The once-a-day check for a newer gomcp release
    (src/utils/version-check.ts). The clock is a parameter: `nowMs` is
    `Date.now()`, `nowIso` the same instant as an ISO string, and `timeOf`
    is `new Date(text).getTime()`, `None` standing for an invalid date. The
    registry request is a parameter too: the outcome it would have. */
module VersionCheck {
  import opened Wrappers
  import Json
  import Text
  import VersionParts
  import Config

  /** Twenty-four hours, in milliseconds. */
  const DayMs := 24 * 60 * 60 * 1000

  /** `shouldCheckForUpdates` for a loaded configuration: always without a
      recorded check; otherwise once a day has passed. An unparseable time
      yields `NaN` hours, which never compare as due. */
  function ShouldCheck(loaded: Option<Config.GomcpConfig>, nowMs: int, timeOf: string -> Option<int>): bool {
    if loaded.None? || loaded.value.lastUpdateCheck.None? || loaded.value.lastUpdateCheck.value == "" then true
    else
      var last := timeOf(loaded.value.lastUpdateCheck.value);
      last.Some? && nowMs - last.value >= DayMs
  }

  /** The record `saveLastCheckTime` saves, before `saveConfig` stamps it. */
  function WithCheckTime(loaded: Option<Config.GomcpConfig>, nowIso: string): Config.GomcpConfig {
    Config.OrDefault(loaded, nowIso).(lastUpdateCheck := Some(nowIso))
  }

  /** Right after a check is recorded, the next one is due exactly when a
      full day has passed; nothing but the check time and `lastUpdated`
      changes. */
  lemma RecordedCheckDelays(loaded: Option<Config.GomcpConfig>, nowMs: int, nowIso: string, later: int,
                            timeOf: string -> Option<int>)
    requires nowIso != "" && timeOf(nowIso) == Some(nowMs)
    ensures var saved := Config.Touched(WithCheckTime(loaded, nowIso), nowIso);
      (ShouldCheck(Some(saved), later, timeOf) <==> later >= nowMs + DayMs)
      && saved.(lastUpdateCheck := Config.OrDefault(loaded, nowIso).lastUpdateCheck, lastUpdated := Config.OrDefault(loaded, nowIso).lastUpdated)
         == Config.OrDefault(loaded, nowIso)
  {
  }

  /** A missing record or configuration makes the check due; a recorded
      time that cannot be read as a date disables it. */
  lemma ShouldCheckRule(loaded: Option<Config.GomcpConfig>, nowMs: int, timeOf: string -> Option<int>)
    ensures loaded.None? || loaded.value.lastUpdateCheck.None? ==> ShouldCheck(loaded, nowMs, timeOf)
    ensures (loaded.Some? && loaded.value.lastUpdateCheck.Some? && loaded.value.lastUpdateCheck.value != ""
             && timeOf(loaded.value.lastUpdateCheck.value).None?) ==> !ShouldCheck(loaded, nowMs, timeOf)
  {
  }

  /** `v.replace(/^v/, '')`: one leading `v` at most. */
  function StripV(v: string): (r: string)
    ensures r == v || "v" + r == v
  {
    if v != [] && v[0] == 'v' then v[1..] else v
  }

  /** `parseVersion`: each dotted piece read with `parseInt(n, 10)`, `None`
      standing for `NaN`. */
  function ParsedPieces(v: string): seq<Option<int>> {
    var pieces := Text.Split(StripV(v), ".");
    seq(|pieces|, i requires 0 <= i < |pieces| => Text.ParseInt(pieces[i]))
  }

  /** `parts[i] || 0` for every piece: `NaN` reads as 0. */
  function Defaulted(raw: seq<Option<int>>): (parts: seq<int>)
    ensures |parts| == |raw|
    ensures forall i: nat :: VersionParts.Part(parts, i) == if i < |raw| then raw[i].GetOr(0) else 0
  {
    seq(|raw|, i requires 0 <= i < |raw| => raw[i].GetOr(0))
  }

  /** The parts as the loop reads them. */
  function VersionOf(v: string): seq<int> {
    Defaulted(ParsedPieces(v))
  }

  /** `isNewerVersion(current, latest)`. */
  predicate IsNewer(current: string, latest: string) {
    VersionParts.Compare(VersionOf(latest), VersionOf(current)) == 1
  }

  /** `latest` is newer exactly when, at the first component where the two
      differ, its component is larger. */
  lemma IsNewerAtFirstDifference(current: string, latest: string)
    ensures IsNewer(current, latest) <==>
      exists k: nat :: VersionParts.AgreeBefore(VersionOf(latest), VersionOf(current), k)
        && VersionParts.Part(VersionOf(latest), k) > VersionParts.Part(VersionOf(current), k)
  {
    var a, b := VersionOf(latest), VersionOf(current);
    if IsNewer(current, latest) {
      VersionParts.CompareOneWitness(a, b);
    } else if exists k: nat :: VersionParts.AgreeBefore(a, b, k) && VersionParts.Part(a, k) > VersionParts.Part(b, k) {
      var k: nat :| VersionParts.AgreeBefore(a, b, k) && VersionParts.Part(a, k) > VersionParts.Part(b, k);
      VersionParts.CompareAtFirstDifference(a, b, k);
    }
  }

  /** No version is newer than itself, and of two versions at most one is
      newer than the other. */
  lemma IsNewerStrict(v: string, w: string)
    ensures !IsNewer(v, v)
    ensures IsNewer(v, w) ==> !IsNewer(w, v)
  {
    VersionParts.CompareRange(VersionOf(v), VersionOf(v));
    VersionParts.CompareAntisymmetric(VersionOf(v), VersionOf(w));
  }

  /** `isNewerVersion`: parse both versions, then compare. */
  method IsNewerVersion(current: string, latest: string) returns (newer: bool)
    ensures newer == IsNewer(current, latest)
  {
    var currentParts := ParsedPieces(current);
    var latestParts := ParsedPieces(latest);
    newer := LatestAhead(currentParts, latestParts);
  }

  /** The index loop of `isNewerVersion` over the parsed pieces. */
  method LatestAhead(currentParts: seq<Option<int>>, latestParts: seq<Option<int>>) returns (newer: bool)
    ensures newer <==> VersionParts.Compare(Defaulted(latestParts), Defaulted(currentParts)) == 1
  {
    ghost var a, b := Defaulted(latestParts), Defaulted(currentParts);
    var n := if |currentParts| < |latestParts| then |latestParts| else |currentParts|;
    for i := 0 to n
      invariant VersionParts.AgreeBefore(a, b, i)
    {
      var currentPart := if i < |currentParts| then currentParts[i].GetOr(0) else 0;
      var latestPart := if i < |latestParts| then latestParts[i].GetOr(0) else 0;
      assert latestPart == VersionParts.Part(a, i) && currentPart == VersionParts.Part(b, i);
      if latestPart > currentPart {
        VersionParts.CompareAtFirstDifference(a, b, i);
        return true;
      }
      if latestPart < currentPart {
        VersionParts.CompareAtFirstDifference(a, b, i);
        return false;
      }
    }
    VersionParts.CompareAllEqual(a, b);
    return false;
  }

  /** The registry request: the `dist-tags.latest` it returned, a reply
      whose `dist-tags` has no `latest` (the request resolves to
      `undefined`), or a failure (network error, timeout, unparseable
      response, no `dist-tags`). */
  datatype Fetch = Fetched(latest: string) | FetchedNoLatest | FetchFailed

  /** `VersionCheckResult`; `lastChecked` in milliseconds. */
  datatype VersionCheckResult = VersionCheckResult(currentVersion: string, latestVersion: string,
                                                   isUpdateAvailable: bool, lastChecked: int)

  /** `shouldCheckForUpdates`. */
  function ShouldCheckForUpdates(store: Config.ConfigStore, nowMs: int, timeOf: string -> Option<int>): (due: bool)
    reads store
    ensures due == ShouldCheck(store.LoadConfig(), nowMs, timeOf)
  {
    ShouldCheck(store.file.Read(), nowMs, timeOf)
  }

  /** `saveLastCheckTime`. */
  method SaveLastCheckTime(store: Config.ConfigStore, nowIso: string)
    modifies store
    ensures store.file == Json.Stored(Config.Touched(WithCheckTime(old(store.file).Read(), nowIso), nowIso))
  {
    var c := Config.OrDefault(store.LoadConfig(), nowIso);
    c := c.(lastUpdateCheck := Some(nowIso));
    store.SaveConfig(c, nowIso);
  }

  /** `checkForUpdates`: nothing when no check is due or the request
      fails, and the check time is only recorded after the request
      resolved; a version that is missing makes the comparison throw
      after that write, which also gives nothing. */
  method CheckForUpdates(store: Config.ConfigStore, currentVersion: string, fetch: Fetch,
                         nowMs: int, nowIso: string, timeOf: string -> Option<int>)
    returns (r: Option<VersionCheckResult>)
    modifies store
    ensures !ShouldCheck(old(store.file).Read(), nowMs, timeOf) || fetch.FetchFailed? ==>
      r == None && store.file == old(store.file)
    ensures ShouldCheck(old(store.file).Read(), nowMs, timeOf) && fetch.Fetched? ==>
      r == Some(VersionCheckResult(currentVersion, fetch.latest, IsNewer(currentVersion, fetch.latest), nowMs))
      && store.file == Json.Stored(Config.Touched(WithCheckTime(old(store.file).Read(), nowIso), nowIso))
    ensures ShouldCheck(old(store.file).Read(), nowMs, timeOf) && fetch.FetchedNoLatest? ==>
      r == None
      && store.file == Json.Stored(Config.Touched(WithCheckTime(old(store.file).Read(), nowIso), nowIso))
  {
    var due := ShouldCheckForUpdates(store, nowMs, timeOf);
    if !due {
      return None;
    }
    if fetch.FetchFailed? {
      return None;
    }
    SaveLastCheckTime(store, nowIso);
    if fetch.FetchedNoLatest? {
      return None;
    }
    var available := IsNewerVersion(currentVersion, fetch.latest);
    return Some(VersionCheckResult(currentVersion, fetch.latest, available, nowMs));
  }

  /** `getUpdateCommand`: `npx` when run through npx, else a global npm
      update. */
  function GetUpdateCommand(npmExecPath: Option<string>): (command: string)
    ensures command == "npx" <==> npmExecPath.Some? && Text.Contains(npmExecPath.value, "npx")
    ensures command != "npx" ==> command == "npm update -g gomcp"
  {
    if npmExecPath.Some? && Text.Contains(npmExecPath.value, "npx") then "npx" else "npm update -g gomcp"
  }
}
