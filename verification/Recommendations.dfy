/** The storage planner: sort, cap per category, fall back, sort again. Rationale texts are left out. */
module Recommendations {
  import opened Common
  import opened Ordering
  import opened Probes
  import opened Apps
  import opened Strings

  datatype Priority = High | Medium | Low {
    function Rank(): int {
      match this
      case High => 3
      case Medium => 2
      case Low => 1
    }
  }

  datatype Action = CleanCrashlogs | OffloadApp | UninstallApp | CleanAppSandbox | GenericReview

  datatype ViaTool = ViaCrashlogsClean | ViaAppsClean | ViaOpenAppStorageSettings | ViaNone

  datatype Recommendation = Recommendation(
    priority: Priority, action: Action, bundleID: string, appName: string, bytes: I64, via: ViaTool)

  datatype Label = LabelLow | LabelNormal | LabelHigh

  datatype Inputs = Inputs(
    udid: string, deviceName: string, freeBytes: U64, totalBytes: U64,
    apps: seq<App>, crashlogBytes: I64, probes: seq<ProbeResult>)

  datatype Payload = Payload(
    udid: string, deviceName: string, freeBytes: U64, totalBytes: U64, storageLabel: Label, recs: seq<Recommendation>)

  const PER_APP: int := 50 * 1024 * 1024
  const CRASHLOG: int := 5 * 1024 * 1024
  const LARGE_APP: int := 1024 * 1024 * 1024
  const TOP_APPS: nat := 5

  /** Less than 10% free is low, less than 25% normal; an unknown total counts as 0% free. */
  function ClassifyLabel(freeBytes: U64, totalBytes: U64): Label {
    if totalBytes == 0 || 10 * freeBytes < totalBytes then LabelLow
    else if 4 * freeBytes < totalBytes then LabelNormal
    else LabelHigh
  }

  function PriorityForAppBytes(bytes: int): Priority {
    if bytes >= 2 * 1024 * 1024 * 1024 then High
    else if bytes >= 500 * 1024 * 1024 then Medium
    else Low
  }

  predicate VendedIn(probes: seq<ProbeResult>, bundleID: string) {
    IsVended(Newest(UnixNano(), probes, bundleID))
  }

  /** Large enough for a recommendation of its own, and not Apple's. */
  predicate Eligible(a: App) {
    !AppleSystem(a.bundleID) && SignedUsage(a) >= PER_APP
  }

  /** The eligible apps of one category: vended ones are cleaned, the others offloaded. */
  function Wanted(probes: seq<ProbeResult>, vended: bool): App -> bool {
    (a: App) => Eligible(a) && VendedIn(probes, a.bundleID) == vended
  }

  function ActionFor(vended: bool): Action {
    if vended then CleanAppSandbox else OffloadApp
  }

  function AppRec(a: App, vended: bool): Recommendation {
    Recommendation(PriorityForAppBytes(SignedUsage(a)), ActionFor(vended), a.bundleID, a.name, SignedUsage(a),
                   if vended then ViaAppsClean else ViaOpenAppStorageSettings)
  }

  function AppRecs(apps: seq<App>, vended: bool): seq<Recommendation> {
    if apps == [] then [] else [AppRec(apps[0], vended)] + AppRecs(apps[1..], vended)
  }

  function Crash(bytes: I64): seq<Recommendation> {
    if bytes >= CRASHLOG then [Recommendation(High, CleanCrashlogs, "", "", bytes, ViaCrashlogsClean)] else []
  }

  function Generic(): Recommendation {
    Recommendation(Medium, GenericReview, "", "", 0, ViaNone)
  }

  /** The per-app loop: recommendations for the remaining apps, given how many each category already has. */
  function Scan(apps: seq<App>, probes: seq<ProbeResult>, sandbox: nat, offload: nat): seq<Recommendation> {
    if apps == [] then []
    else
      var a := apps[0];
      if !Eligible(a) then Scan(apps[1..], probes, sandbox, offload)
      else if VendedIn(probes, a.bundleID) then
        if sandbox >= TOP_APPS then Scan(apps[1..], probes, sandbox, offload)
        else [AppRec(a, true)] + Scan(apps[1..], probes, sandbox + 1, offload)
      else if offload >= TOP_APPS then Scan(apps[1..], probes, sandbox, offload)
      else [AppRec(a, false)] + Scan(apps[1..], probes, sandbox, offload + 1)
  }

  predicate PerApp(r: Recommendation) {
    r.action == OffloadApp || r.action == CleanAppSandbox || r.action == UninstallApp
  }

  /** A third-party app of at least 1 GiB, by the unsigned sum. */
  predicate Large(a: App) {
    !AppleSystem(a.bundleID) && Usage(a) >= LARGE_APP
  }

  /** Higher priority, then more bytes, then the smaller bundle ID first. */
  function ByUrgency(): (Recommendation, Recommendation) -> bool {
    (x: Recommendation, y: Recommendation) =>
      || x.priority.Rank() > y.priority.Rank()
      || (x.priority.Rank() == y.priority.Rank()
          && (x.bytes > y.bytes || (x.bytes == y.bytes && LexLe(x.bundleID, y.bundleID))))
  }

  function Ranked(apps: seq<App>): seq<App> {
    StableSort(ByBytes(Signed()), apps)
  }

  /** Everything before the fallback. */
  function Specific(i: Inputs): seq<Recommendation> {
    Crash(i.crashlogBytes) + Scan(Ranked(i.apps), i.probes, 0, 0)
  }

  ghost predicate FallsBack(i: Inputs) {
    && i.totalBytes > 0 && ClassifyLabel(i.freeBytes, i.totalBytes) == LabelLow
    && (forall a :: a in Ranked(i.apps) ==> !Large(a))
    && (forall r :: r in Specific(i) ==> !PerApp(r))
  }

  ghost function Built(i: Inputs): seq<Recommendation> {
    Specific(i) + if FallsBack(i) then [Generic()] else []
  }

  ghost function Plan(i: Inputs): seq<Recommendation> {
    StableSort(ByUrgency(), Built(i))
  }

  // ---- Build --------------------------------------------------------------

  method HasLargeApp(sortedDesc: seq<App>) returns (r: bool)
    ensures r <==> exists a :: a in sortedDesc && !AppleSystem(a.bundleID) && Usage(a) >= 1024 * 1024 * 1024
  {
    var i := 0;
    while i < |sortedDesc|
      invariant 0 <= i <= |sortedDesc|
      invariant forall k :: 0 <= k < i ==> !Large(sortedDesc[k])
    {
      var a := sortedDesc[i];
      i := i + 1;
      if AppleSystem(a.bundleID) {
        continue;
      }
      if Usage(a) >= LARGE_APP {
        assert Large(a);
        return true;
      }
    }
    return false;
  }

  method HasPerAppRec(recs: seq<Recommendation>) returns (r: bool)
    ensures r <==> exists x :: x in recs && x.action in {OffloadApp, CleanAppSandbox, UninstallApp}
  {
    var i := 0;
    while i < |recs|
      invariant 0 <= i <= |recs|
      invariant forall k :: 0 <= k < i ==> !PerApp(recs[k])
    {
      if recs[i].action == OffloadApp || recs[i].action == CleanAppSandbox || recs[i].action == UninstallApp {
        assert PerApp(recs[i]);
        return true;
      }
      i := i + 1;
    }
    return false;
  }

  method RecommendApps(sorted: seq<App>, probes: seq<ProbeResult>, start: seq<Recommendation>)
      returns (recs: seq<Recommendation>)
    ensures recs == start + Scan(sorted, probes, 0, 0)
  {
    recs := start;
    var offloadCount: nat := 0;
    var sandboxCount: nat := 0;
    var i := 0;
    while i < |sorted|
      invariant 0 <= i <= |sorted|
      invariant recs + Scan(sorted[i..], probes, sandboxCount, offloadCount) == start + Scan(sorted, probes, 0, 0)
    {
      var a := sorted[i];
      ghost var rest := sorted[i + 1..];
      DropStep(sorted, i);
      i := i + 1;
      if AppleSystem(a.bundleID) {
        continue;
      }
      var bytes := SignedUsage(a);
      if bytes < PER_APP {
        continue;
      }
      var vended := IsVendedInResults(probes, a.bundleID);
      ghost var before := recs;
      if vended {
        if sandboxCount >= TOP_APPS {
          continue;
        }
        sandboxCount := sandboxCount + 1;
        recs := recs + [Recommendation(PriorityForAppBytes(bytes), CleanAppSandbox, a.bundleID, a.name, bytes, ViaAppsClean)];
        Assoc(before, [AppRec(a, true)], Scan(rest, probes, sandboxCount, offloadCount));
        continue;
      }
      if offloadCount >= TOP_APPS {
        continue;
      }
      offloadCount := offloadCount + 1;
      recs := recs + [Recommendation(PriorityForAppBytes(bytes), OffloadApp, a.bundleID, a.name, bytes, ViaOpenAppStorageSettings)];
      Assoc(before, [AppRec(a, false)], Scan(rest, probes, sandboxCount, offloadCount));
    }
  }

  method Build(i: Inputs) returns (p: Payload)
    ensures p.recs == Plan(i)
    ensures p.storageLabel == LabelLow <==> i.totalBytes == 0 || 10 * i.freeBytes < i.totalBytes
    ensures p.storageLabel == LabelHigh <==> i.totalBytes > 0 && 4 * i.freeBytes >= i.totalBytes
    ensures p == Payload(i.udid, i.deviceName, i.freeBytes, i.totalBytes, p.storageLabel, p.recs)
  {
    var storageLabel := ClassifyLabel(i.freeBytes, i.totalBytes);
    var sorted := StableSort(ByBytes(Signed()), i.apps);
    var recs: seq<Recommendation> := [];
    if i.crashlogBytes >= CRASHLOG {
      recs := recs + [Recommendation(High, CleanCrashlogs, "", "", i.crashlogBytes, ViaCrashlogsClean)];
    }
    assert recs == Crash(i.crashlogBytes);
    recs := RecommendApps(sorted, i.probes, recs);
    assert recs == Specific(i);
    var hasPerAppRec := HasPerAppRec(recs);
    var large := HasLargeApp(sorted);
    assert large <==> exists a :: a in sorted && Large(a);
    assert hasPerAppRec <==> exists r :: r in recs && PerApp(r);
    if i.totalBytes > 0 && storageLabel == LabelLow && !large && !hasPerAppRec {
      recs := recs + [Recommendation(Medium, GenericReview, "", "", 0, ViaNone)];
    }
    assert recs == Built(i);
    recs := StableSort(ByUrgency(), recs);
    p := Payload(i.udid, i.deviceName, i.freeBytes, i.totalBytes, storageLabel, recs);
  }
}
