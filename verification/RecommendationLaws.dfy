/** What the planner's answer means: top five, order independence, the fallback, the final order. */
module RecommendationLaws {
  import opened Common
  import opened Ordering
  import opened Probes
  import opened Apps
  import opened Recommendations
  import opened Strings

  function Doing(action: Action): Recommendation -> bool {
    (r: Recommendation) => r.action == action
  }

  // ---- The per-app loop takes the first five of each category --------------

  lemma FirstOfCons(a: App, s: seq<App>, n: nat)
    requires n > 0
    ensures First([a] + s, n) == [a] + First(s, n - 1)
  {
  }

  lemma AppRecsOfCons(a: App, s: seq<App>, vended: bool)
    ensures AppRecs([a] + s, vended) == [AppRec(a, vended)] + AppRecs(s, vended)
  {
    assert ([a] + s)[1..] == s;
  }

  lemma FilterCons(keep: Recommendation -> bool, r: Recommendation, s: seq<Recommendation>)
    ensures Filter(keep, [r] + s) == if keep(r) then [r] + Filter(keep, s) else Filter(keep, s)
  {
    assert ([r] + s)[1..] == s;
  }

  /** An app that is recommended puts its recommendation first in its own category, and only there. */
  lemma EmittedFirst(a: App, s: seq<App>, probes: seq<ProbeResult>, recs: seq<Recommendation>, vended: bool, room: nat)
    requires Eligible(a) && s != [] && s[0] == a
    requires var v := VendedIn(probes, a.bundleID);
      v == vended ==> room > 0
    requires var v := VendedIn(probes, a.bundleID);
      Filter(Doing(ActionFor(vended)), recs)
      == AppRecs(First(Filter(Wanted(probes, vended), s[1..]), if v == vended then room - 1 else room), vended)
    ensures Filter(Doing(ActionFor(vended)), [AppRec(a, VendedIn(probes, a.bundleID))] + recs)
         == AppRecs(First(Filter(Wanted(probes, vended), s), room), vended)
  {
    var v := VendedIn(probes, a.bundleID);
    var rest := Filter(Wanted(probes, vended), s[1..]);
    FilterCons(Doing(ActionFor(vended)), AppRec(a, v), recs);
    if v == vended {
      FirstOfCons(a, rest, room);
      AppRecsOfCons(a, First(rest, room - 1), vended);
    }
  }

  lemma {:induction false} ScanTopN(s: seq<App>, probes: seq<ProbeResult>, sandbox: nat, offload: nat, vended: bool)
    requires sandbox <= TOP_APPS && offload <= TOP_APPS
    ensures Filter(Doing(ActionFor(vended)), Scan(s, probes, sandbox, offload))
         == AppRecs(First(Filter(Wanted(probes, vended), s), TOP_APPS - if vended then sandbox else offload), vended)
  {
    if s != [] {
      var a := s[0];
      var room := TOP_APPS - if vended then sandbox else offload;
      var v := VendedIn(probes, a.bundleID);
      if !Eligible(a) || (if v then sandbox else offload) >= TOP_APPS {
        ScanTopN(s[1..], probes, sandbox, offload, vended);
      } else {
        var sandbox', offload' := if v then sandbox + 1 else sandbox, if v then offload else offload + 1;
        ScanTopN(s[1..], probes, sandbox', offload', vended);
        EmittedFirst(a, s, probes, Scan(s[1..], probes, sandbox', offload'), vended, room);
      }
    }
  }

  // ---- The order of the answer ---------------------------------------------

  lemma ByUrgencyIsPreorder()
    ensures TotalPreorder(ByUrgency())
  {
    var le := ByUrgency();
    forall x: Recommendation, y: Recommendation
      ensures le(x, y) || le(y, x)
    {
      LexTotal(x.bundleID, y.bundleID);
    }
    forall x, y, z | le(x, y) && le(y, z)
      ensures le(x, z)
    {
      if x.bytes == y.bytes == z.bytes && x.priority == y.priority == z.priority {
        LexTransitive(x.bundleID, y.bundleID, z.bundleID);
      }
    }
  }

  /** Priority never falls when bytes grow, so app recommendations inherit the order of their apps. */
  lemma AppOrderIsRecOrder(x: App, y: App, vended: bool)
    requires ByBytes(Signed())(x, y)
    ensures ByUrgency()(AppRec(x, vended), AppRec(y, vended))
  {
  }

  lemma {:induction false} AppRecsAt(s: seq<App>, vended: bool, k: nat)
    requires k < |s|
    ensures |AppRecs(s, vended)| == |s| && AppRecs(s, vended)[k] == AppRec(s[k], vended)
  {
    if k > 0 {
      AppRecsAt(s[1..], vended, k - 1);
    } else if |s| > 1 {
      AppRecsAt(s[1..], vended, 0);
    }
  }

  lemma AppRecsSorted(s: seq<App>, vended: bool)
    requires Sorted(ByBytes(Signed()), s)
    ensures Sorted(ByUrgency(), AppRecs(s, vended))
  {
    var recs := AppRecs(s, vended);
    if s != [] {
      AppRecsAt(s, vended, 0);
    }
    forall i, j | 0 <= i < j < |recs|
      ensures ByUrgency()(recs[i], recs[j])
    {
      AppRecsAt(s, vended, i);
      AppRecsAt(s, vended, j);
      AppOrderIsRecOrder(s[i], s[j], vended);
    }
  }

  /** The answer is a sorted permutation of what was built. */
  lemma PlanIsSorted(i: Inputs)
    ensures SortedPermutation(ByUrgency(), Built(i), Plan(i))
  {
    ByUrgencyIsPreorder();
    SortIsPermutation(ByUrgency(), Built(i));
  }

  lemma FilterBuilt(i: Inputs, vended: bool)
    ensures Filter(Doing(ActionFor(vended)), Built(i))
         == Filter(Doing(ActionFor(vended)), Scan(Ranked(i.apps), i.probes, 0, 0))
  {
    var keep := Doing(ActionFor(vended));
    var last := if FallsBack(i) then [Generic()] else [];
    FilterSum(keep, Specific(i), last);
    FilterSum(keep, Crash(i.crashlogBytes), Scan(Ranked(i.apps), i.probes, 0, 0));
    FilterNone(keep, last);
    FilterNone(keep, Crash(i.crashlogBytes));
  }

  /** In the answer, each category is its five largest eligible apps, largest first. */
  lemma CategoryIsTopFive(i: Inputs, vended: bool)
    ensures Filter(Doing(ActionFor(vended)), Plan(i))
         == AppRecs(First(Filter(Wanted(i.probes, vended), Ranked(i.apps)), TOP_APPS), vended)
  {
    var keep := Doing(ActionFor(vended));
    var kept := Filter(Wanted(i.probes, vended), Ranked(i.apps));
    FilterBuilt(i, vended);
    ScanTopN(Ranked(i.apps), i.probes, 0, 0, vended);
    ByUrgencyIsPreorder();
    FilterStableSort(ByUrgency(), keep, Built(i));
    ByBytesIsPreorder(Signed());
    SortSorted(ByBytes(Signed()), i.apps);
    FilterSorted(ByBytes(Signed()), Wanted(i.probes, vended), Ranked(i.apps));
    AppRecsSorted(First(kept, TOP_APPS), vended);
    SortOfSorted(ByUrgency(), AppRecs(First(kept, TOP_APPS), vended));
  }

  lemma FilterPlan(i: Inputs, keep: Recommendation -> bool)
    requires forall r :: r in Scan(Ranked(i.apps), i.probes, 0, 0) ==> !keep(r)
    ensures Filter(keep, Plan(i))
         == StableSort(ByUrgency(), Filter(keep, Crash(i.crashlogBytes)) + Filter(keep, if FallsBack(i) then [Generic()] else []))
  {
    var scan := Scan(Ranked(i.apps), i.probes, 0, 0);
    ByUrgencyIsPreorder();
    FilterStableSort(ByUrgency(), keep, Built(i));
    FilterSum(keep, Specific(i), if FallsBack(i) then [Generic()] else []);
    FilterSum(keep, Crash(i.crashlogBytes), scan);
    FilterNone(keep, scan);
    EmptySum(Filter(keep, Crash(i.crashlogBytes)));
  }

  lemma FilterAll(keep: Recommendation -> bool, s: seq<Recommendation>)
    requires |s| <= 1 && forall r :: r in s ==> keep(r)
    ensures Filter(keep, s) == s && Sorted(ByUrgency(), s)
  {
  }

  /** The crash-log row is there exactly from 5 MiB on. */
  lemma CrashCategory(i: Inputs)
    ensures Filter(Doing(CleanCrashlogs), Plan(i)) == Crash(i.crashlogBytes)
  {
    var keep, crash := Doing(CleanCrashlogs), Crash(i.crashlogBytes);
    var last := if FallsBack(i) then [Generic()] else [];
    ScanShape(Ranked(i.apps), i.probes, 0, 0);
    FilterPlan(i, keep);
    FilterAll(keep, crash);
    FilterNone(keep, last);
    EmptySum(crash);
    SortOfSorted(ByUrgency(), crash);
  }

  lemma GenericCategory(i: Inputs)
    ensures Filter(Doing(GenericReview), Plan(i)) == if FallsBack(i) then [Generic()] else []
  {
    var keep, crash := Doing(GenericReview), Crash(i.crashlogBytes);
    var last := if FallsBack(i) then [Generic()] else [];
    ScanShape(Ranked(i.apps), i.probes, 0, 0);
    FilterPlan(i, keep);
    FilterAll(keep, last);
    FilterNone(keep, crash);
    EmptySum(last);
    SortOfSorted(ByUrgency(), last);
  }

  lemma UninstallCategory(i: Inputs)
    ensures Filter(Doing(UninstallApp), Plan(i)) == []
  {
    var keep := Doing(UninstallApp);
    ScanShape(Ranked(i.apps), i.probes, 0, 0);
    FilterPlan(i, keep);
    FilterNone(keep, Crash(i.crashlogBytes));
    FilterNone(keep, if FallsBack(i) then [Generic()] else []);
  }

  lemma {:induction false} AppRecsMember(s: seq<App>, vended: bool, r: Recommendation)
    ensures r in AppRecs(s, vended) <==> exists a :: a in s && AppRec(a, vended) == r
  {
    if s != [] {
      AppRecsMember(s[1..], vended, r);
      assert s == [s[0]] + s[1..];
    }
  }

  /** An app is recommended exactly when it is eligible and fewer than five eligible apps of its kind precede it. */
  lemma RecommendedIff(i: Inputs, a: App, vended: bool)
    requires DistinctIDs(i.apps) && a in i.apps
    ensures AppRec(a, vended) in Plan(i) <==>
      && Wanted(i.probes, vended)(a)
      && |Filter(Before(ByBytes(Signed()), a), Filter(Wanted(i.probes, vended), i.apps))| < TOP_APPS
  {
    var top := First(Filter(Wanted(i.probes, vended), Ranked(i.apps)), TOP_APPS);
    CategoryIsTopFive(i, vended);
    FilterMember(Doing(ActionFor(vended)), Plan(i), AppRec(a, vended));
    AppRecsMember(top, vended, AppRec(a, vended));
    TopIff(Signed(), Wanted(i.probes, vended), i.apps, TOP_APPS, a);
    forall b | b in top && AppRec(b, vended) == AppRec(a, vended)
      ensures b == a
    {
      TopIff(Signed(), Wanted(i.probes, vended), i.apps, TOP_APPS, b);
    }
  }

  // ---- Independence of input order ----------------------------------------

  lemma {:induction false} ScanSame(s: seq<App>, p: seq<ProbeResult>, q: seq<ProbeResult>, sandbox: nat, offload: nat)
    requires forall k :: 0 <= k < |s| ==> (VendedIn(p, s[k].bundleID) <==> VendedIn(q, s[k].bundleID))
    ensures Scan(s, p, sandbox, offload) == Scan(s, q, sandbox, offload)
  {
    if s != [] {
      assert VendedIn(p, s[0].bundleID) <==> VendedIn(q, s[0].bundleID);
      ScanSame(s[1..], p, q, sandbox, offload);
      ScanSame(s[1..], p, q, sandbox + 1, offload);
      ScanSame(s[1..], p, q, sandbox, offload + 1);
    }
  }

  /** Permuting the apps or the probe results leaves the recommendations as they are. */
  lemma OrderIndependent(i: Inputs, apps: seq<App>, probes: seq<ProbeResult>)
    requires multiset(apps) == multiset(i.apps) && multiset(probes) == multiset(i.probes)
    requires DistinctIDs(i.apps) && forall a :: a in i.apps ==> StampTiesAgree(UnixNano(), i.probes, a.bundleID)
    ensures Plan(i.(apps := apps, probes := probes)) == Plan(i)
  {
    ByBytesIsPreorder(Signed());
    SortIsPermutation(ByBytes(Signed()), apps);
    SortIsDeterminate(Signed(), i.apps, apps, Ranked(apps));
    var s := Ranked(i.apps);
    SortMembers(ByBytes(Signed()), i.apps);
    SameMembers(s, i.apps);
    forall k | 0 <= k < |s|
      ensures VendedIn(i.probes, s[k].bundleID) <==> VendedIn(probes, s[k].bundleID)
    {
      assert s[k] in i.apps;
      VendedIsOrderFree(UnixNano(), i.probes, probes, s[k].bundleID);
    }
    ScanSame(s, i.probes, probes, 0, 0);
  }

  // ---- The fallback and the size of the answer -----------------------------

  lemma {:induction false} ScanShape(s: seq<App>, probes: seq<ProbeResult>, sandbox: nat, offload: nat)
    requires sandbox <= TOP_APPS && offload <= TOP_APPS
    ensures |Scan(s, probes, sandbox, offload)| <= 2 * TOP_APPS - sandbox - offload
    ensures forall r :: r in Scan(s, probes, sandbox, offload) ==>
      (r.action == OffloadApp || r.action == CleanAppSandbox) && r.priority == PriorityForAppBytes(r.bytes)
  {
    if s != [] {
      ScanShape(s[1..], probes, sandbox, offload);
      if sandbox < TOP_APPS {
        ScanShape(s[1..], probes, sandbox + 1, offload);
      }
      if offload < TOP_APPS {
        ScanShape(s[1..], probes, sandbox, offload + 1);
      }
    }
  }

  /** The loop recommends something exactly when some app is eligible. */
  lemma {:induction false} ScanEmptyIff(s: seq<App>, probes: seq<ProbeResult>)
    ensures Scan(s, probes, 0, 0) == [] <==> forall a :: a in s ==> !Eligible(a)
  {
    if s != [] {
      assert s == [s[0]] + s[1..];
      ScanEmptyIff(s[1..], probes);
    }
  }

  /** 50 MiB by the unsigned sum: the app is eligible, or so large that its signed size is negative. */
  lemma BigIsEligibleOrLarge(a: App)
    requires !AppleSystem(a.bundleID)
    ensures Usage(a) >= PER_APP <==> Eligible(a) || Large(a)
  {
    if Usage(a) >= TWO_63 {
      assert WrapI64(Usage(a) - TWO_64) == Usage(a) - TWO_64;
    }
  }

  /** A large app below 2^63 bytes means that some app was recommended, so the large-app test adds nothing there. */
  lemma LargeMeansPerApp(i: Inputs, a: App)
    requires a in i.apps && Large(a) && Usage(a) < TWO_63
    ensures exists r :: r in Specific(i) && PerApp(r)
  {
    var s := Ranked(i.apps);
    var scan := Scan(s, i.probes, 0, 0);
    assert SignedUsage(a) == Usage(a);
    SortMembers(ByBytes(Signed()), i.apps);
    SameMembers(s, i.apps);
    ScanEmptyIff(s, i.probes);
    ScanShape(s, i.probes, 0, 0);
    assert scan[0] in Specific(i);
  }

  lemma FallsBackIff(i: Inputs)
    ensures FallsBack(i) <==>
      && i.totalBytes > 0 && ClassifyLabel(i.freeBytes, i.totalBytes) == LabelLow
      && forall a :: a in i.apps && !AppleSystem(a.bundleID) ==> Usage(a) < PER_APP
  {
    var s := Ranked(i.apps);
    var scan := Scan(s, i.probes, 0, 0);
    SortMembers(ByBytes(Signed()), i.apps);
    SameMembers(s, i.apps);
    ScanEmptyIff(s, i.probes);
    ScanShape(s, i.probes, 0, 0);
    assert (forall r :: r in Specific(i) ==> !PerApp(r)) <==> scan == [] by {
      assert scan != [] ==> scan[0] in Specific(i);
    }
    forall a | a in i.apps && !AppleSystem(a.bundleID)
      ensures Usage(a) >= PER_APP <==> Eligible(a) || Large(a)
    {
      BigIsEligibleOrLarge(a);
    }
  }

  /** The generic review is emitted exactly when free space is low and no third-party app reaches 50 MiB. */
  lemma FallbackIff(i: Inputs)
    ensures Recommendation(Medium, GenericReview, "", "", 0, ViaNone) in Plan(i) <==>
      && 0 < i.totalBytes && 10 * i.freeBytes < i.totalBytes
      && forall a :: a in i.apps && !AppleSystem(a.bundleID) ==> Usage(a) < 50 * 1024 * 1024
  {
    PlanIsSorted(i);
    assert Generic() in Plan(i) <==> Generic() in Built(i) by {
      assert Generic() in Plan(i) <==> Generic() in multiset(Plan(i));
      assert Generic() in Built(i) <==> Generic() in multiset(Built(i));
    }
    ScanShape(Ranked(i.apps), i.probes, 0, 0);
    FallsBackIff(i);
  }

  lemma AtMostEleven(i: Inputs)
    ensures |Plan(i)| <= 11
  {
    PlanIsSorted(i);
    assert |Plan(i)| == |multiset(Plan(i))| == |multiset(Built(i))| == |Built(i)|;
    var scan := Scan(Ranked(i.apps), i.probes, 0, 0);
    ScanShape(Ranked(i.apps), i.probes, 0, 0);
    if scan != [] {
      assert scan[0] in Specific(i) && PerApp(scan[0]);
    }
  }

  lemma PlanPriority(i: Inputs, r: Recommendation)
    requires r in Plan(i) && PerApp(r)
    ensures r.priority == PriorityForAppBytes(r.bytes)
  {
    PlanIsSorted(i);
    assert r in multiset(Plan(i));
    assert r in Built(i);
    ScanShape(Ranked(i.apps), i.probes, 0, 0);
  }

  lemma UrgentIsBigger(x: Recommendation, y: Recommendation)
    requires x.priority == PriorityForAppBytes(x.bytes) && y.priority == PriorityForAppBytes(y.bytes)
    requires ByUrgency()(x, y)
    ensures x.bytes >= y.bytes
  {
  }

  /** Whatever their category, app recommendations come out in descending bytes. */
  lemma AppRecsDescend(i: Inputs, j: nat, k: nat)
    requires j < k < |Plan(i)| && PerApp(Plan(i)[j]) && PerApp(Plan(i)[k])
    ensures Plan(i)[j].bytes >= Plan(i)[k].bytes
  {
    var plan := Plan(i);
    PlanPriority(i, plan[j]);
    PlanPriority(i, plan[k]);
    PlanIsSorted(i);
    UrgentIsBigger(plan[j], plan[k]);
  }

  // ---- What each row says --------------------------------------------------

  lemma {:induction false} ScanRow(s: seq<App>, probes: seq<ProbeResult>, sandbox: nat, offload: nat, r: Recommendation)
      returns (a: App)
    requires r in Scan(s, probes, sandbox, offload)
    ensures a in s && Eligible(a) && r == AppRec(a, VendedIn(probes, a.bundleID))
  {
    var rest := s[1..];
    assert s == [s[0]] + rest;
    if Eligible(s[0]) && r == AppRec(s[0], VendedIn(probes, s[0].bundleID)) {
      a := s[0];
    } else if r in Scan(rest, probes, sandbox, offload) {
      a := ScanRow(rest, probes, sandbox, offload, r);
    } else if VendedIn(probes, s[0].bundleID) {
      a := ScanRow(rest, probes, sandbox + 1, offload, r);
    } else {
      a := ScanRow(rest, probes, sandbox, offload + 1, r);
    }
  }

  /** r is about a third-party app of at least 50 MiB, with its name and size. */
  ghost predicate AboutApp(i: Inputs, r: Recommendation) {
    exists a :: a in i.apps && r.bundleID == a.bundleID && r.appName == a.name && r.bytes == SignedUsage(a)
      && !AppleSystem(a.bundleID) && r.bytes >= 50 * 1024 * 1024
  }

  /** High from 2 GiB on, medium from 500 MiB on, otherwise low. */
  predicate PriorityFits(r: Recommendation) {
    && (r.priority == High <==> r.bytes >= 2 * 1024 * 1024 * 1024)
    && (r.priority == Low <==> r.bytes < 500 * 1024 * 1024)
  }

  /** The newest probe of the row's app, as the planner dates it, is vended. */
  ghost predicate KnownVended(i: Inputs, r: Recommendation) {
    IsVended(Newest(UnixNano(), i.probes, r.bundleID))
  }

  lemma InBuilt(i: Inputs, r: Recommendation)
    ensures r in Plan(i) <==> r in Built(i)
  {
    PlanIsSorted(i);
    SameMembers(Plan(i), Built(i));
  }

  /**
   * Each row: a sandbox clean is for a vended app through apps_clean, an offload for an app that is not
   * vended through the settings, both with the app's own size and the priority of that size; crash logs
   * are urgent, the general review is not, and no row asks for an uninstallation.
   */
  lemma RowMeaning(i: Inputs, r: Recommendation)
    requires r in Plan(i)
    ensures r.action == CleanAppSandbox ==> AboutApp(i, r) && PriorityFits(r) && KnownVended(i, r) && r.via == ViaAppsClean
    ensures r.action == OffloadApp ==>
      AboutApp(i, r) && PriorityFits(r) && !KnownVended(i, r) && r.via == ViaOpenAppStorageSettings
    ensures r.action == CleanCrashlogs ==>
      r == Recommendation(High, CleanCrashlogs, "", "", i.crashlogBytes, ViaCrashlogsClean)
    ensures r.action == GenericReview ==> r == Recommendation(Medium, GenericReview, "", "", 0, ViaNone)
    ensures r.action != UninstallApp
  {
    InBuilt(i, r);
    if r in Scan(Ranked(i.apps), i.probes, 0, 0) {
      var a := ScanRow(Ranked(i.apps), i.probes, 0, 0, r);
      SortMembers(ByBytes(Signed()), i.apps);
      SameMembers(Ranked(i.apps), i.apps);
      assert a in i.apps;
    }
  }

  /** Besides the apps: one crash-log row exactly from 5 MiB on, one fallback row, and no uninstallation. */
  lemma OtherCategories(i: Inputs)
    ensures Filter(Doing(CleanCrashlogs), Plan(i))
         == if i.crashlogBytes >= 5 * 1024 * 1024
            then [Recommendation(High, CleanCrashlogs, "", "", i.crashlogBytes, ViaCrashlogsClean)] else []
    ensures Filter(Doing(GenericReview), Plan(i))
         == if FallsBack(i) then [Recommendation(Medium, GenericReview, "", "", 0, ViaNone)] else []
    ensures Filter(Doing(UninstallApp), Plan(i)) == []
  {
    CrashCategory(i);
    GenericCategory(i);
    UninstallCategory(i);
  }

  /** x may stand before y: higher priority first, then more bytes, then the smaller bundle ID. */
  predicate MayPrecede(x: Recommendation, y: Recommendation) {
    && (y.priority == High ==> x.priority == High)
    && (x.priority == Low ==> y.priority == Low)
    && (x.priority == y.priority ==> x.bytes > y.bytes || (x.bytes == y.bytes && LexLe(x.bundleID, y.bundleID)))
  }

  lemma PlanOrder(i: Inputs, j: nat, k: nat)
    requires j < k < |Plan(i)|
    ensures MayPrecede(Plan(i)[j], Plan(i)[k])
  {
    PlanIsSorted(i);
    UrgencyIs(Plan(i)[j], Plan(i)[k]);
  }

  lemma UrgencyIs(x: Recommendation, y: Recommendation)
    ensures ByUrgency()(x, y) <==> MayPrecede(x, y)
  {
  }

  /** The eligible apps whose newest probe is vended, or those whose newest probe is not. */
  function OfKind(probes: seq<ProbeResult>, vended: bool): App -> bool {
    (a: App) =>
      !AppleSystem(a.bundleID) && SignedUsage(a) >= 50 * 1024 * 1024
      && IsVended(Newest(UnixNano(), probes, a.bundleID)) == vended
  }

  lemma {:induction false} KindIsWanted(probes: seq<ProbeResult>, vended: bool, s: seq<App>)
    ensures Filter(OfKind(probes, vended), s) == Filter(Wanted(probes, vended), s)
  {
    if s != [] {
      KindIsWanted(probes, vended, s[1..]);
    }
  }

  /**
   * Exactly which apps get which action: third-party apps of at least 50 MiB with fewer than five of
   * their kind before them, a sandbox clean when the newest probe is vended and an offload otherwise.
   */
  lemma ActionIff(i: Inputs, a: App, vended: bool)
    requires DistinctIDs(i.apps) && a in i.apps
    ensures (exists r :: r in Plan(i) && r.bundleID == a.bundleID && r.action == if vended then CleanAppSandbox else OffloadApp)
       <==> OfKind(i.probes, vended)(a)
            && |Filter(Before(ByBytes(Signed()), a), Filter(OfKind(i.probes, vended), i.apps))| < 5
  {
    KindIsWanted(i.probes, vended, i.apps);
    RecommendedIff(i, a, vended);
    if r :| r in Plan(i) && r.bundleID == a.bundleID && r.action == ActionFor(vended) {
      InBuilt(i, r);
      var b := ScanRow(Ranked(i.apps), i.probes, 0, 0, r);
      SortMembers(ByBytes(Signed()), i.apps);
      SameMembers(Ranked(i.apps), i.apps);
      assert b in i.apps && b == a;
    }
  }
}
