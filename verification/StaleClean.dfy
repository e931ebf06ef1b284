/** A clean whose plans are older than the tree it runs on: other cleans came in between. */
module StaleClean {
  import opened Paths
  import opened SandboxFs
  import opened Cleaner
  import opened CleanerLaws
  import opened CleanRun

  // ---- The claim as files charged to removed paths -------------------------

  function ByPath(): Bucketing {
    (f: FileInfo) => f.path
  }

  /** What a planned file is charged to: the listed child above it, or itself. */
  function ChargedTo(plan: CleanPlan): Bucketing {
    if plan.target == TARGET_DOCUMENTS then ByPath() else ByTopLevelChild(plan.target.root)
  }

  function RemovedPaths(trace: Trace): set<string> {
    Succeeded(Tries(trace))
  }

  lemma {:induction false} TallyInSame(kid: Bucketing, files: seq<FileInfo>, kids: set<string>, kids': set<string>)
    requires forall i :: 0 <= i < |files| ==> (kid(files[i]) in kids <==> kid(files[i]) in kids')
    ensures TallyIn(kid, files, kids) == TallyIn(kid, files, kids')
  {
    if files != [] {
      TallyInSame(kid, files[..|files| - 1], kids, kids');
    }
  }

  lemma {:induction false} CreditFilesIsTally(files: seq<FileInfo>, tries: seq<Attempt>)
    requires |tries| == |files|
    requires forall i :: 0 <= i < |tries| ==> tries[i].path == files[i].path
    requires forall i, j :: 0 <= i < j < |files| ==> files[i].path != files[j].path
    ensures CreditFiles(files, tries) == TallyIn(ByPath(), files, Succeeded(tries))
  {
    if files != [] {
      var n := |files| - 1;
      CreditFilesIsTally(files[..n], tries[..n]);
      SucceededStep(tries);
      TallyInSame(ByPath(), files[..n], Succeeded(tries[..n]), Succeeded(tries));
      LastSucceeded(files, tries);
    }
  }

  lemma LastSucceeded(files: seq<FileInfo>, tries: seq<Attempt>)
    requires 0 < |tries| == |files|
    requires forall i :: 0 <= i < |tries| ==> tries[i].path == files[i].path
    requires forall i, j :: 0 <= i < j < |files| ==> files[i].path != files[j].path
    ensures var n := |files| - 1; files[n].path in Succeeded(tries) <==> tries[n].reply.Removed?
  {
    var n := |files| - 1;
    assert tries[n].path == files[n].path;
  }

  /** The claim counts exactly the planned files charged to a removed path. */
  lemma CreditIsTally(t0: Tree, t: Tree, plan: CleanPlan, trace: Trace)
    requires PlanFor(t0, plan) && GoodTrace(t, plan, trace)
    ensures Credit(plan, trace) == TallyIn(ChargedTo(plan), plan.files, RemovedPaths(trace))
  {
    match trace {
      case ListFailed(_) =>
        assert RemovedPaths(trace) == {};
        TallyInNone(ChargedTo(plan), plan.files);
      case Children(_, tries) =>
        GoodTraceCreditsOnce(t, plan, trace);
        CreditExact(ByTopLevelChild(plan.target.root), plan.files, tries);
      case PerFile(tries) =>
        CreditFilesIsTally(plan.files, tries);
    }
  }

  /** Files charged to a removed path are gone afterwards. */
  lemma ChargedIsGone(t0: Tree, t: Tree, plan: CleanPlan, trace: Trace, f: FileInfo)
    requires PlanFor(t0, plan) && GoodTrace(t, plan, trace)
    requires f in plan.files && ChargedTo(plan)(f) in RemovedPaths(trace)
    ensures f.path !in RunTries(t, Tries(trace))
  {
    var tries := Tries(trace);
    var i :| 0 <= i < |tries| && tries[i].reply.Removed? && tries[i].path == ChargedTo(plan)(f);
    if trace.Children? {
      TopLevelChildIsContainer(plan.target.root, ChildPath(plan.target.root, trace.entries[i]), f.path);
    }
    RunDeletes(t, tries, i, f.path);
  }

  // ---- The balance ---------------------------------------------------------

  /** Claimed files that were already missing before the run. */
  function Missing(kid: Bucketing, files: seq<FileInfo>, kids: set<string>, t: Tree): Totals {
    if files == [] then Zero()
    else
      var f := files[|files| - 1];
      var rest := Missing(kid, files[..|files| - 1], kids, t);
      if kid(f) in kids && f.path !in t then Add(rest, One(f)) else rest
  }

  /** Unclaimed files that the run deleted: parts of removals that failed. */
  function Collateral(kid: Bucketing, files: seq<FileInfo>, kids: set<string>, t: Tree, after: Tree): Totals {
    if files == [] then Zero()
    else
      var f := files[|files| - 1];
      var rest := Collateral(kid, files[..|files| - 1], kids, t, after);
      if kid(f) !in kids && f.path in t && f.path !in after then Add(rest, One(f)) else rest
  }

  lemma {:induction false} Balance(kid: Bucketing, files: seq<FileInfo>, kids: set<string>, t: Tree, after: Tree)
    requires forall i :: 0 <= i < |files| ==>
      && (kid(files[i]) in kids ==> files[i].path !in after) && (files[i].path in after ==> files[i].path in t)
    ensures var credit, gone, was := TallyIn(kid, files, kids), TallyGone(files, after), TallyGone(files, t);
      var missing, collateral := Missing(kid, files, kids, t), Collateral(kid, files, kids, t, after);
      && credit.count + collateral.count + was.count == gone.count + missing.count
      && credit.bytes + collateral.bytes + was.bytes == gone.bytes + missing.bytes
  {
    if files != [] {
      Balance(kid, files[..|files| - 1], kids, t, after);
    }
  }

  /** The files of t, and those of the plan that t has lost since t0. */
  ghost function WithPlanned(t0: Tree, t: Tree, root: string): map<string, Size> {
    map p | p in t0 && t0[p].File? && (p in t || Within(root, p)) :: t0[p].size
  }

  lemma FilesLostTo(t0: Tree, t: Tree, u: Tree, plan: CleanPlan)
    requires PlanFor(t0, plan) && Submap(u, t) && Submap(t, t0)
    requires forall p :: p in t && !Within(plan.target.root, p) ==> p in u
    ensures FilesOf(u) == WithPlanned(t0, t, plan.target.root) - GonePaths(plan.files, u)
  {
    var m := WithPlanned(t0, t, plan.target.root);
    forall p | p in m && p !in u
      ensures p in GonePaths(plan.files, u)
    {
      var i :| 0 <= i < |plan.files| && plan.files[i].path == p;
    }
  }

  /** The drop of a stale run: the planned files gone afterwards, less those already gone. */
  lemma StaleDrop(t0: Tree, t: Tree, plan: CleanPlan, trace: Trace)
    requires PlanFor(t0, plan) && Submap(t, t0) && GoodTrace(t, plan, trace)
    ensures var after := RunTries(t, Tries(trace));
      var before, left, was, gone := Measure(FilesOf(t)), Measure(FilesOf(after)), TallyGone(plan.files, t), TallyGone(plan.files, after);
      before.count + was.count == left.count + gone.count && before.bytes + was.bytes == left.bytes + gone.bytes
  {
    var after := RunTries(t, Tries(trace));
    var m := WithPlanned(t0, t, plan.target.root);
    RunShrinks(t, Tries(trace));
    forall p | p in t && !Within(plan.target.root, p)
      ensures p in after
    {
      Frame(t, plan, trace, p);
    }
    FilesLostTo(t0, t, t, plan);
    FilesLostTo(t0, t, after, plan);
    assert Lists(m, plan.files);
    MeasureGone(m, plan.files, t);
    MeasureGone(m, plan.files, after);
  }

  /**
   * The exact account of one target whatever its plan's age: what was there plus what is claimed
   * but was missing is what is left plus the claim plus what failed removals deleted.
   */
  lemma StaleAccount(t0: Tree, t: Tree, plan: CleanPlan, trace: Trace)
    requires PlanFor(t0, plan) && Submap(t, t0) && GoodTrace(t, plan, trace)
    ensures Answers(plan, trace)
    ensures var after := RunTries(t, Tries(trace));
      Accounts(Measure(FilesOf(t)), MissingOf(t, plan, trace), Measure(FilesOf(after)), Credit(plan, trace), CollateralOf(t, plan, trace))
  {
    var after, kids := RunTries(t, Tries(trace)), RemovedPaths(trace);
    GoodTraceCreditsOnce(t, plan, trace);
    RunShrinks(t, Tries(trace));
    StaleDrop(t0, t, plan, trace);
    CreditIsTally(t0, t, plan, trace);
    forall i | 0 <= i < |plan.files| && ChargedTo(plan)(plan.files[i]) in kids
      ensures plan.files[i].path !in after
    {
      ChargedIsGone(t0, t, plan, trace, plan.files[i]);
    }
    Balance(ChargedTo(plan), plan.files, kids, t, after);
  }

  predicate Accounts(before: Totals, missing: Totals, left: Totals, claim: Totals, collateral: Totals) {
    && before.count + missing.count == left.count + claim.count + collateral.count
    && before.bytes + missing.bytes == left.bytes + claim.bytes + collateral.bytes
  }

  function MissingOf(t: Tree, plan: CleanPlan, trace: Trace): Totals {
    Missing(ChargedTo(plan), plan.files, RemovedPaths(trace), t)
  }

  function CollateralOf(t: Tree, plan: CleanPlan, trace: Trace): Totals {
    Collateral(ChargedTo(plan), plan.files, RemovedPaths(trace), t, RunTries(t, Tries(trace)))
  }

  // ---- Several targets -----------------------------------------------------

  function RunMissing(t: Tree, plans: seq<CleanPlan>, traces: seq<Trace>): Totals
    requires |plans| == |traces|
  {
    if plans == [] then Zero()
    else
      var n := |plans| - 1;
      Add(RunMissing(t, plans[..n], traces[..n]), MissingOf(RunPlans(t, plans[..n], traces[..n]), plans[n], traces[n]))
  }

  function RunCollateral(t: Tree, plans: seq<CleanPlan>, traces: seq<Trace>): Totals
    requires |plans| == |traces|
  {
    if plans == [] then Zero()
    else
      var n := |plans| - 1;
      Add(RunCollateral(t, plans[..n], traces[..n]), CollateralOf(RunPlans(t, plans[..n], traces[..n]), plans[n], traces[n]))
  }

  lemma AccountsAdd(a: Totals, m: Totals, b: Totals, c: Totals, d: Totals, m': Totals, e: Totals, c': Totals, d': Totals)
    requires Accounts(a, m, b, c, d) && Accounts(b, m', e, c', d')
    ensures Accounts(a, Add(m, m'), e, Add(c, c'), Add(d, d'))
  {
  }

  /** The same account for a whole clean: claims, misses and collateral deletions balance the drop. */
  lemma {:induction false} RunAccount(t0: Tree, t: Tree, plans: seq<CleanPlan>, traces: seq<Trace>)
    requires |plans| == |traces| && GoodRun(t, plans, traces)
    requires Submap(t, t0) && forall k :: 0 <= k < |plans| ==> PlanFor(t0, plans[k])
    ensures forall k :: 0 <= k < |plans| ==> Answers(plans[k], traces[k])
    ensures Accounts(Measure(FilesOf(t)), RunMissing(t, plans, traces), Measure(FilesOf(RunPlans(t, plans, traces))),
                     Claimed(plans, traces), RunCollateral(t, plans, traces))
  {
    GoodRunAnswers(t, plans, traces);
    if plans != [] {
      var n := |plans| - 1;
      var mid := RunPlans(t, plans[..n], traces[..n]);
      RunAccount(t0, t, plans[..n], traces[..n]);
      RunPlansShrinks(t, plans[..n], traces[..n]);
      StaleAccount(t0, mid, plans[n], traces[n]);
      AccountsAdd(Measure(FilesOf(t)), RunMissing(t, plans[..n], traces[..n]), Measure(FilesOf(mid)),
                  Claimed(plans[..n], traces[..n]), RunCollateral(t, plans[..n], traces[..n]),
                  MissingOf(mid, plans[n], traces[n]), Measure(FilesOf(RunPlans(t, plans, traces))),
                  Credit(plans[n], traces[n]), CollateralOf(mid, plans[n], traces[n]));
    }
  }

  /** The claim stays at or below the drop exactly when no more is missing than failed removals deleted. */
  lemma ClaimWithinDropIff(t0: Tree, t: Tree, plans: seq<CleanPlan>, traces: seq<Trace>)
    requires |plans| == |traces| && GoodRun(t, plans, traces)
    requires Submap(t, t0) && forall k :: 0 <= k < |plans| ==> PlanFor(t0, plans[k])
    ensures forall k :: 0 <= k < |plans| ==> Answers(plans[k], traces[k])
    ensures var before, left := Measure(FilesOf(t)), Measure(FilesOf(RunPlans(t, plans, traces)));
      var claim, missing, collateral := Claimed(plans, traces), RunMissing(t, plans, traces), RunCollateral(t, plans, traces);
      && (left.count + claim.count <= before.count <==> missing.count <= collateral.count)
      && (left.bytes + claim.bytes <= before.bytes <==> missing.bytes <= collateral.bytes)
  {
    RunAccount(t0, t, plans, traces);
  }

  /** Nothing claimed is missing exactly when every claimed planned file is still there. */
  lemma {:induction false} NothingMissingIff(kid: Bucketing, files: seq<FileInfo>, kids: set<string>, t: Tree)
    ensures Missing(kid, files, kids, t).count == 0 <==>
      forall i :: 0 <= i < |files| && kid(files[i]) in kids ==> files[i].path in t
  {
    if files != [] {
      var n := |files| - 1;
      NothingMissingIff(kid, files[..n], kids, t);
      assert forall i :: 0 <= i < n ==> files[..n][i] == files[i];
    }
  }

  lemma {:induction false} NoCollateral(kid: Bucketing, files: seq<FileInfo>, kids: set<string>, t: Tree, after: Tree)
    requires forall i :: 0 <= i < |files| && files[i].path in t && files[i].path !in after ==> kid(files[i]) in kids
    ensures Collateral(kid, files, kids, t, after) == Zero()
  {
    if files != [] {
      NoCollateral(kid, files[..|files| - 1], kids, t, after);
    }
  }

  lemma {:induction false} GoneIsCovered(t: Tree, tries: seq<Attempt>, p: string) returns (i: nat)
    requires forall k :: 0 <= k < |tries| ==> tries[k].reply.Removed?
    requires p in t && p !in RunTries(t, tries)
    ensures i < |tries| && Covers(tries[i], p)
  {
    var n := |tries| - 1;
    if p in RunTries(t, tries[..n]) {
      i := n;
    } else {
      i := GoneIsCovered(t, tries[..n], p);
    }
  }

  /** When no removal failed, whatever the run deleted of the plan is claimed. */
  lemma GoneIsCharged(t0: Tree, t: Tree, plan: CleanPlan, trace: Trace, f: FileInfo)
    requires PlanFor(t0, plan) && GoodTrace(t, plan, trace) && f in plan.files
    requires forall k :: 0 <= k < |Tries(trace)| ==> Tries(trace)[k].reply.Removed?
    requires f.path in t && f.path !in RunTries(t, Tries(trace))
    ensures ChargedTo(plan)(f) in RemovedPaths(trace)
  {
    var tries := Tries(trace);
    var i := GoneIsCovered(t, tries, f.path);
    if trace.Children? {
      TopLevelChildIsContainer(plan.target.root, ChildPath(plan.target.root, trace.entries[i]), f.path);
    }
    assert tries[i].reply.Removed? && tries[i].path == ChargedTo(plan)(f);
  }

  /**
   * When no removal failed, the claim for a target stays at or below the drop exactly when every
   * claimed planned file is still there as the run begins.
   */
  lemma StaleClaimIff(t0: Tree, t: Tree, plan: CleanPlan, trace: Trace)
    requires PlanFor(t0, plan) && Submap(t, t0) && GoodTrace(t, plan, trace)
    requires forall k :: 0 <= k < |Tries(trace)| ==> Tries(trace)[k].reply.Removed?
    ensures Answers(plan, trace)
    ensures Measure(FilesOf(RunTries(t, Tries(trace)))).count + Report(plan, trace).removed <= Measure(FilesOf(t)).count
       <==> forall i :: 0 <= i < |plan.files| && ChargedTo(plan)(plan.files[i]) in RemovedPaths(trace) ==>
              plan.files[i].path in t
  {
    var after := RunTries(t, Tries(trace));
    StaleAccount(t0, t, plan, trace);
    NothingMissingIff(ChargedTo(plan), plan.files, RemovedPaths(trace), t);
    forall i | 0 <= i < |plan.files| && plan.files[i].path in t && plan.files[i].path !in after
      ensures ChargedTo(plan)(plan.files[i]) in RemovedPaths(trace)
    {
      GoneIsCharged(t0, t, plan, trace, plan.files[i]);
    }
    NoCollateral(ChargedTo(plan), plan.files, RemovedPaths(trace), t, after);
  }

  // ---- An over-report ------------------------------------------------------

  function StalePlan(): CleanPlan {
    CleanPlan(TARGET_TMP, [FileInfo("f", "tmp/a/f", 7, false)], 7)
  }

  function TreeBefore(): Tree {
    map["tmp" := Dir, "tmp/a" := Dir, "tmp/a/f" := File(7)]
  }

  function TreeEmptied(): Tree {
    map["tmp" := Dir, "tmp/a" := Dir]
  }

  function StaleTrace(): Trace {
    Children([FileInfo("a", "tmp/a", 0, true)], [Attempt("tmp/a", true, Removed)])
  }

  lemma StalePaths()
    ensures ChildOf("tmp", "tmp/a") && Within("tmp", "tmp/a/f") && TopLevelChild("tmp", "tmp/a/f") == "tmp/a"
    ensures "tmp" != "tmp/a" && "tmp" != "tmp/a/f" && "tmp/a" != "tmp/a/f"
  {
    FirstSegment("tmp", "a");
    assert "tmp/a/f"[..6] == "tmp/a/" && "tmp/a" + "/" == "tmp/a/" && "tmp/a/f"[..4] == "tmp/" && "tmp" + "/" == "tmp/";
    TopLevelChildIsContainer("tmp", "tmp/a", "tmp/a/f");
    assert |"tmp"| == 3 && |"tmp/a"| == 5 && |"tmp/a/f"| == 7;
  }

  lemma OneFile(f: FileInfo)
    ensures Tally([f]) == Totals(1, f.size)
  {
    assert [f][..0] == [] && Tally([]) == Zero();
  }

  lemma StalePlanned()
    ensures PlanFor(TreeBefore(), StalePlan()) && Submap(TreeEmptied(), TreeBefore())
  {
    StalePaths();
    OneFile(StalePlan().files[0]);
    assert StalePlan().files[0].path == "tmp/a/f";
  }

  /** A planned file that another clean deleted in between is claimed once more. */
  lemma StaleOverReports()
    ensures PlanFor(TreeBefore(), StalePlan()) && Submap(TreeEmptied(), TreeBefore())
    ensures GoodTrace(TreeEmptied(), StalePlan(), StaleTrace())
    ensures Report(StalePlan(), StaleTrace()).removed == 1 && Measure(FilesOf(TreeEmptied())).count == 0
  {
    var files, tries := StalePlan().files, StaleTrace().tries;
    StalePlanned();
    StalePaths();
    assert files[..0] == [] && tries[..0] == [];
    assert TallyIn(ByTopLevelChild("tmp"), files, {"tmp/a"}) == Totals(1, 7);
    assert FilesOf(TreeEmptied()) == map[];
  }
}
