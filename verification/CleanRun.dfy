/** Several targets in one clean: all plans are built first, then executed one after another. */
module CleanRun {
  import opened Common
  import opened Paths
  import opened SandboxFs
  import opened Cleaner
  import opened CleanerLaws

  function RunPlans(t: Tree, plans: seq<CleanPlan>, traces: seq<Trace>): Tree
    requires |plans| == |traces|
  {
    if plans == [] then t
    else
      var n := |plans| - 1;
      RunTries(RunPlans(t, plans[..n], traces[..n]), Tries(traces[n]))
  }

  /** Each trace is what Execute guarantees on the tree its plan met. */
  ghost predicate GoodRun(t: Tree, plans: seq<CleanPlan>, traces: seq<Trace>)
    requires |plans| == |traces|
  {
    plans == [] ||
    var n := |plans| - 1;
    && GoodRun(t, plans[..n], traces[..n])
    && GoodTrace(RunPlans(t, plans[..n], traces[..n]), plans[n], traces[n])
  }

  ghost predicate SmoothRun(t: Tree, plans: seq<CleanPlan>, traces: seq<Trace>)
    requires |plans| == |traces|
  {
    plans == [] ||
    var n := |plans| - 1;
    && SmoothRun(t, plans[..n], traces[..n])
    && Smooth(RunPlans(t, plans[..n], traces[..n]), plans[n], traces[n])
  }

  ghost predicate Apart(a: string, b: string) {
    !Within(a, b) && !Within(b, a)
  }

  /** Every plan was built on t, for targets none of which contains another. */
  ghost predicate PlannedOn(t: Tree, plans: seq<CleanPlan>) {
    && (forall k :: 0 <= k < |plans| ==> PlanFor(t, plans[k]))
    && (forall j, k :: 0 <= j < k < |plans| ==> Apart(plans[j].target.root, plans[k].target.root))
  }

  function Planned(plans: seq<CleanPlan>): Totals {
    if plans == [] then Zero()
    else Add(Planned(plans[..|plans| - 1]), Tally(plans[|plans| - 1].files))
  }

  function Claimed(plans: seq<CleanPlan>, traces: seq<Trace>): Totals
    requires |plans| == |traces|
    requires forall k :: 0 <= k < |plans| ==> Answers(plans[k], traces[k])
  {
    if plans == [] then Zero()
    else
      var n := |plans| - 1;
      Add(Claimed(plans[..n], traces[..n]), Credit(plans[n], traces[n]))
  }

  // ---- The methods --------------------------------------------------------

  /** A walk's error as the planner reports it: the first one of its callback, else the walk's own. */
  function WalkError(c: Call): Option<Error>
    requires c.Walked?
  {
    if FirstError(c.visits).Some? then FirstError(c.visits) else c.err
  }

  /** Walks of the first targets, in order, none of which failed. */
  ghost predicate GoodWalks(targets: seq<Target>, walks: seq<Call>) {
    && |walks| <= |targets|
    && forall k :: 0 <= k < |walks| ==>
         walks[k].Walked? && walks[k].root == targets[k].root && WalkError(walks[k]).None?
  }

  /** Walks of all targets without an error; or up to the first one that fails, with e. */
  ghost predicate Walks(targets: seq<Target>, walks: seq<Call>, failed: Option<Error>) {
    if failed.None? then |walks| == |targets| && GoodWalks(targets, walks)
    else
      && walks != []
      && var n := |walks| - 1;
         && GoodWalks(targets, walks[..n]) && n < |targets|
         && walks[n].Walked? && walks[n].root == targets[n].root && WalkError(walks[n]) == failed
  }

  lemma WalkStep(log: seq<Call>, walks: seq<Call>, c: Call)
    ensures (log + walks) + [c] == log + (walks + [c]) && (walks + [c])[..|walks|] == walks
  {
  }

  /** Stops at the first target whose plan cannot be built; nothing has changed then. */
  method BuildPlans(fs: FS, targets: seq<Target>) returns (r: Result<seq<CleanPlan>, Error>, ghost walks: seq<Call>)
    modifies fs`log
    ensures r.Ok? ==> PlansFor(fs.tree, targets, r.value)
    ensures fs.log == old(fs.log) + walks
    ensures Walks(targets, walks, if r.Ok? then None else Some(r.error))
  {
    var plans: seq<CleanPlan> := [];
    ghost var log := fs.log;
    walks := [];
    var i := 0;
    while i < |targets|
      invariant 0 <= i <= |targets|
      invariant |plans| == i
      invariant forall k :: 0 <= k < i ==> plans[k].target == targets[k] && PlanFor(fs.tree, plans[k])
      invariant fs.log == log + walks && |walks| == i && GoodWalks(targets, walks)
    {
      var p;
      ghost var visits, walkErr;
      p, visits, walkErr := BuildPlan(fs, targets[i]);
      WalkStep(log, walks, Walked(targets[i].root, visits, walkErr));
      walks := walks + [Walked(targets[i].root, visits, walkErr)];
      if p.Err? {
        return Err(p.error), walks;
      }
      plans := plans + [p.value];
      i := i + 1;
    }
    r := Ok(plans);
  }

  /** All calls of executing plans in order. */
  function RunCalls(plans: seq<CleanPlan>, traces: seq<Trace>): seq<Call>
    requires |plans| == |traces|
  {
    if plans == [] then []
    else
      var n := |plans| - 1;
      RunCalls(plans[..n], traces[..n]) + CallsOf(plans[n], traces[n])
  }

  lemma RunCallsStep(log: seq<Call>, plans: seq<CleanPlan>, traces: seq<Trace>, plan: CleanPlan, trace: Trace)
    requires |plans| == |traces|
    ensures (log + RunCalls(plans, traces)) + CallsOf(plan, trace) == log + RunCalls(plans + [plan], traces + [trace])
  {
    SnocTake(plans, plan);
    SnocTake(traces, trace);
    Assoc(log, RunCalls(plans, traces), CallsOf(plan, trace));
  }

  method ExecutePlans(fs: FS, plans: seq<CleanPlan>) returns (results: seq<CleanResult>, ghost traces: seq<Trace>)
    modifies fs
    ensures Reports(plans, traces, results)
    ensures GoodRun(old(fs.tree), plans, traces)
    ensures fs.tree == RunPlans(old(fs.tree), plans, traces)
    ensures fs.log == old(fs.log) + RunCalls(plans, traces)
  {
    results, traces := [], [];
    ghost var before, log := fs.tree, fs.log;
    assert log + RunCalls([], []) == log;
    var i := 0;
    while i < |plans|
      invariant 0 <= i <= |plans|
      invariant Ran(before, fs.tree, plans[..i], traces, results)
      invariant fs.log == log + RunCalls(plans[..i], traces)
    {
      var res;
      ghost var trace;
      ghost var mid := fs.tree;
      res, trace := Execute(fs, plans[i]);
      RanStep(before, mid, plans[..i], traces, results, plans[i], trace);
      RunCallsStep(log, plans[..i], traces, plans[i], trace);
      TakeStep(plans, i);
      results, traces := results + [res], traces + [trace];
      i := i + 1;
    }
    TakeAll(plans, i);
  }

  /** The tree, the traces and the reports after some plans. */
  ghost predicate Ran(t: Tree, after: Tree, plans: seq<CleanPlan>, traces: seq<Trace>, results: seq<CleanResult>) {
    && Reports(plans, traces, results)
    && GoodRun(t, plans, traces)
    && after == RunPlans(t, plans, traces)
  }

  lemma RanStep(t: Tree, mid: Tree, plans: seq<CleanPlan>, traces: seq<Trace>, results: seq<CleanResult>,
                plan: CleanPlan, trace: Trace)
    requires Ran(t, mid, plans, traces, results) && GoodTrace(mid, plan, trace) && Answers(plan, trace)
    ensures Ran(t, RunTries(mid, Tries(trace)), plans + [plan], traces + [trace], results + [Report(plan, trace)])
  {
    RunPlansStep(t, plans, traces, plan, trace);
    ReportsStep(plans, traces, results, plan, trace);
  }

  lemma RunPlansStep(t: Tree, plans: seq<CleanPlan>, traces: seq<Trace>, plan: CleanPlan, trace: Trace)
    requires |plans| == |traces| && GoodRun(t, plans, traces)
    requires GoodTrace(RunPlans(t, plans, traces), plan, trace)
    ensures GoodRun(t, plans + [plan], traces + [trace])
    ensures RunPlans(t, plans + [plan], traces + [trace]) == RunTries(RunPlans(t, plans, traces), Tries(trace))
  {
    SnocTake(plans, plan);
    SnocTake(traces, trace);
  }

  lemma ReportsStep(plans: seq<CleanPlan>, traces: seq<Trace>, results: seq<CleanResult>, plan: CleanPlan, trace: Trace)
    requires Reports(plans, traces, results) && Answers(plan, trace)
    ensures Reports(plans + [plan], traces + [trace], results + [Report(plan, trace)])
  {
  }

  /** The int64 sum of the planned bytes: the total a dry run shows. */
  function DryRunTotal(plans: seq<CleanPlan>): I64 {
    if plans == [] then 0 else WrapI64(DryRunTotal(plans[..|plans| - 1]) + plans[|plans| - 1].totalBytes)
  }

  function SumRemoved(results: seq<CleanResult>): nat {
    if results == [] then 0 else SumRemoved(results[..|results| - 1]) + results[|results| - 1].removed
  }

  function SumFreed(results: seq<CleanResult>): I64 {
    if results == [] then 0 else WrapI64(SumFreed(results[..|results| - 1]) + results[|results| - 1].bytes)
  }

  function SumFailures(results: seq<CleanResult>): nat {
    if results == [] then 0 else SumFailures(results[..|results| - 1]) + |results[|results| - 1].failures|
  }

  /** The summary line's figures, and an exit code that is non-zero exactly when something failed. */
  method ReportResults(results: seq<CleanResult>) returns (removed: nat, freed: I64, failures: nat, exit: int)
    ensures removed == SumRemoved(results) && freed == SumFreed(results) && failures == SumFailures(results)
    ensures exit == 0 || exit == 1
    ensures exit == 0 <==> forall k :: 0 <= k < |results| ==> results[k].failures == []
  {
    removed, freed, failures := 0, 0, 0;
    var i := 0;
    while i < |results|
      invariant 0 <= i <= |results|
      invariant removed == SumRemoved(results[..i]) && freed == SumFreed(results[..i])
      invariant failures == SumFailures(results[..i])
      invariant failures == 0 <==> forall k :: 0 <= k < i ==> results[k].failures == []
    {
      var r := results[i];
      TakeBack(results, i);
      removed := removed + r.removed;
      freed := WrapI64(freed + r.bytes);
      failures := failures + |r.failures|;
      i := i + 1;
    }
    assert results[..i] == results;
    exit := if failures > 0 then 1 else 0;
  }

  // ---- Laws ---------------------------------------------------------------

  /** Every result is without failures exactly when every call of the clean succeeded. */
  lemma FailuresReported(plans: seq<CleanPlan>, traces: seq<Trace>, results: seq<CleanResult>)
    requires Reports(plans, traces, results)
    ensures (forall k :: 0 <= k < |results| ==> results[k].failures == [])
       <==> forall k :: 0 <= k < |traces| ==> AllSucceeded(traces[k])
  {
    forall k | 0 <= k < |plans|
      ensures results[k].failures == [] <==> AllSucceeded(traces[k])
    {
      ReportedFailures(plans[k], traces[k]);
    }
  }

  predicate CallFailed(c: Call) {
    match c
    case Listed(_, listing) => listing.Err?
    case Walked(_, _, _) => false
    case Tried(a) => a.reply.Failed?
  }

  /** How many listings and removals failed. */
  function FailedCalls(calls: seq<Call>): nat {
    if calls == [] then 0
    else FailedCalls(calls[..|calls| - 1]) + if CallFailed(calls[|calls| - 1]) then 1 else 0
  }

  lemma {:induction false} FailedCallsSum(a: seq<Call>, b: seq<Call>)
    ensures FailedCalls(a + b) == FailedCalls(a) + FailedCalls(b)
  {
    if b == [] {
      assert a + b == a;
    } else {
      var n := |b| - 1;
      FailedCallsSum(a, b[..n]);
      assert (a + b)[..|a + b| - 1] == a + b[..n];
    }
  }

  lemma {:induction false} FailedTries(tries: seq<Attempt>)
    ensures FailedCalls(TriedAll(tries)) == |FailuresOf(tries)|
  {
    if tries != [] {
      var n := |tries| - 1;
      FailedTries(tries[..n]);
      assert TriedAll(tries)[..n] == TriedAll(tries[..n]);
    }
  }

  lemma FailedCallsOf(plan: CleanPlan, trace: Trace)
    requires Answers(plan, trace)
    ensures FailedCalls(CallsOf(plan, trace)) == |Report(plan, trace).failures|
  {
    match trace {
      case ListFailed(err) =>
        assert [Listed(plan.target.root, Err(err))][..0] == [];
      case Children(entries, tries) =>
        assert [Listed(plan.target.root, Ok(entries))][..0] == [];
        FailedCallsSum([Listed(plan.target.root, Ok(entries))], TriedAll(tries));
        FailedTries(tries);
      case PerFile(tries) =>
        FailedTries(tries);
    }
  }

  /** The summary's failures are the listings and removals that failed. */
  lemma {:induction false} FailuresAreFailedCalls(plans: seq<CleanPlan>, traces: seq<Trace>, results: seq<CleanResult>)
    requires Reports(plans, traces, results)
    ensures SumFailures(results) == FailedCalls(RunCalls(plans, traces))
  {
    if plans != [] {
      var n := |plans| - 1;
      var ps, ts := plans[..n], traces[..n];
      FailuresAreFailedCalls(ps, ts, results[..n]);
      FailedCallsSum(RunCalls(ps, ts), CallsOf(plans[n], traces[n]));
      FailedCallsOf(plans[n], traces[n]);
    }
  }

  lemma {:induction false} RunPlansShrinks(t: Tree, plans: seq<CleanPlan>, traces: seq<Trace>)
    requires |plans| == |traces|
    ensures forall p :: p in RunPlans(t, plans, traces) ==> p in t && RunPlans(t, plans, traces)[p] == t[p]
  {
    if plans != [] {
      var n := |plans| - 1;
      RunPlansShrinks(t, plans[..n], traces[..n]);
      RunShrinks(RunPlans(t, plans[..n], traces[..n]), Tries(traces[n]));
    }
  }

  lemma PrefixPlanned(t: Tree, plans: seq<CleanPlan>, n: nat)
    requires n <= |plans| && PlannedOn(t, plans)
    ensures PlannedOn(t, plans[..n])
  {
  }

  /** t is what some removals left of t0. */
  ghost predicate Submap(t: Tree, t0: Tree) {
    forall p :: p in t ==> p in t0 && t[p] == t0[p]
  }

  ghost predicate AllCharted(t: Tree, plans: seq<CleanPlan>) {
    forall k :: 0 <= k < |plans| ==> Charted(t, plans[k])
  }

  lemma StillCharted(t0: Tree, t: Tree, plan: CleanPlan)
    requires Charted(t0, plan) && Submap(t, t0)
    ensures Charted(t, plan)
  {
  }

  lemma PlansAreCharted(t0: Tree, t: Tree, plans: seq<CleanPlan>)
    requires Submap(t, t0) && forall k :: 0 <= k < |plans| ==> PlanFor(t0, plans[k])
    ensures AllCharted(t, plans)
  {
    forall k | 0 <= k < |plans|
      ensures Charted(t, plans[k])
    {
      assert Charted(t0, plans[k]);
      StillCharted(t0, t, plans[k]);
    }
  }

  /**
   * A clean leaves every path outside its target roots alone, and directories at the roots, also
   * when its plans are older than the tree.
   */
  lemma {:induction false} RunFrame(t: Tree, plans: seq<CleanPlan>, traces: seq<Trace>, p: string)
    requires |plans| == |traces| && AllCharted(t, plans) && GoodRun(t, plans, traces)
    requires p in t
    requires forall k :: 0 <= k < |plans| ==>
      !Within(plans[k].target.root, p) || (p == plans[k].target.root && t[p].Dir?)
    ensures p in RunPlans(t, plans, traces) && RunPlans(t, plans, traces)[p] == t[p]
  {
    if plans != [] {
      var n := |plans| - 1;
      RunFrame(t, plans[..n], traces[..n], p);
      RunPlansShrinks(t, plans[..n], traces[..n]);
      StillCharted(t, RunPlans(t, plans[..n], traces[..n]), plans[n]);
      Frame(RunPlans(t, plans[..n], traces[..n]), plans[n], traces[n], p);
    }
  }

  /** Executing some targets leaves the plan of another target exact. */
  lemma PlanStillAccurate(t: Tree, plans: seq<CleanPlan>, traces: seq<Trace>, plan: CleanPlan)
    requires |plans| == |traces| && PlannedOn(t, plans) && GoodRun(t, plans, traces)
    requires PlanFor(t, plan)
    requires forall k :: 0 <= k < |plans| ==> Apart(plans[k].target.root, plan.target.root)
    ensures PlanFor(RunPlans(t, plans, traces), plan)
    ensures forall p :: p in t && Within(plan.target.root, p) ==> p in RunPlans(t, plans, traces)
  {
    var after := RunPlans(t, plans, traces);
    PlansAreCharted(t, t, plans);
    forall p | p in t && Within(plan.target.root, p)
      ensures p in after && after[p] == t[p]
    {
      forall k | 0 <= k < |plans|
        ensures !Within(plans[k].target.root, p)
      {
        if Within(plans[k].target.root, p) {
          SharedDescendant(plans[k].target.root, plan.target.root, p);
        }
      }
      RunFrame(t, plans, traces, p);
    }
    RunPlansShrinks(t, plans, traces);
  }

  lemma {:induction false} GoodRunAnswersAt(t: Tree, plans: seq<CleanPlan>, traces: seq<Trace>, k: nat)
    requires k < |plans| == |traces| && GoodRun(t, plans, traces)
    ensures Answers(plans[k], traces[k])
  {
    var n := |plans| - 1;
    if k < n {
      var ps, ts := plans[..n], traces[..n];
      GoodRunAnswersAt(t, ps, ts, k);
      assert plans[k] == ps[k] && traces[k] == ts[k];
    } else {
      GoodTraceCreditsOnce(RunPlans(t, plans[..n], traces[..n]), plans[n], traces[n]);
    }
  }

  lemma GoodRunAnswers(t: Tree, plans: seq<CleanPlan>, traces: seq<Trace>)
    requires |plans| == |traces| && GoodRun(t, plans, traces)
    ensures forall k :: 0 <= k < |plans| ==> Answers(plans[k], traces[k])
  {
    forall k | 0 <= k < |plans|
      ensures Answers(plans[k], traces[k])
    {
      GoodRunAnswersAt(t, plans, traces, k);
    }
  }

  /** Over any number of targets and any failures, a clean never claims more than it freed. */
  lemma {:induction false} RunNeverOverReports(t: Tree, plans: seq<CleanPlan>, traces: seq<Trace>)
    requires |plans| == |traces| && PlannedOn(t, plans) && GoodRun(t, plans, traces)
    ensures forall k :: 0 <= k < |plans| ==> Answers(plans[k], traces[k])
    ensures var left := Measure(FilesOf(RunPlans(t, plans, traces)));
      && left.count + Claimed(plans, traces).count <= Measure(FilesOf(t)).count
      && left.bytes + Claimed(plans, traces).bytes <= Measure(FilesOf(t)).bytes
  {
    GoodRunAnswers(t, plans, traces);
    if plans != [] {
      var n := |plans| - 1;
      var mid := RunPlans(t, plans[..n], traces[..n]);
      PrefixPlanned(t, plans, n);
      RunNeverOverReports(t, plans[..n], traces[..n]);
      PlanStillAccurate(t, plans[..n], traces[..n], plans[n]);
      NeverOverReports(mid, plans[n], traces[n]);
    }
  }

  lemma StillRooted(t: Tree, mid: Tree, root: string, plans: seq<CleanPlan>, traces: seq<Trace>)
    requires WellFormed(t) && |plans| == |traces| && mid == RunPlans(t, plans, traces)
    requires forall p :: p in t && Within(root, p) ==> p in mid
    ensures Rooted(mid, root)
  {
    WellFormedIsRooted(t, root);
    RunPlansShrinks(t, plans, traces);
    forall p | p in mid && mid[p].File? && Below(root, p)
      ensures ChildOf(root, TopLevelChild(root, p)) && TopLevelChild(root, p) in mid
    {
      var c := TopLevelChild(root, p);
      assert t[p].File?;
      assert c in t && Within(root, c);
    }
  }

  /** The last target of a smooth run still finds its plan exact, and reports it. */
  lemma LastSmoothReport(t: Tree, plans: seq<CleanPlan>, traces: seq<Trace>)
    requires WellFormed(t) && 0 < |plans| == |traces|
    requires PlannedOn(t, plans) && GoodRun(t, plans, traces) && SmoothRun(t, plans, traces)
    ensures var n := |plans| - 1;
      && Answers(plans[n], traces[n]) && Credit(plans[n], traces[n]) == Tally(plans[n].files)
      && Report(plans[n], traces[n]).failures == []
      && Splits(Measure(FilesOf(RunPlans(t, plans[..n], traces[..n]))), Measure(FilesOf(RunPlans(t, plans, traces))), Tally(plans[n].files))
  {
    var n := |plans| - 1;
    var mid := RunPlans(t, plans[..n], traces[..n]);
    PrefixPlanned(t, plans, n);
    PlanStillAccurate(t, plans[..n], traces[..n], plans[n]);
    StillRooted(t, mid, plans[n].target.root, plans[..n], traces[..n]);
    SmoothRunMeetsPlan(mid, plans[n], traces[n]);
  }

  /**
   * A dry run predicts the real run: with no failure and complete listings the files and bytes
   * claimed are the planned ones, and they are the drop in the file system.
   */
  lemma {:induction false} DryRunPredictsRun(t: Tree, plans: seq<CleanPlan>, traces: seq<Trace>)
    requires WellFormed(t)
    requires |plans| == |traces| && PlannedOn(t, plans) && GoodRun(t, plans, traces) && SmoothRun(t, plans, traces)
    ensures forall k :: 0 <= k < |plans| ==> Answers(plans[k], traces[k])
    ensures Claimed(plans, traces) == Planned(plans)
    ensures Splits(Measure(FilesOf(t)), Measure(FilesOf(RunPlans(t, plans, traces))), Planned(plans))
  {
    GoodRunAnswers(t, plans, traces);
    if plans != [] {
      var n := |plans| - 1;
      PrefixPlanned(t, plans, n);
      DryRunPredictsRun(t, plans[..n], traces[..n]);
      LastSmoothReport(t, plans, traces);
      ClaimedStep(plans, traces);
    }
  }

  ghost predicate Reports(plans: seq<CleanPlan>, traces: seq<Trace>, results: seq<CleanResult>) {
    && |plans| == |traces| == |results|
    && forall k :: 0 <= k < |plans| ==> Answers(plans[k], traces[k]) && results[k] == Report(plans[k], traces[k])
  }

  lemma LastReport(plans: seq<CleanPlan>, traces: seq<Trace>, results: seq<CleanResult>)
    requires plans != [] && Reports(plans, traces, results)
    ensures var n := |plans| - 1;
      && Reports(plans[..n], traces[..n], results[..n])
      && Answers(plans[n], traces[n])
      && results[n].removed == Credit(plans[n], traces[n]).count
      && results[n].bytes == WrapI64(Credit(plans[n], traces[n]).bytes)
  {
  }

  /** What the summary line adds up to. */
  ghost predicate Sums(results: seq<CleanResult>, claimed: Totals) {
    SumRemoved(results) == claimed.count && SumFreed(results) == WrapI64(claimed.bytes)
  }

  /** The reported totals are the exact ones, the bytes in an int64. */
  lemma {:induction false} ReportedTotals(plans: seq<CleanPlan>, traces: seq<Trace>, results: seq<CleanResult>)
    requires Reports(plans, traces, results)
    ensures SumRemoved(results) == Claimed(plans, traces).count
    ensures SumFreed(results) == WrapI64(Claimed(plans, traces).bytes)
  {
    if plans != [] {
      var n := |plans| - 1;
      LastReport(plans, traces, results);
      var ps, ts := plans[..n], traces[..n];
      ReportedTotals(ps, ts, results[..n]);
      SumsStep(results, Claimed(ps, ts), Credit(plans[n], traces[n]));
      ClaimedStep(plans, traces);
    }
  }

  lemma SumsStep(results: seq<CleanResult>, claimed: Totals, credit: Totals)
    requires results != [] && Sums(results[..|results| - 1], claimed)
    requires results[|results| - 1].removed == credit.count && results[|results| - 1].bytes == WrapI64(credit.bytes)
    ensures Sums(results, Add(claimed, credit))
  {
    TotalSnoc(SumFreed(results[..|results| - 1]), results[|results| - 1].bytes, claimed, credit);
  }

  lemma ClaimedStep(plans: seq<CleanPlan>, traces: seq<Trace>)
    requires |plans| == |traces| && plans != []
    requires forall k :: 0 <= k < |plans| ==> Answers(plans[k], traces[k])
    ensures var n := |plans| - 1;
      && Answers(plans[n], traces[n])
      && Splits(Claimed(plans, traces), Claimed(plans[..n], traces[..n]), Credit(plans[n], traces[n]))
  {
  }

  lemma WrapSum(a: int, b: int)
    ensures WrapI64(WrapI64(a) + WrapI64(b)) == WrapI64(a + b)
  {
    WrapI64Add(a, WrapI64(b));
    WrapI64Add(b, a);
  }

  /** Every plan carries its own int64 total. */
  ghost predicate Totalled(plans: seq<CleanPlan>) {
    forall k :: 0 <= k < |plans| ==> plans[k].totalBytes == WrapI64(Tally(plans[k].files).bytes)
  }

  lemma TotalSnoc(before: I64, last: I64, planned: Totals, tally: Totals)
    requires before == WrapI64(planned.bytes) && last == WrapI64(tally.bytes)
    ensures WrapI64(before + last) == WrapI64(planned.bytes + tally.bytes)
  {
    WrapSum(planned.bytes, tally.bytes);
  }

  lemma {:induction false} DryRunTotalIsPlanned(plans: seq<CleanPlan>)
    requires Totalled(plans)
    ensures DryRunTotal(plans) == WrapI64(Planned(plans).bytes)
  {
    if plans != [] {
      var n := |plans| - 1;
      assert Totalled(plans[..n]);
      DryRunTotalIsPlanned(plans[..n]);
      TotalSnoc(DryRunTotal(plans[..n]), plans[n].totalBytes, Planned(plans[..n]), Tally(plans[n].files));
    }
  }

  lemma {:induction false} GoodPrefix(t: Tree, plans: seq<CleanPlan>, traces: seq<Trace>, m: nat)
    requires m <= |plans| == |traces| && GoodRun(t, plans, traces)
    ensures GoodRun(t, plans[..m], traces[..m])
  {
    if m == |plans| {
      TakeAll(plans, m);
      TakeAll(traces, m);
    } else {
      var n := |plans| - 1;
      GoodPrefix(t, plans[..n], traces[..n], m);
      TakeTake(plans, n, m);
      TakeTake(traces, n, m);
    }
  }

  lemma {:induction false} SmoothPrefix(t: Tree, plans: seq<CleanPlan>, traces: seq<Trace>, m: nat)
    requires m <= |plans| == |traces| && SmoothRun(t, plans, traces)
    ensures SmoothRun(t, plans[..m], traces[..m])
  {
    if m == |plans| {
      TakeAll(plans, m);
      TakeAll(traces, m);
    } else {
      var n := |plans| - 1;
      SmoothPrefix(t, plans[..n], traces[..n], m);
      TakeTake(plans, n, m);
      TakeTake(traces, n, m);
    }
  }

  /** In a smooth run every target's report is its plan. */
  lemma SmoothReport(t: Tree, plans: seq<CleanPlan>, traces: seq<Trace>, k: nat)
    requires WellFormed(t) && k < |plans| == |traces|
    requires PlannedOn(t, plans) && GoodRun(t, plans, traces) && SmoothRun(t, plans, traces)
    ensures Answers(plans[k], traces[k])
    ensures Credit(plans[k], traces[k]) == Tally(plans[k].files)
    ensures Report(plans[k], traces[k]).failures == []
  {
    PrefixPlanned(t, plans, k + 1);
    GoodPrefix(t, plans, traces, k + 1);
    SmoothPrefix(t, plans, traces, k + 1);
    LastSmoothReport(t, plans[..k + 1], traces[..k + 1]);
  }

  // ---- Two walks of one target --------------------------------------------

  lemma {:induction false} AllGone(files: seq<FileInfo>)
    ensures TallyGone(files, map[]) == Tally(files)
  {
    if files != [] {
      AllGone(files[..|files| - 1]);
    }
  }

  lemma PlannedPaths(t: Tree, plan: CleanPlan, p: string)
    requires PlanFor(t, plan)
    ensures p in GonePaths(plan.files, map[]) <==> p in t && t[p].File? && Within(plan.target.root, p)
  {
    if p in t && t[p].File? && Within(plan.target.root, p) {
      var i :| 0 <= i < |plan.files| && plan.files[i].path == p;
    }
  }

  lemma PlanMeasure(t: Tree, plan: CleanPlan)
    requires PlanFor(t, plan)
    ensures Splits(Measure(FilesOf(t)), Measure(FilesOf(t) - GonePaths(plan.files, map[])), Tally(plan.files))
  {
    assert Lists(FilesOf(t), plan.files);
    MeasureGone(FilesOf(t), plan.files, map[]);
    AllGone(plan.files);
  }

  lemma SamePaths(t: Tree, p: CleanPlan, q: CleanPlan)
    requires PlanFor(t, p) && PlanFor(t, q) && p.target == q.target
    ensures GonePaths(p.files, map[]) == GonePaths(q.files, map[])
  {
    forall x
      ensures x in GonePaths(p.files, map[]) <==> x in GonePaths(q.files, map[])
    {
      PlannedPaths(t, p, x);
      PlannedPaths(t, q, x);
    }
  }

  lemma SameRest(whole: Totals, rest: Totals, a: Totals, b: Totals)
    requires Splits(whole, rest, a) && Splits(whole, rest, b)
    ensures a == b
  {
  }

  lemma SameTally(t: Tree, p: CleanPlan, q: CleanPlan)
    requires PlanFor(t, p) && PlanFor(t, q) && p.target == q.target
    ensures Tally(p.files) == Tally(q.files)
  {
    SamePaths(t, p, q);
    PlanMeasure(t, p);
    PlanMeasure(t, q);
    SameRest(Measure(FilesOf(t)), Measure(FilesOf(t) - GonePaths(p.files, map[])), Tally(p.files), Tally(q.files));
  }

  /** Plans of one target built on the same tree, by whatever walks, hold as many files and bytes. */
  lemma TwoWalksAgree(t: Tree, p: CleanPlan, q: CleanPlan)
    requires PlanFor(t, p) && PlanFor(t, q) && p.target == q.target
    ensures Tally(p.files) == Tally(q.files)
    ensures |p.files| == |q.files| && p.totalBytes == q.totalBytes
  {
    SameTally(t, p, q);
    TallyCounts(p.files);
    TallyCounts(q.files);
  }

  ghost predicate PlansFor(t: Tree, targets: seq<Target>, plans: seq<CleanPlan>) {
    && |plans| == |targets|
    && forall k :: 0 <= k < |plans| ==> plans[k].target == targets[k] && PlanFor(t, plans[k])
  }

  lemma {:induction false} SameTotals(dry: seq<CleanPlan>, plans: seq<CleanPlan>)
    requires |dry| == |plans| && forall k :: 0 <= k < |dry| ==> dry[k].totalBytes == plans[k].totalBytes
    ensures DryRunTotal(dry) == DryRunTotal(plans)
  {
    if dry != [] {
      var n := |dry| - 1;
      SameTotals(dry[..n], plans[..n]);
    }
  }

  lemma SameDryRunTotals(t: Tree, targets: seq<Target>, dry: seq<CleanPlan>, plans: seq<CleanPlan>)
    requires PlansFor(t, targets, dry) && PlansFor(t, targets, plans)
    ensures DryRunTotal(dry) == DryRunTotal(plans)
  {
    forall k | 0 <= k < |dry|
      ensures dry[k].totalBytes == plans[k].totalBytes
    {
      TwoWalksAgree(t, dry[k], plans[k]);
    }
    SameTotals(dry, plans);
  }

  lemma {:induction false} SameSums(dry: seq<CleanPlan>, plans: seq<CleanPlan>)
    requires |dry| == |plans| && forall k :: 0 <= k < |dry| ==> Tally(dry[k].files) == Tally(plans[k].files)
    ensures Planned(dry) == Planned(plans)
  {
    if dry != [] {
      var n := |dry| - 1;
      SameSums(dry[..n], plans[..n]);
    }
  }

  lemma SamePlanned(t: Tree, targets: seq<Target>, dry: seq<CleanPlan>, plans: seq<CleanPlan>)
    requires PlansFor(t, targets, dry) && PlansFor(t, targets, plans)
    ensures Planned(dry) == Planned(plans)
  {
    forall k | 0 <= k < |dry|
      ensures Tally(dry[k].files) == Tally(plans[k].files)
    {
      TwoWalksAgree(t, dry[k], plans[k]);
    }
    SameSums(dry, plans);
  }

  /** The total of one call's plans is what another call reports freed when it runs smoothly. */
  lemma DryRunFigureIsRunFigure(t: Tree, targets: seq<Target>, dry: seq<CleanPlan>,
                                plans: seq<CleanPlan>, traces: seq<Trace>, results: seq<CleanResult>)
    requires WellFormed(t)
    requires PlansFor(t, targets, dry) && PlansFor(t, targets, plans)
    requires Reports(plans, traces, results) && PlannedOn(t, plans)
    requires GoodRun(t, plans, traces) && SmoothRun(t, plans, traces)
    ensures SumFreed(results) == DryRunTotal(dry)
  {
    DryRunPredictsRun(t, plans, traces);
    ReportedTotals(plans, traces, results);
    DryRunTotalIsPlanned(plans);
    SameDryRunTotals(t, targets, dry, plans);
  }

  /** The three built-in targets never contain one another. */
  lemma BuiltInTargetsApart()
    ensures Apart(TARGET_TMP.root, TARGET_CACHES.root)
    ensures Apart(TARGET_TMP.root, TARGET_DOCUMENTS.root)
    ensures Apart(TARGET_CACHES.root, TARGET_DOCUMENTS.root)
  {
    assert "tmp"[0] == 't' && "Library/Caches"[0] == 'L' && "Documents"[0] == 'D';
    assert forall d: string, p: string :: Within(d, p) && d != "" ==> d[0] == p[0] by {
      forall d: string, p: string | Within(d, p) && d != "" ensures d[0] == p[0] {
        if p != d { assert p[0] == (d + "/")[0]; }
      }
    }
  }
}
