/** The gates in front of a deletion: the CLI's `apps clean` and the MCP tool apps_clean. */
module CleanGate {
  import opened Common
  import opened Flags
  import opened Paths
  import opened SandboxFs
  import opened Strings
  import opened Cleaner
  import opened CleanerLaws
  import opened CleanRun
  import opened Probes

  // ---- Targets ------------------------------------------------------------

  datatype Include = Include(tmp: bool, caches: bool, documents: bool)

  /** tmp and caches when nothing was asked for; otherwise just what was asked for. */
  function Defaulted(i: Include): Include {
    if !i.tmp && !i.caches && !i.documents then Include(true, true, false) else i
  }

  /** What a request that asks for `asked` is to clean: what it asks for, or tmp and caches if that is nothing. */
  predicate Chosen(asked: Include, scope: Include) {
    var nothing := !asked.tmp && !asked.caches && !asked.documents;
    && (scope.tmp <==> asked.tmp || nothing)
    && (scope.caches <==> asked.caches || nothing)
    && (scope.documents <==> asked.documents)
  }

  function Targets(i: Include): seq<Target> {
    (if i.tmp then [TARGET_TMP] else [])
    + (if i.caches then [TARGET_CACHES] else [])
    + (if i.documents then [TARGET_DOCUMENTS] else [])
  }

  /** The tree after executing, for the given targets, plans that were all built beforehand. */
  ghost predicate Cleaned(t: Tree, t': Tree, targets: seq<Target>, plans: seq<CleanPlan>, traces: seq<Trace>) {
    && |plans| == |traces| && PlansFor(t, targets, plans)
    && GoodRun(t, plans, traces)
    && t' == RunPlans(t, plans, traces)
  }

  lemma TargetsApart(i: Include)
    ensures forall j, k :: 0 <= j < k < |Targets(i)| ==> CleanRun.Apart(Targets(i)[j].root, Targets(i)[k].root)
  {
    BuiltInTargetsApart();
  }

  /** The targets of plans: all different, tmp before Library/Caches before Documents, each exactly when chosen. */
  ghost predicate PlansChosen(asked: Include, plans: seq<CleanPlan>) {
    var nothing := !asked.tmp && !asked.caches && !asked.documents;
    && (forall k :: 0 <= k < |plans| ==> plans[k].target in {TARGET_TMP, TARGET_CACHES, TARGET_DOCUMENTS})
    && (forall j, k :: 0 <= j < k < |plans| ==>
          plans[j].target != plans[k].target && plans[j].target != TARGET_DOCUMENTS && plans[k].target != TARGET_TMP)
    && (HasPlan(plans, TARGET_TMP) <==> asked.tmp || nothing)
    && (HasPlan(plans, TARGET_CACHES) <==> asked.caches || nothing)
    && (HasPlan(plans, TARGET_DOCUMENTS) <==> asked.documents)
  }

  ghost predicate HasPlan(plans: seq<CleanPlan>, target: Target) {
    exists k :: 0 <= k < |plans| && plans[k].target == target
  }

  lemma TargetIn(t: Tree, targets: seq<Target>, plans: seq<CleanPlan>, target: Target)
    requires PlansFor(t, targets, plans)
    ensures HasPlan(plans, target) <==> target in targets
  {
    if target in targets {
      var k :| 0 <= k < |targets| && targets[k] == target;
      assert plans[k].target == target;
    }
  }

  lemma TargetNames()
    ensures TARGET_TMP != TARGET_CACHES && TARGET_TMP != TARGET_DOCUMENTS && TARGET_CACHES != TARGET_DOCUMENTS
    ensures TARGET_TMP.name == "tmp" && TARGET_CACHES.name == "Library/Caches" && TARGET_DOCUMENTS.name == "Documents"
  {
    assert |TARGET_TMP.root| == 3 && |TARGET_CACHES.root| == 14 && |TARGET_DOCUMENTS.root| == 9;
  }

  lemma TargetsInOrder(scope: Include)
    ensures forall k :: 0 <= k < |Targets(scope)| ==> Targets(scope)[k] in {TARGET_TMP, TARGET_CACHES, TARGET_DOCUMENTS}
    ensures forall j, k :: 0 <= j < k < |Targets(scope)| ==>
      var a, b := Targets(scope)[j], Targets(scope)[k]; a != b && a != TARGET_DOCUMENTS && b != TARGET_TMP
    ensures TARGET_TMP in Targets(scope) <==> scope.tmp
    ensures TARGET_CACHES in Targets(scope) <==> scope.caches
    ensures TARGET_DOCUMENTS in Targets(scope) <==> scope.documents
  {
    TargetNames();
  }

  lemma TargetsChosen(t: Tree, asked: Include, scope: Include, plans: seq<CleanPlan>)
    requires Chosen(asked, scope) && PlansFor(t, Targets(scope), plans)
    ensures PlansChosen(asked, plans)
  {
    TargetsInOrder(scope);
    TargetIn(t, Targets(scope), plans, TARGET_TMP);
    TargetIn(t, Targets(scope), plans, TARGET_CACHES);
    TargetIn(t, Targets(scope), plans, TARGET_DOCUMENTS);
  }

  /** A clean changes nothing outside the included targets, and keeps directories at their roots. */
  lemma CleanedFrame(t: Tree, t': Tree, i: Include, plans: seq<CleanPlan>, traces: seq<Trace>, p: string)
    requires Cleaned(t, t', Targets(i), plans, traces)
    requires forall k :: 0 <= k < |Targets(i)| ==>
      !Within(Targets(i)[k].root, p) || (p == Targets(i)[k].root && p in t && t[p].Dir?)
    ensures p in t <==> p in t'
    ensures p in t ==> t'[p] == t[p]
  {
    PlansAreCharted(t, t, plans);
    RunPlansShrinks(t, plans, traces);
    if p in t {
      RunFrame(t, plans, traces, p);
    }
  }

  // ---- The CLI ------------------------------------------------------------

  predicate IsTrue(v: string) {
    v in ["1", "t", "T", "TRUE", "true", "True"]
  }

  predicate IsFalse(v: string) {
    v in ["0", "f", "F", "FALSE", "false", "False"]
  }

  function CleanFlags(): FlagSet {
    var bools := {"dry-run", "yes", "include-documents", "include-tmp", "include-caches"};
    FlagSet(bools, {"device", "store-dir"}, (n: string, v: string) => n in bools ==> IsTrue(v) || IsFalse(v))
  }

  /** A boolean flag is false until set; the last setting wins. */
  predicate Setting(sets: seq<Assign>, name: string) {
    sets != [] &&
    var last := sets[|sets| - 1];
    if last.name == name then IsTrue(last.value) else Setting(sets[..|sets| - 1], name)
  }

  /** A text flag is empty until set; the last setting wins. */
  function TextSetting(sets: seq<Assign>, name: string): string {
    if sets == [] then ""
    else
      var last := sets[|sets| - 1];
      if last.name == name then last.value else TextSetting(sets[..|sets| - 1], name)
  }

  /** A boolean flag is set exactly when its last setting is one of the words for true. */
  lemma {:induction false} SettingIff(sets: seq<Assign>, name: string)
    ensures Setting(sets, name) <==>
      exists k: nat :: LastFor(sets, name, k) && sets[k].value in ["1", "t", "T", "TRUE", "true", "True"]
  {
    if sets != [] {
      var n := |sets| - 1;
      SettingIff(sets[..n], name);
      LastForStep(sets, name);
      if sets[n].name == name {
        assert LastFor(sets, name, n);
      } else {
        assert forall k: nat :: LastFor(sets[..n], name, k) ==> sets[..n][k] == sets[k];
      }
    }
  }

  /** Position k is the last setting of the flag. */
  ghost predicate LastFor(sets: seq<Assign>, name: string, k: nat) {
    k < |sets| && sets[k].name == name && forall j :: k < j < |sets| ==> sets[j].name != name
  }

  lemma LastForStep(sets: seq<Assign>, name: string)
    requires sets != []
    ensures var n := |sets| - 1;
      forall k: nat :: LastFor(sets, name, k) <==> if sets[n].name == name then k == n else LastFor(sets[..n], name, k)
  {
  }

  /** A text flag has its last setting's text, and is empty exactly when that is or when there is none. */
  lemma {:induction false} TextSettingIff(sets: seq<Assign>, name: string)
    ensures forall k: nat :: LastFor(sets, name, k) ==> TextSetting(sets, name) == sets[k].value
    ensures (forall k :: 0 <= k < |sets| ==> sets[k].name != name) ==> TextSetting(sets, name) == ""
  {
    if sets != [] {
      var n := |sets| - 1;
      TextSettingIff(sets[..n], name);
      LastForStep(sets, name);
      assert forall k :: 0 <= k < n ==> sets[..n][k] == sets[k];
    }
  }

  datatype Resolved = NoDevices | ResolveFailed | Device(udid: string)

  /** What the surroundings answer during one CLI run. */
  datatype CliEnv = CliEnv(
    resolved: Resolved, loaded: Result<seq<ProbeResult>, Error>, now: int, opens: bool,
    typed: Result<string, Error>, confirmed: Result<bool, Error>)

  datatype CliOptions = CliOptions(bundleID: string, udid: string, scope: Include, dryRun: bool, yes: bool)

  /** What parsing makes of the command line of `apps clean`. */
  function ParsedLine(args: seq<string>): Outcome {
    Parse(CleanFlags(), Split(CleanFlags(), args).0 + ["--"])
  }

  /** The decision up to opening the sandbox: an exit code, or the options to go on with. */
  function CliGate(args: seq<string>, env: CliEnv): Result<CliOptions, int> {
    var parsed, positionals := ParsedLine(args), Split(CleanFlags(), args).1;
    if parsed.stop.Failed? || |positionals| < 1 then Err(2)
    else
      var bundleID := TrimSpace(positionals[0]);
      if !PrintableASCII(bundleID) || AppleSystem(bundleID) then Err(1)
      else
        match env.resolved
        case NoDevices => Err(0)
        case ResolveFailed => Err(1)
        case Device(udid) =>
          if env.loaded.Err? || !CliFresh(env.loaded.value, bundleID, env.now, TTL_CLI) || !env.opens then Err(1)
          else
            var scope := Include(Setting(parsed.sets, "include-tmp"), Setting(parsed.sets, "include-caches"),
                                   Setting(parsed.sets, "include-documents"));
            Ok(CliOptions(bundleID, udid, Defaulted(scope),
                          Setting(parsed.sets, "dry-run"), Setting(parsed.sets, "yes")))
  }

  /** The decision after the plans: an exit code, or None to delete. */
  function CliConfirm(o: CliOptions, env: CliEnv): Option<int> {
    if o.dryRun then Some(0)
    else if o.scope.documents then
      if env.typed.Err? then Some(1)
      else if TrimSpace(env.typed.value) != o.bundleID then Some(0)
      else None
    else if !o.yes then
      if env.confirmed.Err? then Some(1)
      else if !env.confirmed.value then Some(0)
      else None
    else None
  }

  /** The exit codes: 2 for the command line, 0 for no device, otherwise 1. */
  lemma CliRefusalIff(args: seq<string>, env: CliEnv)
    ensures var g, parsed, positionals := CliGate(args, env), ParsedLine(args), Split(CleanFlags(), args).1;
      && (g == Err(2) <==> parsed.stop.Failed? || positionals == [])
      && (g == Err(0) <==>
            && parsed.stop.Done? && positionals != [] && env.resolved.NoDevices?
            && PrintableASCII(TrimSpace(positionals[0])) && !AppleSystem(TrimSpace(positionals[0])))
      && (g.Err? ==> g.error in {0, 1, 2})
  {
  }

  /** A dry run and a declined prompt exit with 0, a prompt that fails with 1. */
  lemma CliConfirmCodes(o: CliOptions, env: CliEnv)
    ensures CliConfirm(o, env) == Some(0) <==>
      || o.dryRun
      || (o.scope.documents && env.typed.Ok? && TrimSpace(env.typed.value) != o.bundleID)
      || (!o.scope.documents && !o.yes && env.confirmed == Ok(false))
    ensures CliConfirm(o, env) == Some(1) <==>
      && !o.dryRun
      && if o.scope.documents then env.typed.Err? else !o.yes && env.confirmed.Err?
    ensures CliConfirm(o, env).Some? ==> CliConfirm(o, env).value in {0, 1}
  {
  }

  /** What a run did to the sandbox. */
  datatype Deed = Nothing | Ran(plans: seq<CleanPlan>, traces: seq<Trace>)

  /**
   * Deletes exactly when both decisions say so and the plans could be built. `walks` are the calls of
   * the planning and `failed` the error that ended it; a refused run makes no call at all.
   */
  method RunAppsClean(args: seq<string>, env: CliEnv, fs: FS)
      returns (exit: int, ghost deed: Deed, ghost walks: seq<Call>, ghost failed: Option<Error>)
    modifies fs
    ensures deed.Nothing? ==> fs.tree == old(fs.tree) && fs.log == old(fs.log) + walks
    ensures CliGate(args, env).Err? ==> deed.Nothing? && walks == [] && exit == CliGate(args, env).error
    ensures CliGate(args, env).Ok? ==> Walks(Targets(CliGate(args, env).value.scope), walks, failed)
    ensures deed.Ran? <==> CliGate(args, env).Ok? && failed.None? && CliConfirm(CliGate(args, env).value, env).None?
    ensures deed.Ran? ==>
      && Cleaned(old(fs.tree), fs.tree, Targets(CliGate(args, env).value.scope), deed.plans, deed.traces)
      && fs.log == old(fs.log) + walks + RunCalls(deed.plans, deed.traces)
    ensures CliGate(args, env).Ok? && failed.Some? ==> exit == 1
    ensures CliGate(args, env).Ok? && failed.None? && deed.Nothing? ==>
      Some(exit) == CliConfirm(CliGate(args, env).value, env)
    ensures deed.Ran? ==>
      (exit == 0 || exit == 1) && (exit == 0 <==> forall k :: 0 <= k < |deed.traces| ==> AllSucceeded(deed.traces[k]))
  {
    deed, walks, failed := Nothing, [], None;
    var gate := CheckCliGates(args, env);
    if gate.Err? {
      return gate.error, Nothing, [], None;
    }
    var o := gate.value;
    var targets := CollectTargets(o.scope);
    var built;
    built, walks := BuildPlans(fs, targets);
    if built.Err? {
      return 1, Nothing, walks, Some(built.error);
    }
    var plans := built.value;
    if o.dryRun {
      return 0, Nothing, walks, None;
    }
    if o.scope.documents {
      if env.typed.Err? {
        return 1, Nothing, walks, None;
      }
      if TrimSpace(env.typed.value) != o.bundleID {
        return 0, Nothing, walks, None;
      }
    } else if !o.yes {
      if env.confirmed.Err? {
        return 1, Nothing, walks, None;
      }
      if !env.confirmed.value {
        return 0, Nothing, walks, None;
      }
    }
    var results;
    ghost var traces;
    results, traces := ExecutePlans(fs, plans);
    var _, _, _, code := ReportResults(results);
    FailuresReported(plans, traces, results);
    deed := Ran(plans, traces);
    exit := code;
  }

  /** Everything before the sandbox is used, in the order of the source. */
  method CheckCliGates(args: seq<string>, env: CliEnv) returns (r: Result<CliOptions, int>)
    ensures r == CliGate(args, env)
  {
    var flagArgs, positionals := SplitFlagsAndPositionals(CleanFlags(), args);
    var parsed := Parse(CleanFlags(), flagArgs);
    if parsed.stop.Failed? {
      return Err(2);
    }
    if |positionals| < 1 {
      return Err(2);
    }
    var bundleID := TrimSpace(positionals[0]);
    if !PrintableASCII(bundleID) {
      return Err(1);
    }
    if AppleSystem(bundleID) {
      return Err(1);
    }
    var scope := Include(Setting(parsed.sets, "include-tmp"), Setting(parsed.sets, "include-caches"),
                         Setting(parsed.sets, "include-documents"));
    if !scope.tmp && !scope.caches && !scope.documents {
      scope := scope.(tmp := true, caches := true);
    }
    if env.resolved.NoDevices? {
      return Err(0);
    }
    if env.resolved.ResolveFailed? {
      return Err(1);
    }
    if env.loaded.Err? {
      return Err(1);
    }
    var isFresh := ProbeVendedFresh(env.loaded.value, bundleID, env.now, TTL_CLI);
    if !isFresh {
      return Err(1);
    }
    if !env.opens {
      return Err(1);
    }
    r := Ok(CliOptions(bundleID, env.resolved.udid, scope,
                       Setting(parsed.sets, "dry-run"), Setting(parsed.sets, "yes")));
  }

  method CollectTargets(scope: Include) returns (targets: seq<Target>)
    ensures targets == Targets(scope)
  {
    targets := [];
    if scope.tmp {
      targets := targets + [TARGET_TMP];
    }
    if scope.caches {
      targets := targets + [TARGET_CACHES];
    }
    if scope.documents {
      targets := targets + [TARGET_DOCUMENTS];
    }
  }

  // ---- MCP ----------------------------------------------------------------

  /** A JSON argument as the request carries it. */
  datatype Json = Bool(b: bool) | Text(s: string) | Number | Null

  /** dry_run disarms only as a real false. */
  function DryRunConservative(dryRun: Option<Json>): bool {
    match dryRun
    case Some(Bool(b)) => b
    case _ => true
  }

  datatype McpRequest = McpRequest(
    bundleID: string, confirmBundleID: string, scope: Include, ackDocuments: bool, dryRun: Option<Json>)

  datatype McpEnv = McpEnv(resolved: Resolved, loaded: Result<seq<ProbeResult>, Error>, now: int, opens: bool)

  datatype McpOptions = McpOptions(bundleID: string, udid: string, scope: Include, dryRun: bool)

  function McpGate(req: McpRequest, env: McpEnv): Option<McpOptions> {
    var bundleID := TrimSpace(req.bundleID);
    var scope := Defaulted(req.scope);
    var dryRun := DryRunConservative(req.dryRun);
    if bundleID == "" || AppleSystem(bundleID) || !PrintableASCII(bundleID) then None
    else if req.confirmBundleID != "" && !PrintableASCII(req.confirmBundleID) then None
    else if !dryRun && (TrimSpace(req.confirmBundleID) != bundleID || (scope.documents && !req.ackDocuments)) then None
    else if !env.resolved.Device? || env.loaded.Err? || !McpFresh(env.loaded.value, bundleID, env.now) || !env.opens then None
    else Some(McpOptions(bundleID, env.resolved.udid, scope, dryRun))
  }

  /** One target of a dry run, with the first ten paths. */
  datatype PlanRow = PlanRow(target: string, totalBytes: I64, fileCount: nat, sample: seq<string>)

  datatype McpReply = ToolError | DryRun(rows: seq<PlanRow>, total: I64) | Confirmed(results: seq<CleanResult>, freed: I64)

  const SAMPLE: nat := 10

  ghost predicate RowFor(row: PlanRow, plan: CleanPlan) {
    && row.target == plan.target.name && row.totalBytes == plan.totalBytes && row.fileCount == |plan.files|
    && |row.sample| == (if |plan.files| < 10 then |plan.files| else 10)
    && forall i :: 0 <= i < |row.sample| ==> row.sample[i] == plan.files[i].path
  }

  /** Rows and total of exact plans, one per target. */
  ghost predicate DryRunOf(t: Tree, targets: seq<Target>, plans: seq<CleanPlan>, reply: McpReply) {
    && PlansFor(t, targets, plans)
    && reply.DryRun? && |reply.rows| == |plans|
    && (forall k :: 0 <= k < |plans| ==> RowFor(reply.rows[k], plans[k]))
    && reply.total == DryRunTotal(plans)
  }

  /** The reports of a clean that turned t into t', and their freed total. */
  ghost predicate ConfirmedOf(t: Tree, t': Tree, targets: seq<Target>, deed: Deed, reply: McpReply) {
    && deed.Ran? && reply.Confirmed?
    && Cleaned(t, t', targets, deed.plans, deed.traces)
    && Reports(deed.plans, deed.traces, reply.results)
    && reply.freed == SumFreed(reply.results)
  }

  method HandleAppsClean(req: McpRequest, env: McpEnv, fs: FS)
      returns (reply: McpReply, ghost deed: Deed, ghost walks: seq<Call>, ghost failed: Option<Error>)
    modifies fs
    ensures reply.ToolError? <==> McpGate(req, env).None? || failed.Some?
    ensures McpGate(req, env).None? ==> walks == []
    ensures McpGate(req, env).Some? ==> Walks(Targets(McpGate(req, env).value.scope), walks, failed)
    ensures deed.Nothing? ==> fs.tree == old(fs.tree) && fs.log == old(fs.log) + walks
    ensures deed.Ran? <==> reply.Confirmed?
    ensures reply.DryRun? ==>
      && McpGate(req, env).value.dryRun
      && exists plans :: DryRunOf(old(fs.tree), Targets(McpGate(req, env).value.scope), plans, reply)
    ensures reply.Confirmed? ==>
      && !McpGate(req, env).value.dryRun
      && ConfirmedOf(old(fs.tree), fs.tree, Targets(McpGate(req, env).value.scope), deed, reply)
      && fs.log == old(fs.log) + walks + RunCalls(deed.plans, deed.traces)
  {
    deed, walks, failed := Nothing, [], None;
    var gate := CheckMcpGates(req, env);
    if gate.None? {
      return ToolError, Nothing, [], None;
    }
    var targets := CollectTargets(gate.value.scope);
    var built;
    built, walks := BuildPlans(fs, targets);
    if built.Err? {
      return ToolError, Nothing, walks, Some(built.error);
    }
    var plans := built.value;
    if gate.value.dryRun {
      var rows, total := DryRunRows(plans);
      reply := DryRun(rows, total);
      assert DryRunOf(old(fs.tree), targets, plans, reply);
      return;
    }
    var results;
    ghost var traces;
    results, traces := ExecutePlans(fs, plans);
    var freed := SumResults(results);
    deed := Ran(plans, traces);
    reply := Confirmed(results, freed);
  }

  /** Everything before the sandbox is used, in the order of the source. */
  method CheckMcpGates(req: McpRequest, env: McpEnv) returns (r: Option<McpOptions>)
    ensures r == McpGate(req, env)
  {
    var bundleID := TrimSpace(req.bundleID);
    var scope := req.scope;
    var dryRun := DryRunConservative(req.dryRun);
    if bundleID == "" {
      return None;
    }
    if AppleSystem(bundleID) {
      return None;
    }
    if !PrintableASCII(bundleID) {
      return None;
    }
    if req.confirmBundleID != "" && !PrintableASCII(req.confirmBundleID) {
      return None;
    }
    if !scope.tmp && !scope.caches && !scope.documents {
      scope := scope.(tmp := true, caches := true);
    }
    if !dryRun {
      if TrimSpace(req.confirmBundleID) != bundleID {
        return None;
      }
      if scope.documents && !req.ackDocuments {
        return None;
      }
    }
    if !env.resolved.Device? {
      return None;
    }
    if env.loaded.Err? {
      return None;
    }
    var isFresh, age, found := ProbeVendedAndFresh(env.loaded.value, bundleID, env.now);
    if !found {
      return None;
    }
    if !isFresh {
      return None;
    }
    if !env.opens {
      return None;
    }
    r := Some(McpOptions(bundleID, env.resolved.udid, scope, dryRun));
  }

  /** The first paths of a plan. */
  method SamplePaths(files: seq<FileInfo>) returns (sample: seq<string>)
    ensures |sample| == if |files| < SAMPLE then |files| else SAMPLE
    ensures forall i :: 0 <= i < |sample| ==> sample[i] == files[i].path
  {
    sample := [];
    var i := 0;
    while i < |files|
      invariant 0 <= i <= |files| && |sample| == i <= SAMPLE
      invariant forall k :: 0 <= k < i ==> sample[k] == files[k].path
    {
      if i >= SAMPLE {
        break;
      }
      sample := sample + [files[i].path];
      i := i + 1;
    }
  }

  method DryRunRows(plans: seq<CleanPlan>) returns (rows: seq<PlanRow>, total: I64)
    ensures |rows| == |plans| && forall k :: 0 <= k < |plans| ==> RowFor(rows[k], plans[k])
    ensures total == DryRunTotal(plans)
  {
    rows, total := [], 0;
    var i := 0;
    while i < |plans|
      invariant 0 <= i <= |plans| && |rows| == i
      invariant forall k :: 0 <= k < i ==> RowFor(rows[k], plans[k])
      invariant total == DryRunTotal(plans[..i])
    {
      TakeBack(plans, i);
      var sample := SamplePaths(plans[i].files);
      rows := rows + [PlanRow(plans[i].target.name, plans[i].totalBytes, |plans[i].files|, sample)];
      total := WrapI64(total + plans[i].totalBytes);
      i := i + 1;
    }
    TakeAll(plans, i);
  }

  method SumResults(results: seq<CleanResult>) returns (freed: I64)
    ensures freed == SumFreed(results)
  {
    freed := 0;
    var i := 0;
    while i < |results|
      invariant 0 <= i <= |results|
      invariant freed == SumFreed(results[..i])
    {
      TakeBack(results, i);
      freed := WrapI64(freed + results[i].bytes);
      i := i + 1;
    }
    TakeAll(results, i);
  }

  // ---- A dry run and a later real run -------------------------------------

  lemma RowIsReport(t: Tree, row: PlanRow, dry: CleanPlan, plan: CleanPlan, trace: Trace)
    requires PlanFor(t, dry) && PlanFor(t, plan) && dry.target == plan.target && RowFor(row, dry)
    requires Answers(plan, trace) && Credit(plan, trace) == Tally(plan.files)
    ensures var res := Report(plan, trace);
      row.target == res.target.name && row.fileCount == res.removed && row.totalBytes == res.bytes
  {
    TwoWalksAgree(t, dry, plan);
    TallyCounts(plan.files);
  }

  /** One row of a dry run against one result of the real run. */
  predicate RowTells(row: PlanRow, res: CleanResult) {
    && row.target == res.target.name && row.fileCount == res.removed && row.totalBytes == res.bytes
    && res.failures == []
  }

  lemma DryRunRowTells(t: Tree, scope: Include, dry: seq<CleanPlan>, shown: McpReply,
                       plans: seq<CleanPlan>, traces: seq<Trace>, results: seq<CleanResult>, k: nat)
    requires WellFormed(t) && k < |dry|
    requires DryRunOf(t, Targets(scope), dry, shown)
    requires PlansFor(t, Targets(scope), plans) && PlannedOn(t, plans) && Reports(plans, traces, results)
    requires GoodRun(t, plans, traces) && SmoothRun(t, plans, traces)
    ensures RowTells(shown.rows[k], results[k])
  {
    SmoothReport(t, plans, traces, k);
    RowIsReport(t, shown.rows[k], dry[k], plans[k], traces[k]);
  }

  lemma DropIsDryRun(t: Tree, targets: seq<Target>, dry: seq<CleanPlan>, plans: seq<CleanPlan>, traces: seq<Trace>)
    requires WellFormed(t) && |plans| == |traces|
    requires PlansFor(t, targets, dry) && PlansFor(t, targets, plans) && PlannedOn(t, plans)
    requires GoodRun(t, plans, traces) && SmoothRun(t, plans, traces)
    ensures Splits(Measure(FilesOf(t)), Measure(FilesOf(RunPlans(t, plans, traces))), Planned(dry))
    ensures DryRunTotal(dry) == WrapI64(Planned(dry).bytes)
  {
    DryRunPredictsRun(t, plans, traces);
    SamePlanned(t, targets, dry, plans);
    DryRunTotalIsPlanned(dry);
  }

  lemma ScopePlanned(t: Tree, scope: Include, plans: seq<CleanPlan>)
    requires PlansFor(t, Targets(scope), plans)
    ensures PlannedOn(t, plans)
  {
    TargetsApart(scope);
  }

  /** The gates choose the same targets, bundle and device for a dry run and for the real run. */
  lemma GateKeepsScope(req: McpRequest, env: McpEnv)
    requires McpGate(req, env).Some?
    ensures Chosen(req.scope, McpGate(req, env).value.scope)
    ensures McpGate(req, env).value.bundleID == TrimSpace(req.bundleID)
    ensures env.resolved == Device(McpGate(req, env).value.udid)
    ensures McpGate(req, env).value.dryRun <==> req.dryRun != Some(Bool(false))
  {
  }

  /** Two requests for the same cleaning that differ in what decides between a dry run and a deletion. */
  predicate SameButConfirmed(dry: McpRequest, later: McpRequest) {
    later == dry.(dryRun := later.dryRun, confirmBundleID := later.confirmBundleID, ackDocuments := later.ackDocuments)
  }

  lemma SameScope(dry: McpRequest, later: McpRequest, env: McpEnv, env': McpEnv)
    requires SameButConfirmed(dry, later) && McpGate(dry, env).Some? && McpGate(later, env').Some?
    ensures McpGate(dry, env).value.scope == McpGate(later, env').value.scope
  {
    GateKeepsScope(dry, env);
    GateKeepsScope(later, env');
  }

  /** A dry run shows a row for each target exactly when the request asks for it. */
  lemma ShownTargets(t: Tree, req: McpRequest, env: McpEnv, dry: seq<CleanPlan>, shown: McpReply)
    requires McpGate(req, env).Some? && DryRunOf(t, Targets(McpGate(req, env).value.scope), dry, shown)
    ensures PlansChosen(req.scope, dry) && |shown.rows| == |dry|
    ensures forall k :: 0 <= k < |dry| ==> shown.rows[k].target == dry[k].target.name
  {
    GateKeepsScope(req, env);
    TargetsChosen(t, req.scope, McpGate(req, env).value.scope, dry);
  }

  /**
   * A dry-run reply tells what a call on the same tree that differs from it in dry_run and the
   * confirmations answers when nothing fails and the listings are complete, though that call walks
   * the tree anew: row by row the same target, files and bytes, no failures, and the same total, which
   * is the drop in the file system.
   */
  lemma DryRunTellsRun(t: Tree, t': Tree, dryReq: McpRequest, laterReq: McpRequest, env: McpEnv, env': McpEnv,
                       dry: seq<CleanPlan>, shown: McpReply, deed: Deed, done: McpReply)
    requires WellFormed(t) && SameButConfirmed(dryReq, laterReq)
    requires McpGate(dryReq, env).Some? && McpGate(laterReq, env').Some?
    requires DryRunOf(t, Targets(McpGate(dryReq, env).value.scope), dry, shown)
    requires ConfirmedOf(t, t', Targets(McpGate(laterReq, env').value.scope), deed, done)
    requires SmoothRun(t, deed.plans, deed.traces)
    ensures shown.total == done.freed
    ensures |shown.rows| == |done.results| && forall k :: 0 <= k < |shown.rows| ==> RowTells(shown.rows[k], done.results[k])
    ensures Splits(Measure(FilesOf(t)), Measure(FilesOf(t')), Planned(dry)) && shown.total == WrapI64(Planned(dry).bytes)
  {
    SameScope(dryReq, laterReq, env, env');
    DryRunTellsScope(t, t', McpGate(dryReq, env).value.scope, dry, shown, deed, done);
  }

  lemma DryRunTellsScope(t: Tree, t': Tree, scope: Include, dry: seq<CleanPlan>, shown: McpReply, deed: Deed, done: McpReply)
    requires WellFormed(t)
    requires DryRunOf(t, Targets(scope), dry, shown)
    requires ConfirmedOf(t, t', Targets(scope), deed, done)
    requires SmoothRun(t, deed.plans, deed.traces)
    ensures shown.total == done.freed
    ensures |shown.rows| == |done.results| && forall k :: 0 <= k < |shown.rows| ==> RowTells(shown.rows[k], done.results[k])
    ensures Splits(Measure(FilesOf(t)), Measure(FilesOf(t')), Planned(dry)) && shown.total == WrapI64(Planned(dry).bytes)
  {
    var plans, traces := deed.plans, deed.traces;
    ScopePlanned(t, scope, plans);
    DryRunFigureIsRunFigure(t, Targets(scope), dry, plans, traces, done.results);
    forall k | 0 <= k < |shown.rows|
      ensures RowTells(shown.rows[k], done.results[k])
    {
      DryRunRowTells(t, scope, dry, shown, plans, traces, done.results, k);
    }
    DropIsDryRun(t, Targets(scope), dry, plans, traces);
  }
}
