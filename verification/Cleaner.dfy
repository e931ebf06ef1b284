/**
 * BuildPlan and Execute over a mutable sandbox, with the accounting they report.
 * Exact sums are kept as Totals; the reported Bytes and TotalBytes are those sums in an int64.
 */
module Cleaner {
  import opened Common
  import opened Paths
  import opened SandboxFs

  datatype Target = Target(name: string, root: string)

  const TARGET_TMP := Target("tmp", "tmp")
  const TARGET_CACHES := Target("Library/Caches", "Library/Caches")
  const TARGET_DOCUMENTS := Target("Documents", "Documents")

  datatype Failure = Failure(path: string, err: Error)

  datatype CleanPlan = CleanPlan(target: Target, files: seq<FileInfo>, totalBytes: I64)

  datatype CleanResult = CleanResult(target: Target, removed: nat, bytes: I64, failures: seq<Failure>)

  // ---- Exact tallies ------------------------------------------------------

  datatype Totals = Totals(count: nat, bytes: nat)

  function Zero(): Totals {
    Totals(0, 0)
  }

  function Add(a: Totals, b: Totals): Totals {
    Totals(a.count + b.count, a.bytes + b.bytes)
  }

  function One(f: FileInfo): Totals {
    Totals(1, f.size)
  }

  function Tally(files: seq<FileInfo>): Totals {
    if files == [] then Zero() else Add(Tally(files[..|files| - 1]), One(files[|files| - 1]))
  }

  /** Assigns a planned file to the listed child it is charged to. */
  type Bucketing = FileInfo -> string

  function ByTopLevelChild(root: string): Bucketing {
    (f: FileInfo) => TopLevelChild(root, f.path)
  }

  /** The planned files charged to one of kids. */
  function TallyIn(kid: Bucketing, files: seq<FileInfo>, kids: set<string>): Totals {
    if files == [] then Zero()
    else
      var f := files[|files| - 1];
      var rest := TallyIn(kid, files[..|files| - 1], kids);
      if kid(f) in kids then Add(rest, One(f)) else rest
  }

  /** The planned files that are no longer in the tree. */
  function TallyGone(files: seq<FileInfo>, t: Tree): Totals {
    if files == [] then Zero()
    else
      var f := files[|files| - 1];
      var rest := TallyGone(files[..|files| - 1], t);
      if f.path !in t then Add(rest, One(f)) else rest
  }

  // ---- BuildPlan ----------------------------------------------------------

  /** The plan lists every file at or below the root exactly once, with its size. */
  ghost predicate PlanFor(t: Tree, plan: CleanPlan) {
    && (forall i :: 0 <= i < |plan.files| ==>
          var f := plan.files[i];
          f.path in t && t[f.path] == File(f.size) && Within(plan.target.root, f.path))
    && (forall i, j :: 0 <= i < j < |plan.files| ==> plan.files[i].path != plan.files[j].path)
    && (forall p :: p in t && t[p].File? && Within(plan.target.root, p) ==>
          exists i :: 0 <= i < |plan.files| && plan.files[i].path == p)
    && plan.totalBytes == WrapI64(Tally(plan.files).bytes)
  }

  /** The first error a walk handed to its callback. */
  function FirstError(visits: seq<Visit>): Option<Error> {
    if visits == [] then None
    else if visits[0].err.Some? then visits[0].err
    else FirstError(visits[1..])
  }

  lemma {:induction false} FirstErrorAt(visits: seq<Visit>, i: nat)
    requires i < |visits| && visits[i].err.Some?
    requires forall k :: 0 <= k < i ==> visits[k].err.None?
    ensures FirstError(visits) == visits[i].err
  {
    if i > 0 {
      FirstErrorAt(visits[1..], i - 1);
    }
  }

  lemma {:induction false} NoFirstError(visits: seq<Visit>)
    requires Clean(visits)
    ensures FirstError(visits) == None
  {
    if visits != [] {
      NoFirstError(visits[1..]);
    }
  }

  /** The callback's first error wins, then the walk's own; otherwise there is an exact plan. */
  method BuildPlan(fs: FS, target: Target)
      returns (r: Result<CleanPlan, Error>, ghost visits: seq<Visit>, ghost walkErr: Option<Error>)
    modifies fs`log
    ensures fs.log == old(fs.log) + [Walked(target.root, visits, walkErr)]
    ensures r.Ok? ==> r.value.target == target && PlanFor(fs.tree, r.value)
    ensures FirstError(visits).Some? ==> r == Err(FirstError(visits).value)
    ensures FirstError(visits).None? && walkErr.Some? ==> r == Err(walkErr.value)
    ensures FirstError(visits).None? && walkErr.None? ==> r.Ok?
  {
    var walk, err := fs.Walk(target.root);
    visits, walkErr := walk, err;
    r := PlanOfWalk(fs.tree, target, walk, err);
  }

  /** The walk callback and its aftermath: stop at an error, skip directories, add up the files. */
  method PlanOfWalk(ghost t: Tree, target: Target, visits: seq<Visit>, walkErr: Option<Error>)
      returns (r: Result<CleanPlan, Error>)
    requires walkErr.None? ==> WalkOf(t, target.root, visits)
    ensures FirstError(visits).Some? ==> r == Err(FirstError(visits).value)
    ensures FirstError(visits).None? && walkErr.Some? ==> r == Err(walkErr.value)
    ensures FirstError(visits).None? && walkErr.None? ==> r.Ok?
    ensures r.Ok? ==> r.value.target == target && PlanFor(t, r.value)
  {
    var plan := CleanPlan(target, [], 0);
    var i := 0;
    while i < |visits|
      invariant 0 <= i <= |visits|
      invariant forall k :: 0 <= k < i ==> visits[k].err.None?
      invariant plan.target == target
      invariant PlanSoFar(visits[..i], plan)
    {
      var v := visits[i];
      if v.err.Some? {
        FirstErrorAt(visits, i);
        return Err(v.err.value);
      }
      PlanStep(visits[..i], v, plan);
      TakeStep(visits, i);
      if !v.info.isDir {
        plan := plan.(files := plan.files + [v.info], totalBytes := WrapI64(plan.totalBytes + v.info.size));
      }
      i := i + 1;
    }
    TakeAll(visits, i);
    NoFirstError(visits);
    if walkErr.Some? {
      return Err(walkErr.value);
    }
    PlannedIsPlan(t, target.root, visits, plan);
    r := Ok(plan);
  }

  function FilesOnly(visits: seq<Visit>): seq<FileInfo> {
    if visits == [] then []
    else
      var v := visits[|visits| - 1];
      FilesOnly(visits[..|visits| - 1]) + if v.info.isDir then [] else [v.info]
  }

  lemma FilesOnlyStep(visits: seq<Visit>, v: Visit)
    ensures FilesOnly(visits + [v]) == FilesOnly(visits) + if v.info.isDir then [] else [v.info]
  {
    SnocTake(visits, v);
  }

  lemma TallyStep(files: seq<FileInfo>, f: FileInfo)
    ensures Tally(files + [f]) == Add(Tally(files), One(f))
    ensures WrapI64(Tally(files + [f]).bytes) == WrapI64(WrapI64(Tally(files).bytes) + f.size)
  {
    SnocTake(files, f);
    WrapI64Add(Tally(files).bytes, f.size);
  }

  lemma TotalStep(plan: CleanPlan, f: FileInfo)
    requires plan.totalBytes == WrapI64(Tally(plan.files).bytes)
    ensures WrapI64(Tally(plan.files + [f]).bytes) == WrapI64(plan.totalBytes + f.size)
  {
    TallyStep(plan.files, f);
  }

  ghost predicate PlanSoFar(visits: seq<Visit>, plan: CleanPlan) {
    plan.files == FilesOnly(visits) && plan.totalBytes == WrapI64(Tally(plan.files).bytes)
  }

  lemma PlanStep(visits: seq<Visit>, v: Visit, plan: CleanPlan)
    requires PlanSoFar(visits, plan)
    ensures var f := v.info;
      if f.isDir then PlanSoFar(visits + [v], plan)
      else PlanSoFar(visits + [v], plan.(files := plan.files + [f], totalBytes := WrapI64(plan.totalBytes + f.size)))
  {
    FilesOnlyStep(visits, v);
    TotalStep(plan, v.info);
  }

  lemma {:induction false} FilesOnlyHas(visits: seq<Visit>, i: nat)
    requires i < |visits| && !visits[i].info.isDir
    ensures visits[i].info in FilesOnly(visits)
  {
    if i < |visits| - 1 {
      FilesOnlyHas(visits[..|visits| - 1], i);
    }
  }

  lemma {:induction false} FilesOnlyFrom(visits: seq<Visit>, f: FileInfo) returns (i: nat)
    requires f in FilesOnly(visits)
    ensures i < |visits| && visits[i].info == f && !f.isDir
  {
    var n := |visits| - 1;
    if f in FilesOnly(visits[..n]) {
      i := FilesOnlyFrom(visits[..n], f);
    } else {
      i := n;
    }
  }

  lemma {:induction false} FilesOnlyDistinct(visits: seq<Visit>)
    requires forall i, j :: 0 <= i < j < |visits| ==> visits[i].info.path != visits[j].info.path
    ensures var fs := FilesOnly(visits); forall i, j :: 0 <= i < j < |fs| ==> fs[i].path != fs[j].path
  {
    if visits != [] {
      var n := |visits| - 1;
      var fs, rest := FilesOnly(visits), FilesOnly(visits[..n]);
      FilesOnlyDistinct(visits[..n]);
      forall i | 0 <= i < |rest|
        ensures rest[i].path != visits[n].info.path
      {
        var k := FilesOnlyFrom(visits[..n], rest[i]);
      }
    }
  }

  lemma FileIsListed(t: Tree, root: string, visits: seq<Visit>, p: string)
    requires WalkOf(t, root, visits) && p in t && t[p].File? && Within(root, p)
    ensures exists i :: 0 <= i < |FilesOnly(visits)| && FilesOnly(visits)[i].path == p
  {
    var k :| 0 <= k < |visits| && visits[k].info.path == p;
    FilesOnlyHas(visits, k);
    var i :| 0 <= i < |FilesOnly(visits)| && FilesOnly(visits)[i] == visits[k].info;
  }

  lemma PlannedIsPlan(t: Tree, root: string, visits: seq<Visit>, plan: CleanPlan)
    requires WalkOf(t, root, visits) && plan.target.root == root
    requires plan.files == FilesOnly(visits) && plan.totalBytes == WrapI64(Tally(plan.files).bytes)
    ensures PlanFor(t, plan)
  {
    FilesOnlyDistinct(visits);
    forall i | 0 <= i < |plan.files|
      ensures var f := plan.files[i]; f.path in t && t[f.path] == File(f.size) && Within(root, f.path)
    {
      var k := FilesOnlyFrom(visits, plan.files[i]);
    }
    forall p | p in t && t[p].File? && Within(root, p)
      ensures exists i :: 0 <= i < |plan.files| && plan.files[i].path == p
    {
      FileIsListed(t, root, visits, p);
    }
  }

  // ---- Execute ------------------------------------------------------------

  /** What the device did during one Execute. */
  datatype Trace =
    | ListFailed(err: Error)
    | Children(entries: seq<FileInfo>, tries: seq<Attempt>)
    | PerFile(tries: seq<Attempt>)

  /** The removals issued: one RemoveAll per listed child, or one Remove per planned file. */
  ghost predicate TraceOf(plan: CleanPlan, trace: Trace) {
    match trace
    case ListFailed(_) => plan.target != TARGET_DOCUMENTS
    case Children(entries, tries) =>
      && plan.target != TARGET_DOCUMENTS
      && |tries| == |entries|
      && forall i :: 0 <= i < |tries| ==>
           Possible(tries[i]) && tries[i].deep && tries[i].path == ChildPath(plan.target.root, entries[i])
    case PerFile(tries) =>
      && plan.target == TARGET_DOCUMENTS
      && |tries| == |plan.files|
      && forall i :: 0 <= i < |tries| ==>
           Possible(tries[i]) && !tries[i].deep && tries[i].path == plan.files[i].path
  }

  /** A per-file trace answers for every planned file. */
  predicate Answers(plan: CleanPlan, trace: Trace) {
    trace.PerFile? ==> |trace.tries| == |plan.files|
  }

  function Tries(trace: Trace): seq<Attempt> {
    if trace.ListFailed? then [] else trace.tries
  }

  function RunTries(t: Tree, tries: seq<Attempt>): Tree {
    if tries == [] then t else Apply(RunTries(t, tries[..|tries| - 1]), tries[|tries| - 1])
  }

  function FailuresOf(tries: seq<Attempt>): seq<Failure> {
    if tries == [] then []
    else
      var a := tries[|tries| - 1];
      FailuresOf(tries[..|tries| - 1]) + if a.reply.Failed? then [Failure(a.path, a.reply.err)] else []
  }

  /** Every removed child earns the bucket of planned files that lie under it. */
  function CreditChildren(kid: Bucketing, files: seq<FileInfo>, tries: seq<Attempt>): Totals {
    if tries == [] then Zero()
    else
      var a := tries[|tries| - 1];
      var rest := CreditChildren(kid, files, tries[..|tries| - 1]);
      if a.reply.Removed? then Add(rest, TallyIn(kid, files, {a.path})) else rest
  }

  function CreditFiles(files: seq<FileInfo>, tries: seq<Attempt>): Totals
    requires |tries| == |files|
  {
    if tries == [] then Zero()
    else
      var n := |tries| - 1;
      var rest := CreditFiles(files[..n], tries[..n]);
      if tries[n].reply.Removed? then Add(rest, One(files[n])) else rest
  }

  function Credit(plan: CleanPlan, trace: Trace): Totals
    requires Answers(plan, trace)
  {
    match trace
    case ListFailed(_) => Zero()
    case Children(_, tries) => CreditChildren(ByTopLevelChild(plan.target.root), plan.files, tries)
    case PerFile(tries) => CreditFiles(plan.files, tries)
  }

  function Report(plan: CleanPlan, trace: Trace): CleanResult
    requires Answers(plan, trace)
  {
    var credit := Credit(plan, trace);
    CleanResult(plan.target, credit.count, WrapI64(credit.bytes),
      if trace.ListFailed? then [Failure(plan.target.root, trace.err)] else FailuresOf(trace.tries))
  }

  /** No listing and no removal failed. */
  predicate AllSucceeded(trace: Trace) {
    !trace.ListFailed? && forall i :: 0 <= i < |trace.tries| ==> trace.tries[i].reply.Removed?
  }

  /** The failed tries, by position, are the failures with path and error. */
  ghost predicate FailuresAt(failures: seq<Failure>, tries: seq<Attempt>, at: seq<nat>) {
    && |at| == |failures|
    && (forall j :: 0 <= j < |at| ==>
          && at[j] < |tries| && tries[at[j]].reply.Failed?
          && failures[j] == Failure(tries[at[j]].path, tries[at[j]].reply.err))
    && (forall j, k :: 0 <= j < k < |at| ==> at[j] < at[k])
    && (forall i: nat :: i < |tries| && tries[i].reply.Failed? ==> i in at)
  }

  lemma FailuresAtStep(failures: seq<Failure>, tries: seq<Attempt>, at: seq<nat>, a: Attempt)
    requires FailuresAt(failures, tries, at)
    ensures if a.reply.Failed? then FailuresAt(failures + [Failure(a.path, a.reply.err)], tries + [a], at + [|tries|])
            else FailuresAt(failures, tries + [a], at)
  {
    var more := tries + [a];
    assert more[|tries|] == a && forall i :: 0 <= i < |tries| ==> more[i] == tries[i];
    if a.reply.Failed? {
      var at' := at + [|tries|];
      assert at'[|at|] == |tries|;
      forall i: nat | i < |more| && more[i].reply.Failed?
        ensures i in at'
      {
        InConcat(at, [|tries|], i);
      }
    }
  }

  lemma {:induction false} FailuresInOrder(tries: seq<Attempt>) returns (at: seq<nat>)
    ensures FailuresAt(FailuresOf(tries), tries, at)
  {
    if tries == [] {
      at := [];
    } else {
      var n := |tries| - 1;
      at := FailuresInOrder(tries[..n]);
      FailuresAtStep(FailuresOf(tries[..n]), tries[..n], at, tries[n]);
      TakeStep(tries, n);
      TakeAll(tries, n + 1);
      at := if tries[n].reply.Failed? then at + [n] else at;
    }
  }

  lemma {:induction false} NoFailuresIff(tries: seq<Attempt>)
    ensures FailuresOf(tries) == [] <==> forall i :: 0 <= i < |tries| ==> tries[i].reply.Removed?
  {
    if tries != [] {
      NoFailuresIff(tries[..|tries| - 1]);
    }
  }

  /** What a result reports as failed: the target whose listing failed, or each failed try in order. */
  ghost predicate FailuresFit(plan: CleanPlan, trace: Trace, failures: seq<Failure>) {
    && (trace.ListFailed? ==> failures == [Failure(plan.target.root, trace.err)])
    && (!trace.ListFailed? ==> exists at :: FailuresAt(failures, trace.tries, at))
    && (failures == [] <==> AllSucceeded(trace))
  }

  lemma ReportedFailures(plan: CleanPlan, trace: Trace)
    requires Answers(plan, trace)
    ensures FailuresFit(plan, trace, Report(plan, trace).failures)
  {
    if !trace.ListFailed? {
      var at := FailuresInOrder(trace.tries);
      NoFailuresIff(trace.tries);
    }
  }

  /** The calls of one Execute: a listing and a removal of every entry, or a removal of every planned file. */
  function CallsOf(plan: CleanPlan, trace: Trace): seq<Call> {
    match trace
    case ListFailed(err) => [Listed(plan.target.root, Err(err))]
    case Children(entries, tries) => [Listed(plan.target.root, Ok(entries))] + TriedAll(tries)
    case PerFile(tries) => TriedAll(tries)
  }

  function TriedAll(tries: seq<Attempt>): seq<Call> {
    seq(|tries|, i requires 0 <= i < |tries| => Tried(tries[i]))
  }

  lemma TriedMore(log: seq<Call>, tries: seq<Attempt>, a: Attempt)
    ensures log + TriedAll(tries + [a]) == (log + TriedAll(tries)) + [Tried(a)]
  {
  }

  function Get<V>(m: map<string, V>, k: string, zero: V): V {
    if k in m then m[k] else zero
  }

  method Execute(fs: FS, plan: CleanPlan) returns (res: CleanResult, ghost trace: Trace)
    modifies fs
    ensures TraceOf(plan, trace)
    ensures trace.Children? ==> GoodListing(old(fs.tree), plan.target.root, trace.entries)
    ensures res == Report(plan, trace) && FailuresFit(plan, trace, res.failures)
    ensures fs.tree == RunTries(old(fs.tree), Tries(trace))
    ensures fs.log == old(fs.log) + CallsOf(plan, trace)
  {
    if plan.target == TARGET_DOCUMENTS {
      res, trace := ExecutePerFile(fs, plan);
    } else {
      res, trace := ExecuteRemoveAll(fs, plan);
    }
  }

  method ExecuteRemoveAll(fs: FS, plan: CleanPlan) returns (res: CleanResult, ghost trace: Trace)
    requires plan.target != TARGET_DOCUMENTS
    modifies fs
    ensures TraceOf(plan, trace)
    ensures trace.Children? ==> GoodListing(old(fs.tree), plan.target.root, trace.entries)
    ensures res == Report(plan, trace) && FailuresFit(plan, trace, res.failures)
    ensures fs.tree == RunTries(old(fs.tree), Tries(trace))
    ensures fs.log == old(fs.log) + CallsOf(plan, trace)
  {
    var root := plan.target.root;
    res := CleanResult(plan.target, 0, 0, []);
    var listing, _ := fs.List(root);
    if listing.Err? {
      res := res.(failures := [Failure(root, listing.error)]);
      ReportedFailures(plan, ListFailed(listing.error));
      return res, ListFailed(listing.error);
    }
    var bytesByChild, filesByChild := BucketFiles(root, plan.files);
    ghost var tries;
    res, tries := RemoveChildren(fs, plan, listing.value, bytesByChild, filesByChild);
    trace := Children(listing.value, tries);
    ReportedFailures(plan, trace);
    Assoc(old(fs.log), [Listed(root, listing)], TriedAll(tries));
  }

  /** The result so far is what the tries so far have earned. */
  ghost predicate Earned(plan: CleanPlan, tries: seq<Attempt>, res: CleanResult) {
    var credit := CreditChildren(ByTopLevelChild(plan.target.root), plan.files, tries);
    && res.target == plan.target && res.removed == credit.count && res.bytes == WrapI64(credit.bytes)
    && res.failures == FailuresOf(tries)
  }

  ghost predicate ChildTry(plan: CleanPlan, child: FileInfo, a: Attempt) {
    Possible(a) && a.deep && a.path == ChildPath(plan.target.root, child)
  }

  lemma EarnStep(plan: CleanPlan, tries: seq<Attempt>, res: CleanResult, a: Attempt,
                 bytesByChild: map<string, I64>, filesByChild: map<string, nat>)
    requires Bucketed(ByTopLevelChild(plan.target.root), plan.files, bytesByChild, filesByChild)
    requires Earned(plan, tries, res) && a.path != ""
    ensures Earned(plan, tries + [a],
      if a.reply.Failed? then res.(failures := res.failures + [Failure(a.path, a.reply.err)])
      else res.(removed := res.removed + Get(filesByChild, a.path, 0),
                bytes := WrapI64(res.bytes + Get(bytesByChild, a.path, 0))))
  {
    CreditStep(ByTopLevelChild(plan.target.root), plan.files, tries, a, bytesByChild, filesByChild);
    RunStep(map[], tries, a);
    assert a.reply.Removed? ==> FailuresOf(tries) + [] == FailuresOf(tries);
  }

  /** The loop over listed children: remove each one and credit its bucket when that succeeds. */
  method RemoveChildren(fs: FS, plan: CleanPlan, children: seq<FileInfo>,
                        bytesByChild: map<string, I64>, filesByChild: map<string, nat>)
      returns (res: CleanResult, ghost tries: seq<Attempt>)
    requires Bucketed(ByTopLevelChild(plan.target.root), plan.files, bytesByChild, filesByChild)
    modifies fs
    ensures |tries| == |children|
    ensures forall k :: 0 <= k < |tries| ==> ChildTry(plan, children[k], tries[k])
    ensures Earned(plan, tries, res)
    ensures fs.tree == RunTries(old(fs.tree), tries) && fs.log == old(fs.log) + TriedAll(tries)
  {
    res, tries := CleanResult(plan.target, 0, 0, []), [];
    ghost var before, log := fs.tree, fs.log;
    assert log + TriedAll([]) == log;
    var i := 0;
    while i < |children|
      invariant 0 <= i <= |children|
      invariant |tries| == i
      invariant forall k :: 0 <= k < i ==> ChildTry(plan, children[k], tries[k])
      invariant Earned(plan, tries, res)
      invariant fs.tree == RunTries(before, tries) && fs.log == log + TriedAll(tries)
    {
      var c := children[i];
      var childPath := c.path;
      if childPath == "" {
        childPath := plan.target.root + "/" + c.name;
      }
      ghost var done: Attempt;
      var err: Option<Error>;
      err, done := fs.RemoveAll(childPath);
      EarnStep(plan, tries, res, done, bytesByChild, filesByChild);
      RunStep(before, tries, done);
      TriedMore(log, tries, done);
      tries := tries + [done];
      i := i + 1;
      if err.Some? {
        res := res.(failures := res.failures + [Failure(childPath, err.value)]);
        continue;
      }
      res := res.(removed := res.removed + Get(filesByChild, childPath, 0),
                  bytes := WrapI64(res.bytes + Get(bytesByChild, childPath, 0)));
    }
  }

  ghost predicate BucketOf(kid: Bucketing, files: seq<FileInfo>, c: string, bytes: I64, count: nat) {
    count == TallyIn(kid, files, {c}).count && bytes == WrapI64(TallyIn(kid, files, {c}).bytes)
  }

  ghost predicate Bucketed(kid: Bucketing, files: seq<FileInfo>,
                           bytesByChild: map<string, I64>, filesByChild: map<string, nat>) {
    forall c :: c != "" ==> BucketOf(kid, files, c, Get(bytesByChild, c, 0), Get(filesByChild, c, 0))
  }

  /** The two per-child maps hold, for every child, the tally of the planned files under it. */
  method BucketFiles(root: string, files: seq<FileInfo>)
      returns (bytesByChild: map<string, I64>, filesByChild: map<string, nat>)
    ensures Bucketed(ByTopLevelChild(root), files, bytesByChild, filesByChild)
  {
    bytesByChild, filesByChild := map[], map[];
    var i := 0;
    while i < |files|
      invariant 0 <= i <= |files|
      invariant Bucketed(ByTopLevelChild(root), files[..i], bytesByChild, filesByChild)
    {
      var fi := files[i];
      BucketStep(ByTopLevelChild(root), files[..i], fi, bytesByChild, filesByChild);
      assert files[..i + 1] == files[..i] + [fi];
      i := i + 1;
      var child := TopLevelChild(root, fi.path);
      if child == "" {
        continue;
      }
      bytesByChild := bytesByChild[child := WrapI64(Get(bytesByChild, child, 0) + fi.size)];
      filesByChild := filesByChild[child := Get(filesByChild, child, 0) + 1];
    }
    assert files[..i] == files;
  }

  lemma TallyInStep(kid: Bucketing, files: seq<FileInfo>, fi: FileInfo, kids: set<string>)
    ensures TallyIn(kid, files + [fi], kids)
         == if kid(fi) in kids then Add(TallyIn(kid, files, kids), One(fi)) else TallyIn(kid, files, kids)
  {
    SnocTake(files, fi);
  }

  lemma BucketStepAt(kid: Bucketing, files: seq<FileInfo>, fi: FileInfo, c: string, bytes: I64, count: nat)
    requires BucketOf(kid, files, c, bytes, count)
    ensures if kid(fi) == c then BucketOf(kid, files + [fi], c, WrapI64(bytes + fi.size), count + 1)
            else BucketOf(kid, files + [fi], c, bytes, count)
  {
    TallyInStep(kid, files, fi, {c});
    WrapI64Add(TallyIn(kid, files, {c}).bytes, fi.size);
  }

  lemma BucketStep(kid: Bucketing, files: seq<FileInfo>, fi: FileInfo,
                   bytesByChild: map<string, I64>, filesByChild: map<string, nat>)
    requires Bucketed(kid, files, bytesByChild, filesByChild)
    ensures var child := kid(fi);
      if child == "" then Bucketed(kid, files + [fi], bytesByChild, filesByChild)
      else Bucketed(kid, files + [fi],
                    bytesByChild[child := WrapI64(Get(bytesByChild, child, 0) + fi.size)],
                    filesByChild[child := Get(filesByChild, child, 0) + 1])
  {
    var child := kid(fi);
    var bytes', files' := bytesByChild, filesByChild;
    if child != "" {
      bytes' := bytesByChild[child := WrapI64(Get(bytesByChild, child, 0) + fi.size)];
      files' := filesByChild[child := Get(filesByChild, child, 0) + 1];
    }
    forall c | c != ""
      ensures BucketOf(kid, files + [fi], c, Get(bytes', c, 0), Get(files', c, 0))
    {
      BucketStepAt(kid, files, fi, c, Get(bytesByChild, c, 0), Get(filesByChild, c, 0));
    }
  }

  lemma CreditStep(kid: Bucketing, files: seq<FileInfo>, tries: seq<Attempt>, a: Attempt, bytesByChild: map<string, I64>, filesByChild: map<string, nat>)
    requires Bucketed(kid, files, bytesByChild, filesByChild) && a.path != ""
    ensures var before, after := CreditChildren(kid, files, tries), CreditChildren(kid, files, tries + [a]);
      if a.reply.Failed? then after == before
      else && after.count == before.count + Get(filesByChild, a.path, 0)
           && WrapI64(after.bytes) == WrapI64(WrapI64(before.bytes) + Get(bytesByChild, a.path, 0))
  {
    SnocTake(tries, a);
    assert BucketOf(kid, files, a.path, Get(bytesByChild, a.path, 0), Get(filesByChild, a.path, 0));
    var x, y := CreditChildren(kid, files, tries).bytes, TallyIn(kid, files, {a.path}).bytes;
    WrapI64Add(x, WrapI64(y));
    WrapI64Add(y, x);
  }

  lemma RunStep(t: Tree, tries: seq<Attempt>, a: Attempt)
    ensures RunTries(t, tries + [a]) == Apply(RunTries(t, tries), a)
    ensures FailuresOf(tries + [a])
         == FailuresOf(tries) + if a.reply.Failed? then [Failure(a.path, a.reply.err)] else []
  {
    SnocTake(tries, a);
  }

  method ExecutePerFile(fs: FS, plan: CleanPlan) returns (res: CleanResult, ghost trace: Trace)
    requires plan.target == TARGET_DOCUMENTS
    modifies fs
    ensures trace.PerFile? && TraceOf(plan, trace)
    ensures res == Report(plan, trace) && FailuresFit(plan, trace, res.failures)
    ensures fs.tree == RunTries(old(fs.tree), Tries(trace))
    ensures fs.log == old(fs.log) + CallsOf(plan, trace)
  {
    res := CleanResult(plan.target, 0, 0, []);
    ghost var tries: seq<Attempt> := [];
    ghost var before, log := fs.tree, fs.log;
    assert log + TriedAll([]) == log;
    var i := 0;
    while i < |plan.files|
      invariant 0 <= i <= |plan.files|
      invariant |tries| == i
      invariant forall k :: 0 <= k < i ==>
        Possible(tries[k]) && !tries[k].deep && tries[k].path == plan.files[k].path
      invariant res.target == plan.target
      invariant res.removed == CreditFiles(plan.files[..i], tries).count
      invariant res.bytes == WrapI64(CreditFiles(plan.files[..i], tries).bytes)
      invariant res.failures == FailuresOf(tries)
      invariant fs.tree == RunTries(before, tries) && fs.log == log + TriedAll(tries)
    {
      var fi := plan.files[i];
      ghost var done: Attempt;
      var err: Option<Error>;
      err, done := fs.Remove(fi.path);
      RunStep(before, tries, done);
      TriedMore(log, tries, done);
      CreditFilesStep(plan.files, i, tries, done);
      tries := tries + [done];
      i := i + 1;
      if err.Some? {
        res := res.(failures := res.failures + [Failure(fi.path, err.value)]);
        continue;
      }
      res := res.(removed := res.removed + 1, bytes := WrapI64(res.bytes + fi.size));
    }
    TakeAll(plan.files, i);
    trace := PerFile(tries);
    ReportedFailures(plan, trace);
  }

  lemma CreditFilesStep(files: seq<FileInfo>, i: nat, tries: seq<Attempt>, a: Attempt)
    requires |tries| == i < |files|
    ensures var before, after := CreditFiles(files[..i], tries), CreditFiles(files[..i + 1], tries + [a]);
      if a.reply.Failed? then after == before
      else after.count == before.count + 1 && WrapI64(after.bytes) == WrapI64(WrapI64(before.bytes) + files[i].size)
  {
    TakeStep(files, i);
    assert (tries + [a])[..i] == tries && files[..i + 1][..i] == files[..i];
    WrapI64Add(CreditFiles(files[..i], tries).bytes, files[i].size);
  }
}
