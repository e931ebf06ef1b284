/** What Execute's accounting means: conservation, honesty, frame, and dry run versus real run. */
module CleanerLaws {
  import opened Common
  import opened Paths
  import opened SandboxFs
  import opened Cleaner

  predicate Splits(whole: Totals, a: Totals, b: Totals) {
    whole.count == a.count + b.count && whole.bytes == a.bytes + b.bytes
  }

  predicate Leq(a: Totals, b: Totals) {
    a.count <= b.count && a.bytes <= b.bytes
  }

  /** The planned files that no kid accounts for. */
  function TallyOut(kid: Bucketing, files: seq<FileInfo>, kids: set<string>): Totals {
    if files == [] then Zero()
    else
      var f := files[|files| - 1];
      var rest := TallyOut(kid, files[..|files| - 1], kids);
      if kid(f) in kids then rest else Add(rest, One(f))
  }

  /** The paths whose removal succeeded. */
  function Succeeded(tries: seq<Attempt>): set<string> {
    set i | 0 <= i < |tries| && tries[i].reply.Removed? :: tries[i].path
  }

  /** The planned files whose own removal failed. */
  function FailedFiles(files: seq<FileInfo>, tries: seq<Attempt>): Totals
    requires |tries| == |files|
  {
    if tries == [] then Zero()
    else
      var n := |tries| - 1;
      var rest := FailedFiles(files[..n], tries[..n]);
      if tries[n].reply.Failed? then Add(rest, One(files[n])) else rest
  }

  /** The planned files that Execute does not claim to have removed. */
  function Unclaimed(plan: CleanPlan, trace: Trace): Totals
    requires Answers(plan, trace)
  {
    match trace
    case ListFailed(_) => Tally(plan.files)
    case Children(_, tries) => TallyOut(ByTopLevelChild(plan.target.root), plan.files, Succeeded(tries))
    case PerFile(tries) => FailedFiles(plan.files, tries)
  }

  // ---- Bucket arithmetic --------------------------------------------------

  lemma {:induction false} TallySplit(kid: Bucketing, files: seq<FileInfo>, kids: set<string>)
    ensures Splits(Tally(files), TallyIn(kid, files, kids), TallyOut(kid, files, kids))
  {
    if files != [] {
      TallySplit(kid, files[..|files| - 1], kids);
    }
  }

  lemma {:induction false} TallyInUnion(kid: Bucketing, files: seq<FileInfo>, kids: set<string>, c: string)
    requires c !in kids
    ensures Splits(TallyIn(kid, files, kids + {c}), TallyIn(kid, files, kids), TallyIn(kid, files, {c}))
  {
    if files != [] {
      TallyInUnion(kid, files[..|files| - 1], kids, c);
    }
  }

  lemma {:induction false} TallyInNone(kid: Bucketing, files: seq<FileInfo>)
    ensures TallyIn(kid, files, {}) == Zero()
  {
    if files != [] {
      TallyInNone(kid, files[..|files| - 1]);
    }
  }

  lemma {:induction false} TallyInCountBytes(kid: Bucketing, files: seq<FileInfo>, kids: set<string>)
    ensures TallyIn(kid, files, kids).count == 0 ==> TallyIn(kid, files, kids).bytes == 0
  {
    if files != [] {
      TallyInCountBytes(kid, files[..|files| - 1], kids);
    }
  }

  lemma {:induction false} TallyCounts(files: seq<FileInfo>)
    ensures Tally(files).count == |files|
  {
    if files != [] {
      TallyCounts(files[..|files| - 1]);
    }
  }

  /** No child that holds planned files was removed twice. */
  ghost predicate NoDoubleCredit(kid: Bucketing, files: seq<FileInfo>, tries: seq<Attempt>) {
    forall i, j ::
      (0 <= i < j < |tries| && tries[i].reply.Removed? && tries[j].reply.Removed? && tries[i].path == tries[j].path)
      ==> TallyIn(kid, files, {tries[i].path}).count == 0
  }

  /**
   * The credited count is the number of planned files under removed children exactly when no
   * child with planned files is listed and removed twice; otherwise it is too high.
   */
  lemma {:induction false} CreditExact(kid: Bucketing, files: seq<FileInfo>, tries: seq<Attempt>)
    ensures Leq(TallyIn(kid, files, Succeeded(tries)), CreditChildren(kid, files, tries))
    ensures CreditChildren(kid, files, tries).count == TallyIn(kid, files, Succeeded(tries)).count
       <==> NoDoubleCredit(kid, files, tries)
    ensures NoDoubleCredit(kid, files, tries) ==>
      CreditChildren(kid, files, tries) == TallyIn(kid, files, Succeeded(tries))
  {
    if tries == [] {
      assert Succeeded(tries) == {};
      TallyInNone(kid, files);
    } else {
      var n := |tries| - 1;
      var a, rest := tries[n], tries[..n];
      CreditExact(kid, files, rest);
      SucceededStep(tries);
      NoDoubleCreditStep(kid, files, tries);
      TallyInCountBytes(kid, files, {a.path});
      if a.reply.Removed? {
        if a.path in Succeeded(rest) {
          assert Succeeded(tries) == Succeeded(rest);
          assert NoDoubleCredit(kid, files, rest) ==> CreditChildren(kid, files, rest) == TallyIn(kid, files, Succeeded(rest));
        } else {
          TallyInUnion(kid, files, Succeeded(rest), a.path);
        }
      } else {
        assert Succeeded(tries) == Succeeded(rest);
      }
    }
  }

  lemma SucceededStep(tries: seq<Attempt>)
    requires tries != []
    ensures var n := |tries| - 1;
      Succeeded(tries) == Succeeded(tries[..n]) + if tries[n].reply.Removed? then {tries[n].path} else {}
  {
    var n := |tries| - 1;
    forall p | p in Succeeded(tries)
      ensures p in Succeeded(tries[..n]) + if tries[n].reply.Removed? then {tries[n].path} else {}
    {
      var i :| 0 <= i < |tries| && tries[i].reply.Removed? && tries[i].path == p;
      if i < n {
        assert tries[..n][i] == tries[i];
      }
    }
    forall p | p in Succeeded(tries[..n])
      ensures p in Succeeded(tries)
    {
      var i :| 0 <= i < n && tries[..n][i].reply.Removed? && tries[..n][i].path == p;
      assert tries[i].path == p;
    }
  }

  lemma NoDoubleCreditStep(kid: Bucketing, files: seq<FileInfo>, tries: seq<Attempt>)
    requires tries != []
    ensures var n := |tries| - 1;
      NoDoubleCredit(kid, files, tries)
      <==> (NoDoubleCredit(kid, files, tries[..n])
            && (tries[n].reply.Removed? && tries[n].path in Succeeded(tries[..n]) ==>
                  TallyIn(kid, files, {tries[n].path}).count == 0))
  {
    var n := |tries| - 1;
    var rest, a := tries[..n], tries[n];
    assert forall i :: 0 <= i < n ==> rest[i] == tries[i];
    if a.reply.Removed? && a.path in Succeeded(rest) {
      var i :| 0 <= i < n && rest[i].reply.Removed? && rest[i].path == a.path;
      assert tries[i].path == a.path;
    }
    if NoDoubleCredit(kid, files, rest) && (a.reply.Removed? && a.path in Succeeded(rest) ==> TallyIn(kid, files, {a.path}).count == 0) {
      forall i, j | 0 <= i < j < |tries| && tries[i].reply.Removed? && tries[j].reply.Removed? && tries[i].path == tries[j].path
        ensures TallyIn(kid, files, {tries[i].path}).count == 0
      {
        assert rest[i].path in Succeeded(rest);
        if j < n {
          assert rest[i].path == rest[j].path;
        }
      }
    }
  }

  // ---- Conservation -------------------------------------------------------

  /** What Execute guarantees about the device's answers on tree t. */
  ghost predicate GoodTrace(t: Tree, plan: CleanPlan, trace: Trace) {
    && TraceOf(plan, trace)
    && (trace.Children? ==> GoodListing(t, plan.target.root, trace.entries))
  }

  ghost predicate CreditsOnce(plan: CleanPlan, trace: Trace) {
    trace.Children? ==> NoDoubleCredit(ByTopLevelChild(plan.target.root), plan.files, trace.tries)
  }

  lemma GoodTraceCreditsOnce(t: Tree, plan: CleanPlan, trace: Trace)
    requires GoodTrace(t, plan, trace)
    ensures Answers(plan, trace) && CreditsOnce(plan, trace)
  {
  }

  /** Whatever fails, the claim and the rest make up the plan, exactly when nothing is credited twice. */
  lemma ExactConservation(plan: CleanPlan, trace: Trace)
    requires Answers(plan, trace)
    ensures Report(plan, trace).removed + Unclaimed(plan, trace).count == |plan.files| <==> CreditsOnce(plan, trace)
    ensures CreditsOnce(plan, trace) ==> Splits(Tally(plan.files), Credit(plan, trace), Unclaimed(plan, trace))
  {
    TallyCounts(plan.files);
    match trace {
      case ListFailed(_) =>
      case Children(entries, tries) =>
        var kid := ByTopLevelChild(plan.target.root);
        CreditExact(kid, plan.files, tries);
        TallySplit(kid, plan.files, Succeeded(tries));
      case PerFile(tries) =>
        FileCredits(plan.files, tries);
    }
  }

  /**
   * What Execute claims plus what it does not claim is the whole plan, whatever the device
   * answered; the reported fields are that claim, the bytes in an int64.
   */
  lemma Conservation(t: Tree, plan: CleanPlan, trace: Trace)
    requires GoodTrace(t, plan, trace) && PlanFor(t, plan)
    ensures Splits(Tally(plan.files), Credit(plan, trace), Unclaimed(plan, trace))
    ensures Report(plan, trace).removed + Unclaimed(plan, trace).count == |plan.files|
    ensures WrapI64(Report(plan, trace).bytes + Unclaimed(plan, trace).bytes) == plan.totalBytes
  {
    GoodTraceCreditsOnce(t, plan, trace);
    ExactConservation(plan, trace);
    WrapSplit(Tally(plan.files), Credit(plan, trace), Unclaimed(plan, trace));
  }

  lemma WrapSplit(whole: Totals, a: Totals, b: Totals)
    requires Splits(whole, a, b)
    ensures WrapI64(WrapI64(a.bytes) + b.bytes) == WrapI64(whole.bytes)
  {
    WrapI64Add(a.bytes, b.bytes);
  }

  lemma {:induction false} FileCredits(files: seq<FileInfo>, tries: seq<Attempt>)
    requires |tries| == |files|
    ensures Splits(Tally(files), CreditFiles(files, tries), FailedFiles(files, tries))
  {
    if tries != [] {
      var n := |tries| - 1;
      FileCredits(files[..n], tries[..n]);
      SplitStep(Tally(files[..n]), CreditFiles(files[..n], tries[..n]), FailedFiles(files[..n], tries[..n]), One(files[n]));
    }
  }

  lemma SplitStep(whole: Totals, a: Totals, b: Totals, x: Totals)
    requires Splits(whole, a, b)
    ensures Splits(Add(whole, x), Add(a, x), b) && Splits(Add(whole, x), a, Add(b, x))
  {
  }

  lemma {:induction false} FailuresCounted(files: seq<FileInfo>, tries: seq<Attempt>)
    requires |tries| == |files|
    ensures |FailuresOf(tries)| == FailedFiles(files, tries).count
  {
    if tries != [] {
      FailuresCounted(files[..|tries| - 1], tries[..|tries| - 1]);
    }
  }

  /** For Documents every planned file is either counted as removed or listed as a failure. */
  lemma DocumentsAccounting(t: Tree, plan: CleanPlan, trace: Trace)
    requires GoodTrace(t, plan, trace) && PlanFor(t, plan) && trace.PerFile?
    ensures var res := Report(plan, trace); res.removed + |res.failures| == |plan.files|
  {
    Conservation(t, plan, trace);
    FailuresCounted(plan.files, trace.tries);
  }

  /** With a child listed twice, conservation is lost: one file is reported as two. */
  lemma DuplicateListingOverReports()
    ensures var f := FileInfo("a", "tmp/a", 7, false);
      var plan := CleanPlan(TARGET_TMP, [f], 7);
      var tries := [Attempt("tmp/a", true, Removed), Attempt("tmp/a", true, Removed)];
      && !NoDoubleCredit(ByTopLevelChild("tmp"), plan.files, tries)
      && Report(plan, Children([f, f], tries)).removed == 2
      && |plan.files| == 1
  {
    var f := FileInfo("a", "tmp/a", 7, false);
    var plan := CleanPlan(TARGET_TMP, [f], 7);
    var a := Attempt("tmp/a", true, Removed);
    var tries := [a, a];
    FirstSegment("tmp", "a");
    TopLevelChildIsContainer("tmp", "tmp/a", "tmp/a");
    assert TallyIn(ByTopLevelChild("tmp"), [f], {"tmp/a"}) == Totals(1, 7) by {
      assert [f][..0] == [];
    }
    assert tries[..1] == [a] && [a][..0] == [];
    assert CreditChildren(ByTopLevelChild("tmp"), [f], [a]) == Totals(1, 7);
    assert tries[0].path == tries[1].path;
  }

  // ---- Frame --------------------------------------------------------------

  lemma {:induction false} RunShrinks(t: Tree, tries: seq<Attempt>)
    ensures forall p :: p in RunTries(t, tries) ==> p in t && RunTries(t, tries)[p] == t[p]
  {
    if tries != [] {
      RunShrinks(t, tries[..|tries| - 1]);
    }
  }

  lemma {:induction false} RunKeeps(t: Tree, tries: seq<Attempt>, p: string)
    requires p in t
    requires forall i :: 0 <= i < |tries| ==> Possible(tries[i]) && !Covers(tries[i], p)
    ensures p in RunTries(t, tries)
  {
    if tries != [] {
      RunKeeps(t, tries[..|tries| - 1], p);
    }
  }

  lemma {:induction false} RunDeletes(t: Tree, tries: seq<Attempt>, i: nat, p: string)
    requires i < |tries| && tries[i].reply.Removed? && Covers(tries[i], p)
    ensures p !in RunTries(t, tries)
  {
    var n := |tries| - 1;
    if i < n {
      RunDeletes(t, tries[..n], i, p);
    }
  }

  /** Every planned file lies in the target and is no directory of t; it may be gone from t. */
  ghost predicate Charted(t: Tree, plan: CleanPlan) {
    forall i :: 0 <= i < |plan.files| ==>
      var f := plan.files[i];
      Within(plan.target.root, f.path) && (f.path in t ==> t[f.path].File?)
  }

  /**
   * Execute touches nothing outside the target root, and a directory at the root survives, also
   * when the plan is older than the tree.
   */
  lemma Frame(t: Tree, plan: CleanPlan, trace: Trace, p: string)
    requires GoodTrace(t, plan, trace) && Charted(t, plan) && p in t
    requires !Within(plan.target.root, p) || (p == plan.target.root && t[p].Dir?)
    ensures var after := RunTries(t, Tries(trace)); p in after && after[p] == t[p]
  {
    var root := plan.target.root;
    forall i | 0 <= i < |Tries(trace)|
      ensures Possible(Tries(trace)[i]) && !Covers(Tries(trace)[i], p)
    {
      var a := Tries(trace)[i];
      if trace.Children? {
        assert ChildOf(root, ChildPath(root, trace.entries[i]));
        if Within(a.path, p) {
          WithinTransitive(root, a.path, p);
        }
      }
    }
    RunKeeps(t, Tries(trace), p);
    RunShrinks(t, Tries(trace));
  }

  /** Cleaning Documents deletes planned files only: every directory and every other node stays. */
  lemma DocumentsFrame(t: Tree, plan: CleanPlan, trace: Trace, p: string)
    requires GoodTrace(t, plan, trace) && Charted(t, plan) && trace.PerFile? && p in t
    requires t[p].Dir? || forall i :: 0 <= i < |plan.files| ==> plan.files[i].path != p
    ensures var after := RunTries(t, Tries(trace)); p in after && after[p] == t[p]
  {
    forall i | 0 <= i < |trace.tries|
      ensures Possible(trace.tries[i]) && !Covers(trace.tries[i], p)
    {
      var f := plan.files[i];
      assert f.path in t ==> t[f.path].File?;
    }
    RunKeeps(t, trace.tries, p);
    RunShrinks(t, trace.tries);
  }

  // ---- The report against the real file system ----------------------------

  function FilesOf(t: Tree): map<string, Size> {
    map p | p in t && t[p].File? :: t[p].size
  }

  /** Number and bytes of the files in a tree. */
  ghost function Measure(m: map<string, Size>): Totals {
    Totals(|m|, SumOf(m))
  }

  ghost function SumOf(m: map<string, Size>): nat {
    if m == map[] then 0
    else
      var p :| p in m;
      m[p] + SumOf(m - {p})
  }

  lemma {:induction false} SumOfRemove(m: map<string, Size>, k: string)
    requires k in m
    ensures SumOf(m) == m[k] + SumOf(m - {k})
    decreases |m|
  {
    var p :| p in m && SumOf(m) == m[p] + SumOf(m - {p});
    if p != k {
      SumOfRemove(m - {p}, k);
      SumOfRemove(m - {k}, p);
      assert m - {p} - {k} == m - {k} - {p};
    }
  }

  lemma MeasureRemove(m: map<string, Size>, k: string)
    requires k in m
    ensures Splits(Measure(m), Measure(m - {k}), Totals(1, m[k]))
  {
    SumOfRemove(m, k);
    assert m == (m - {k})[k := m[k]];
  }

  function GonePaths(files: seq<FileInfo>, after: Tree): set<string> {
    set i | 0 <= i < |files| && files[i].path !in after :: files[i].path
  }

  /** files lists distinct files of m with their sizes. */
  ghost predicate Lists(m: map<string, Size>, files: seq<FileInfo>) {
    && (forall i :: 0 <= i < |files| ==> files[i].path in m && m[files[i].path] == files[i].size)
    && (forall i, j :: 0 <= i < j < |files| ==> files[i].path != files[j].path)
  }

  lemma {:induction false} MeasureGone(m: map<string, Size>, files: seq<FileInfo>, after: Tree)
    requires Lists(m, files)
    ensures Splits(Measure(m), Measure(m - GonePaths(files, after)), TallyGone(files, after))
  {
    if files == [] {
      assert m - GonePaths(files, after) == m;
    } else {
      MeasureGone(m, files[..|files| - 1], after);
      MeasureGoneStep(m, files, after);
    }
  }

  lemma MeasureGoneStep(m: map<string, Size>, files: seq<FileInfo>, after: Tree)
    requires files != [] && Lists(m, files)
    requires var rest := files[..|files| - 1];
      Splits(Measure(m), Measure(m - GonePaths(rest, after)), TallyGone(rest, after))
    ensures Splits(Measure(m), Measure(m - GonePaths(files, after)), TallyGone(files, after))
  {
    var n := |files| - 1;
    var m' := m - GonePaths(files[..n], after);
    GonePathsStep(m, files, after);
    MeasureRemove(m', files[n].path);
    assert TallyGone(files, after).count == TallyGone(files[..n], after).count + if files[n].path in after then 0 else 1;
  }

  lemma GonePathsStep(m: map<string, Size>, files: seq<FileInfo>, after: Tree)
    requires files != [] && Lists(m, files)
    ensures var n, path := |files| - 1, files[|files| - 1].path;
      var m' := m - GonePaths(files[..n], after);
      && path in m' && m'[path] == files[n].size
      && m - GonePaths(files, after) == if path in after then m' else m' - {path}
  {
    var n := |files| - 1;
    forall p | p in GonePaths(files, after)
      ensures p in GonePaths(files[..n], after) || (p == files[n].path && p !in after)
    {
      var i :| 0 <= i < |files| && files[i].path == p && p !in after;
      assert i < n ==> files[..n][i].path == p;
    }
    forall p | p in GonePaths(files[..n], after)
      ensures p in GonePaths(files, after) && p != files[n].path
    {
      var i :| 0 <= i < n && files[..n][i].path == p && p !in after;
      assert files[i].path == p;
    }
  }

  lemma LostIsPlanned(t: Tree, plan: CleanPlan, trace: Trace, p: string)
    requires GoodTrace(t, plan, trace) && PlanFor(t, plan)
    requires p in t && t[p].File? && p !in RunTries(t, Tries(trace))
    ensures p in GonePaths(plan.files, RunTries(t, Tries(trace)))
  {
    if !Within(plan.target.root, p) {
      Frame(t, plan, trace, p);
    }
  }

  lemma FilesWithout(t: Tree, after: Tree, gone: set<string>)
    requires forall p :: p in after ==> p in t && after[p] == t[p] && p !in gone
    requires forall p :: p in t && t[p].File? && p !in after ==> p in gone
    ensures FilesOf(after) == FilesOf(t) - gone
  {
  }

  lemma FilesLeft(t: Tree, plan: CleanPlan, trace: Trace)
    requires GoodTrace(t, plan, trace) && PlanFor(t, plan)
    ensures var after := RunTries(t, Tries(trace));
      FilesOf(after) == FilesOf(t) - GonePaths(plan.files, after)
  {
    var after := RunTries(t, Tries(trace));
    RunShrinks(t, Tries(trace));
    forall p | p in t && t[p].File? && p !in after
      ensures p in GonePaths(plan.files, after)
    {
      LostIsPlanned(t, plan, trace, p);
    }
    FilesWithout(t, after, GonePaths(plan.files, after));
  }

  /** The drop in the file system is exactly the planned files that are gone. */
  lemma DropIsPlannedFilesGone(t: Tree, plan: CleanPlan, trace: Trace)
    requires GoodTrace(t, plan, trace) && PlanFor(t, plan)
    ensures var after := RunTries(t, Tries(trace));
      Splits(Measure(FilesOf(t)), Measure(FilesOf(after)), TallyGone(plan.files, after))
  {
    FilesLeft(t, plan, trace);
    assert Lists(FilesOf(t), plan.files);
    MeasureGone(FilesOf(t), plan.files, RunTries(t, Tries(trace)));
  }

  lemma {:induction false} GoneAtLeast(kid: Bucketing, files: seq<FileInfo>, kids: set<string>, after: Tree)
    requires forall i :: 0 <= i < |files| && kid(files[i]) in kids ==> files[i].path !in after
    ensures Leq(TallyIn(kid, files, kids), TallyGone(files, after))
  {
    if files != [] {
      GoneAtLeast(kid, files[..|files| - 1], kids, after);
    }
  }

  lemma {:induction false} FilesGoneAtLeast(files: seq<FileInfo>, tries: seq<Attempt>, after: Tree)
    requires |tries| == |files|
    requires forall i :: 0 <= i < |tries| && tries[i].reply.Removed? ==> files[i].path !in after
    ensures Leq(CreditFiles(files, tries), TallyGone(files, after))
  {
    if tries != [] {
      var n := |tries| - 1;
      FilesGoneAtLeast(files[..n], tries[..n], after);
    }
  }

  /** A file in a bucket that was credited is gone. */
  lemma CreditedIsGone(t: Tree, plan: CleanPlan, entries: seq<FileInfo>, tries: seq<Attempt>, f: FileInfo)
    requires GoodTrace(t, plan, Children(entries, tries))
    requires TopLevelChild(plan.target.root, f.path) in Succeeded(tries)
    ensures f.path !in RunTries(t, tries)
  {
    var root := plan.target.root;
    var i :| 0 <= i < |tries| && tries[i].reply.Removed? && tries[i].path == TopLevelChild(root, f.path);
    TopLevelChildIsContainer(root, ChildPath(root, entries[i]), f.path);
    RunDeletes(t, tries, i, f.path);
  }

  lemma ClaimIsGone(t: Tree, plan: CleanPlan, trace: Trace)
    requires GoodTrace(t, plan, trace)
    ensures Leq(Credit(plan, trace), TallyGone(plan.files, RunTries(t, Tries(trace))))
  {
    var after, kid := RunTries(t, Tries(trace)), ByTopLevelChild(plan.target.root);
    match trace {
      case ListFailed(_) =>
      case Children(entries, tries) =>
        CreditExact(kid, plan.files, tries);
        forall k | 0 <= k < |plan.files| && kid(plan.files[k]) in Succeeded(tries)
          ensures plan.files[k].path !in after
        {
          CreditedIsGone(t, plan, entries, tries, plan.files[k]);
        }
        GoneAtLeast(kid, plan.files, Succeeded(tries), after);
      case PerFile(tries) =>
        forall i | 0 <= i < |tries| && tries[i].reply.Removed?
          ensures plan.files[i].path !in after
        {
          RunDeletes(t, tries, i, plan.files[i].path);
        }
        FilesGoneAtLeast(plan.files, tries, after);
    }
  }

  /**
   * Execute never claims more than really disappeared, even when a failed removal deleted
   * part of its subtree.
   */
  lemma NeverOverReports(t: Tree, plan: CleanPlan, trace: Trace)
    requires GoodTrace(t, plan, trace) && PlanFor(t, plan)
    ensures var after := RunTries(t, Tries(trace));
      && Leq(Credit(plan, trace), TallyGone(plan.files, after))
      && Measure(FilesOf(after)).count + Credit(plan, trace).count <= Measure(FilesOf(t)).count
      && Measure(FilesOf(after)).bytes + Credit(plan, trace).bytes <= Measure(FilesOf(t)).bytes
  {
    ClaimIsGone(t, plan, trace);
    DropIsPlannedFilesGone(t, plan, trace);
  }

  /** Nothing failed, and every child was listed. */
  ghost predicate Smooth(t: Tree, plan: CleanPlan, trace: Trace) {
    && !trace.ListFailed?
    && (forall i :: 0 <= i < |Tries(trace)| ==> Tries(trace)[i].reply.Removed?)
    && (trace.Children? ==> CompleteListing(t, plan.target.root, trace.entries))
  }

  /** Every file below root has its top-level child in the tree. */
  ghost predicate Rooted(t: Tree, root: string) {
    forall p :: p in t && t[p].File? && Below(root, p) ==>
      ChildOf(root, TopLevelChild(root, p)) && TopLevelChild(root, p) in t
  }

  lemma WellFormedIsRooted(t: Tree, root: string)
    requires WellFormed(t)
    ensures Rooted(t, root)
  {
    forall p | p in t && t[p].File? && Below(root, p)
      ensures ChildOf(root, TopLevelChild(root, p)) && TopLevelChild(root, p) in t
    {
      TopLevelChildExists(root, p);
    }
  }

  lemma {:induction false} NothingOut(kid: Bucketing, files: seq<FileInfo>, kids: set<string>)
    requires forall k :: 0 <= k < |files| ==> kid(files[k]) in kids
    ensures TallyOut(kid, files, kids) == Zero()
  {
    if files != [] {
      NothingOut(kid, files[..|files| - 1], kids);
    }
  }

  lemma {:induction false} NothingFailed(files: seq<FileInfo>, tries: seq<Attempt>)
    requires |tries| == |files|
    requires forall i :: 0 <= i < |tries| ==> tries[i].reply.Removed?
    ensures FailedFiles(files, tries) == Zero()
  {
    if tries != [] {
      NothingFailed(files[..|tries| - 1], tries[..|tries| - 1]);
    }
  }

  lemma {:induction false} NoFailures(tries: seq<Attempt>)
    requires forall i :: 0 <= i < |tries| ==> tries[i].reply.Removed?
    ensures FailuresOf(tries) == []
  {
    if tries != [] {
      NoFailures(tries[..|tries| - 1]);
    }
  }

  lemma {:induction false} GoneAtMost(files: seq<FileInfo>, after: Tree)
    ensures Leq(TallyGone(files, after), Tally(files))
  {
    if files != [] {
      GoneAtMost(files[..|files| - 1], after);
    }
  }

  lemma SmoothClaimsAll(t: Tree, plan: CleanPlan, trace: Trace)
    requires GoodTrace(t, plan, trace) && PlanFor(t, plan) && Smooth(t, plan, trace)
    requires Rooted(t, plan.target.root)
    ensures Unclaimed(plan, trace) == Zero()
    ensures Report(plan, trace).failures == []
  {
    var root := plan.target.root;
    var tries := trace.tries;
    assert tries == Tries(trace);
    if trace.Children? {
      forall k | 0 <= k < |plan.files|
        ensures TopLevelChild(root, plan.files[k].path) in Succeeded(tries)
      {
        var p := plan.files[k].path;
        assert t[p].File? && Within(root, p);
        var i :| 0 <= i < |trace.entries| && ChildPath(root, trace.entries[i]) == TopLevelChild(root, p);
        assert tries[i].reply.Removed? && tries[i].path == TopLevelChild(root, p);
      }
      NothingOut(ByTopLevelChild(root), plan.files, Succeeded(tries));
    } else {
      NothingFailed(plan.files, tries);
    }
    NoFailures(tries);
  }

  /** With no failure and a complete listing one target's report is its plan, and so is the real drop. */
  lemma SmoothRunMeetsPlan(t: Tree, plan: CleanPlan, trace: Trace)
    requires GoodTrace(t, plan, trace) && PlanFor(t, plan) && Smooth(t, plan, trace)
    requires Rooted(t, plan.target.root)
    ensures Credit(plan, trace) == Tally(plan.files)
    ensures Report(plan, trace).failures == []
    ensures Report(plan, trace).bytes == plan.totalBytes
    ensures Splits(Measure(FilesOf(t)), Measure(FilesOf(RunTries(t, Tries(trace)))), Tally(plan.files))
  {
    var after := RunTries(t, Tries(trace));
    SmoothClaimsAll(t, plan, trace);
    Conservation(t, plan, trace);
    NeverOverReports(t, plan, trace);
    DropIsPlannedFilesGone(t, plan, trace);
    GoneAtMost(plan.files, after);
    Squeeze(Tally(plan.files), Credit(plan, trace), TallyGone(plan.files, after));
  }

  lemma Squeeze(tally: Totals, credit: Totals, gone: Totals)
    requires Splits(tally, credit, Zero()) && Leq(credit, gone) && Leq(gone, tally)
    ensures credit == tally == gone
  {
  }
}
