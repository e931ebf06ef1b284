/** Concrete runs: a clean that goes through, and cleans that are no longer authorised when they delete. */
module RunExamples {
  import opened Common
  import opened Ordering
  import opened Paths
  import opened SandboxFs
  import opened Strings
  import opened Flags
  import opened FlagLaws
  import opened Cleaner
  import opened CleanerLaws
  import opened CleanRun
  import opened Probes
  import opened CleanGate
  import opened RunSafety

  function ExampleProbes(): seq<ProbeResult> {
    [ProbeResult("app", Vended, "", 0)]
  }

  function ExampleRequest(): Request {
    Mcp(McpRequest("app", "app", Include(true, false, false), false, Some(Bool(false))),
        McpEnv(Device("phone"), Ok(ExampleProbes()), 0, true))
  }

  function ExampleFile(): FileInfo {
    FileInfo("a", "tmp/a", 7, false)
  }

  function ExampleTree(): Tree {
    map["tmp" := Dir, "tmp/a" := File(7)]
  }

  function ExamplePlan(): CleanPlan {
    CleanPlan(TARGET_TMP, [ExampleFile()], 7)
  }

  function ExampleTrace(): Trace {
    Children([ExampleFile()], [Attempt("tmp/a", true, Removed)])
  }

  function ExampleDelete(): Event {
    Delete(0, [ExampleTrace()])
  }

  lemma ExampleNewest()
    ensures Newest(Exact(), ExampleProbes(), "app") == Some(ExampleProbes()[0])
  {
    assert ExampleProbes()[..0] == [];
  }

  lemma ExampleAim()
    ensures Aim(ExampleRequest()) == Some((Sandbox("phone", "app"), Include(true, false, false)))
  {
    ExampleNewest();
    assert TrimLeft("app") == "app" && TrimRight("app") == "app";
    assert !AppleSystem("app") && PrintableASCII("app");
    assert McpFresh(ExampleProbes(), "app", 0);
  }

  lemma ExampleClean()
    ensures Cleaned(ExampleTree(), RunPlans(ExampleTree(), [ExamplePlan()], [ExampleTrace()]),
                    [TARGET_TMP], [ExamplePlan()], [ExampleTrace()])
    ensures "tmp/a" !in RunPlans(ExampleTree(), [ExamplePlan()], [ExampleTrace()])
  {
    var t, plan, trace := ExampleTree(), ExamplePlan(), ExampleTrace();
    FirstSegment("tmp", "a");
    assert plan.files[..0] == [] && Tally(plan.files) == Totals(1, 7);
    assert plan.files[0].path == "tmp/a";
    assert [plan][..0] == [] && [trace][..0] == [] && trace.tries[..0] == [];
    assert PlanFor(t, plan);
    assert GoodTrace(t, plan, trace);
    assert RunTries(t, trace.tries) == Apply(t, trace.tries[0]);
  }

  function ExampleCache(): Cache {
    Cache("probes", "phone")
  }

  /** Every store directory is the default one. */
  function ExampleInit(): State {
    State(0, (text: string) => "probes", map[], map[Sandbox("phone", "app") := ExampleTree()], map[])
  }

  function ExampleRun(): seq<Event> {
    [Save(ExampleCache(), ExampleProbes(), ExampleProbes()), Gate(0, ExampleRequest()), MakePlans(0, [ExamplePlan()])]
  }

  /** The state after the first i events of ExampleRun. */
  function ExampleStage(i: nat): State {
    var saved := ExampleInit().(store := map[ExampleCache() := ExampleProbes()]);
    match i
    case 0 => ExampleInit()
    case 1 => saved
    case 2 => saved.(pending := map[0 := Pending(ExampleRequest(), None)])
    case _ => Planned()
  }

  function Planned(): State {
    ExampleInit().(store := map[ExampleCache() := ExampleProbes()],
                   pending := map[0 := Pending(ExampleRequest(), Some([ExamplePlan()]))])
  }

  lemma ExampleSaves()
    ensures CanHappen(ExampleStage(0), ExampleRun()[0]) && Next(ExampleStage(0), ExampleRun()[0]) == ExampleStage(1)
  {
    assert SortedPermutation(ByBundle(), ExampleProbes(), ExampleProbes());
  }

  lemma ExampleGates()
    ensures CanHappen(ExampleStage(1), ExampleRun()[1]) && Next(ExampleStage(1), ExampleRun()[1]) == ExampleStage(2)
  {
  }

  lemma ExamplePlansFit()
    ensures PlansFor(ExampleTree(), Targets(Include(true, false, false)), [ExamplePlan()])
  {
    ExampleTargets();
    ExampleClean();
  }

  lemma PlansPossible(s: State, r: Request)
    requires Aim(r) == Some((Sandbox("phone", "app"), Include(true, false, false)))
    requires s.pending == map[0 := Pending(r, None)] && s.trees == Planned().trees
    ensures CanHappen(s, MakePlans(0, [ExamplePlan()]))
    ensures Next(s, MakePlans(0, [ExamplePlan()])) == s.(pending := map[0 := Pending(r, Some([ExamplePlan()]))])
  {
    ExamplePlansFit();
    assert TreeOf(s, Sandbox("phone", "app")) == ExampleTree();
    PlansCanHappen(s, 0, r, Sandbox("phone", "app"), Include(true, false, false), [ExamplePlan()]);
  }

  lemma ExampleTargets()
    ensures Targets(Include(true, false, false)) == [TARGET_TMP]
  {
  }

  lemma ExamplePlans()
    ensures CanHappen(ExampleStage(2), ExampleRun()[2]) && Next(ExampleStage(2), ExampleRun()[2]) == ExampleStage(3)
  {
    ExampleAim();
    PlansPossible(ExampleStage(2), ExampleRequest());
  }

  lemma {:induction false} ExampleReaches(i: nat)
    requires i <= 3
    ensures LegalRun(ExampleInit(), ExampleRun()[..i]) && Run(ExampleInit(), ExampleRun()[..i]) == ExampleStage(i)
  {
    if i > 0 {
      var run := ExampleRun();
      ExampleReaches(i - 1);
      ExampleSaves();
      ExampleGates();
      ExamplePlans();
      RunSnoc(ExampleInit(), run[..i - 1], run[i - 1]);
      TakeStep(run, i - 1);
    }
  }

  lemma ExampleRunIsLegal()
    ensures LegalRun(ExampleInit(), ExampleRun()) && Run(ExampleInit(), ExampleRun()) == Planned()
  {
    ExampleReaches(3);
    TakeAll(ExampleRun(), 3);
  }

  /** In a state that still has the tree and the pending clean with its plans, it can delete. */
  lemma PlannedDeletes(s: State, r: Request)
    requires Aim(r) == Some((Sandbox("phone", "app"), Include(true, false, false)))
    requires s.pending == map[0 := Pending(r, Some([ExamplePlan()]))] && s.trees == Planned().trees
    ensures CanHappen(s, ExampleDelete())
    ensures "tmp/a" in TreeOf(s, Sandbox("phone", "app"))
    ensures "tmp/a" !in TreeOf(Next(s, ExampleDelete()), Sandbox("phone", "app"))
  {
    ExampleTargets();
    ExampleClean();
    DeleteCanHappen(s, 0, r, Sandbox("phone", "app"), Include(true, false, false), [ExamplePlan()], [ExampleTrace()]);
  }

  lemma ExampleSees()
    ensures Sees(Planned(), ExampleRequest())
  {
  }

  /** The gates do let a clean through: after a probe is saved, a confirmed request deletes. */
  lemma AuthorisedCleanDeletes()
    ensures Initial(ExampleInit()) && LegalRun(ExampleInit(), ExampleRun())
    ensures var s := Run(ExampleInit(), ExampleRun());
      && CanHappen(s, ExampleDelete())
      && "tmp/a" !in TreeOf(Next(s, ExampleDelete()), Sandbox("phone", "app"))
      && Authorised(ExampleRun(), s, ExampleRequest(), Sandbox("phone", "app"), Include(true, false, false))
  {
    ExampleRunIsLegal();
    ExampleAim();
    PlannedDeletes(Planned(), ExampleRequest());
    ExampleSees();
    AimIsAuthorised(ExampleInit(), ExampleRun(), ExampleRequest());
  }

  // ---- A probe that is too old when the deletion happens -------------------

  function StaleRun(): seq<Event> {
    ExampleRun() + [Tick(TTL_MCP)]
  }

  lemma ExampleLatestSave()
    ensures LatestSave(StaleRun(), ExampleCache()) == Some(ExampleProbes())
  {
    var run, stale := ExampleRun(), StaleRun();
    assert stale[..3] == run && run[..2][..1] == run[..1];
    assert LatestSave(run[..1], ExampleCache()) == Some(ExampleProbes());
    assert LatestSave(run[..2], ExampleCache()) == Some(ExampleProbes());
    assert LatestSave(run, ExampleCache()) == Some(ExampleProbes());
  }

  lemma ExampleLatest(at: int)
    requires VendedAt(ExampleProbes(), "app", at)
    ensures at == 0
  {
  }

  /** Five minutes pass after the gates: the clean still deletes, and is no longer authorised. */
  lemma StaleCleanDeletes()
    ensures Initial(ExampleInit()) && LegalRun(ExampleInit(), StaleRun())
    ensures var s := Run(ExampleInit(), StaleRun());
      && CanHappen(s, ExampleDelete())
      && "tmp/a" !in TreeOf(Next(s, ExampleDelete()), Sandbox("phone", "app"))
      && !Authorised(StaleRun(), s, ExampleRequest(), Sandbox("phone", "app"), Include(true, false, false))
  {
    ExampleRunIsLegal();
    RunSnoc(ExampleInit(), ExampleRun(), Tick(TTL_MCP));
    var s := Planned().(now := TTL_MCP);
    ExampleAim();
    PlannedDeletes(s, ExampleRequest());
    ExampleLatestSave();
    forall at | LatestIsVended(StaleRun(), ExampleCache(), "app", at)
      ensures !Recent(ExampleRequest(), s.now, at)
    {
      ExampleLatest(at);
    }
  }

  // ---- A refusal saved in between -----------------------------------------

  function RefusedProbes(): seq<ProbeResult> {
    [ProbeResult("app", Refused, "", 0)]
  }

  function RefusedRun(): seq<Event> {
    ExampleRun() + [Save(ExampleCache(), RefusedProbes(), RefusedProbes())]
  }

  /** A refusal is saved after the gates: the clean still deletes at once, and is not authorised. */
  lemma RefusedCleanDeletes()
    ensures Initial(ExampleInit()) && LegalRun(ExampleInit(), RefusedRun())
    ensures var s := Run(ExampleInit(), RefusedRun());
      && CanHappen(s, ExampleDelete())
      && "tmp/a" !in TreeOf(Next(s, ExampleDelete()), Sandbox("phone", "app"))
      && !Authorised(RefusedRun(), s, ExampleRequest(), Sandbox("phone", "app"), Include(true, false, false))
  {
    var e := Save(ExampleCache(), RefusedProbes(), RefusedProbes());
    ExampleRunIsLegal();
    assert SortedPermutation(ByBundle(), RefusedProbes(), RefusedProbes());
    RunSnoc(ExampleInit(), ExampleRun(), e);
    ExampleAim();
    PlannedDeletes(Next(Planned(), e), ExampleRequest());
    assert LatestSave(RefusedRun(), ExampleCache()) == Some(RefusedProbes());
    forall at
      ensures !VendedAt(RefusedProbes(), "app", at)
    {
    }
  }

  // ---- A probe from another store directory --------------------------------

  /** apps clean app --yes --include-tmp --store-dir=/d */
  function OtherArgs(): seq<string> {
    ["app", "--yes", "--include-tmp", "--store-dir=/d"]
  }

  function OtherFlags(): seq<string> {
    ["--yes", "--include-tmp", "--store-dir=/d"]
  }

  function OtherRequest(): Request {
    Cli(OtherArgs(), CliEnv(Device("phone"), Ok(ExampleProbes()), 0, true, Ok(""), Ok(false)))
  }

  /** A flag token that takes no argument after it and makes the given assignment. */
  ghost predicate Lone(fs: FlagSet, token: string, assign: Assign) {
    && !NonFlag(token) && token != "--" && !IsPositional(token) && !TakesNext(fs, token)
    && forall rest :: ParseFlag(fs, token, rest) == Set(assign, rest)
  }

  lemma BareFlag(fs: FlagSet, name: string)
    requires fs.Valid() && name in fs.bools && name != "" && fs.accepts(name, "true")
    ensures Lone(fs, "--" + name, Assign(name, "true"))
  {
    var token := "--" + name;
    assert AfterDashes(token) == name;
    SameName(token);
  }

  lemma FlagWithText(fs: FlagSet, name: string, value: string)
    requires fs.Valid() && name in fs.values && name != "" && fs.accepts(name, value)
    ensures Lone(fs, "--" + (name + ['='] + value), Assign(name, value))
  {
    var body := name + ['='] + value;
    var token := "--" + body;
    assert fs.Known(name) && body[0] == name[0];
    assert AfterDashes(token) == body;
    CutOnce(name, value);
    SameName(token);
  }

  lemma {:induction false} CutOnce(a: string, b: string)
    requires '=' !in a
    ensures CutAt(a + ['='] + b, '=') == (a, Some(b))
  {
    var s := a + ['='] + b;
    if a == "" {
      assert s[1..] == b;
    } else {
      CutOnce(a[1..], b);
      assert s[1..] == a[1..] + ['='] + b && s[0] == a[0] && [a[0]] + a[1..] == a;
    }
  }

  ghost predicate AllLone(fs: FlagSet, tokens: seq<string>, sets: seq<Assign>) {
    |sets| == |tokens| && forall i :: 0 <= i < |tokens| ==> Lone(fs, tokens[i], sets[i])
  }

  lemma {:induction false} SplitLones(fs: FlagSet, tokens: seq<string>, sets: seq<Assign>)
    requires AllLone(fs, tokens, sets)
    ensures Split(fs, tokens) == (tokens, [])
  {
    if tokens != [] {
      assert Lone(fs, tokens[0], sets[0]);
      SplitLones(fs, tokens[1..], sets[1..]);
      assert tokens == [tokens[0]] + tokens[1..];
    }
  }

  lemma ParseLone(fs: FlagSet, token: string, assign: Assign, rest: seq<string>)
    requires Lone(fs, token, assign)
    ensures Parse(fs, [token] + rest) == Outcome([assign] + Parse(fs, rest).sets, Parse(fs, rest).stop)
  {
    assert ([token] + rest)[1..] == rest && ([token] + rest)[0] == token;
    assert ParseFlag(fs, token, rest) == Set(assign, rest);
  }

  lemma {:induction false} ParseLones(fs: FlagSet, tokens: seq<string>, sets: seq<Assign>)
    requires AllLone(fs, tokens, sets)
    ensures Parse(fs, tokens + ["--"]) == Outcome(sets, Done([]))
  {
    if tokens == [] {
      assert tokens + ["--"] == ["--"] && ["--"][1..] == [];
      assert Parse(fs, ["--"]) == Outcome([], Done([]));
    } else {
      ParseLones(fs, tokens[1..], sets[1..]);
      ParseLone(fs, tokens[0], sets[0], tokens[1..] + ["--"]);
      assert tokens + ["--"] == [tokens[0]] + (tokens[1..] + ["--"]);
      assert sets == [sets[0]] + sets[1..];
    }
  }

  lemma ConsLone(fs: FlagSet, token: string, assign: Assign, tokens: seq<string>, sets: seq<Assign>)
    requires Lone(fs, token, assign) && AllLone(fs, tokens, sets)
    ensures AllLone(fs, [token] + tokens, [assign] + sets)
  {
  }

  function OtherSets(): seq<Assign> {
    [Assign("yes", "true"), Assign("include-tmp", "true"), Assign("store-dir", "/d")]
  }

  lemma OtherLones(fs: FlagSet)
    requires fs.Valid() && {"yes", "include-tmp"} <= fs.bools && "store-dir" in fs.values
    requires fs.accepts("yes", "true") && fs.accepts("include-tmp", "true") && fs.accepts("store-dir", "/d")
    ensures Lone(fs, "--yes", Assign("yes", "true"))
    ensures Lone(fs, "--include-tmp", Assign("include-tmp", "true"))
    ensures Lone(fs, "--store-dir=/d", Assign("store-dir", "/d"))
  {
    Spellings();
    BareFlag(fs, "yes");
    BareFlag(fs, "include-tmp");
    FlagWithText(fs, "store-dir", "/d");
  }

  lemma Spellings()
    ensures "--" + "yes" == "--yes" && "--" + "include-tmp" == "--include-tmp"
    ensures "--" + ("store-dir" + ['='] + "/d") == "--store-dir=/d"
  {
  }

  lemma OtherAllLone(fs: FlagSet)
    requires Lone(fs, "--yes", Assign("yes", "true"))
    requires Lone(fs, "--include-tmp", Assign("include-tmp", "true"))
    requires Lone(fs, "--store-dir=/d", Assign("store-dir", "/d"))
    ensures AllLone(fs, OtherFlags(), OtherSets())
  {
    ConsLone(fs, "--store-dir=/d", Assign("store-dir", "/d"), [], []);
    ConsLone(fs, "--include-tmp", Assign("include-tmp", "true"), ["--store-dir=/d"] + [], [Assign("store-dir", "/d")] + []);
    ConsLone(fs, "--yes", Assign("yes", "true"), ["--include-tmp"] + (["--store-dir=/d"] + []),
             [Assign("include-tmp", "true")] + ([Assign("store-dir", "/d")] + []));
    OtherLists();
  }

  lemma OtherLists()
    ensures ["--yes"] + (["--include-tmp"] + (["--store-dir=/d"] + [])) == OtherFlags()
    ensures [Assign("yes", "true")] + ([Assign("include-tmp", "true")] + ([Assign("store-dir", "/d")] + [])) == OtherSets()
    ensures ["app"] + OtherFlags() == OtherArgs()
  {
  }

  lemma PositionalFirst(fs: FlagSet, word: string, tokens: seq<string>, sets: seq<Assign>)
    requires IsPositional(word) && AllLone(fs, tokens, sets)
    ensures Split(fs, [word] + tokens) == (tokens, [word])
  {
    SplitLones(fs, tokens, sets);
    SplitPos(fs, word, tokens);
    assert [word] + [] == [word];
  }

  lemma CleanFlagsAccept()
    ensures var fs := CleanFlags();
      && fs.Valid() && {"yes", "include-tmp"} <= fs.bools && "store-dir" in fs.values
      && fs.accepts("yes", "true") && fs.accepts("include-tmp", "true")
  {
  }

  lemma CleanFlagsAcceptText()
    ensures CleanFlags().accepts("store-dir", "/d")
  {
    assert |"store-dir"| == 9 && |"dry-run"| == 7 && |"yes"| == 3;
    assert |"include-documents"| == 17 && |"include-tmp"| == 11 && |"include-caches"| == 14;
  }

  lemma OtherLine()
    ensures Split(CleanFlags(), OtherArgs()).1 == ["app"]
    ensures ParsedLine(OtherArgs()) == Outcome(OtherSets(), Done([]))
  {
    CleanFlagsAccept();
    CleanFlagsAcceptText();
    OtherLones(CleanFlags());
    OtherAllLone(CleanFlags());
    PositionalFirst(CleanFlags(), "app", OtherFlags(), OtherSets());
    ParseLones(CleanFlags(), OtherFlags(), OtherSets());
    OtherLists();
  }

  lemma SettingStep(sets: seq<Assign>, last: Assign, name: string)
    ensures Setting(sets + [last], name) <==> if last.name == name then IsTrue(last.value) else Setting(sets, name)
    ensures TextSetting(sets + [last], name) == if last.name == name then last.value else TextSetting(sets, name)
  {
    SnocTake(sets, last);
  }

  lemma OtherSetting(name: string)
    ensures Setting(OtherSets(), name) <==> name == "yes" || name == "include-tmp"
    ensures TextSetting(OtherSets(), "store-dir") == "/d"
  {
    var a, b, c := Assign("yes", "true"), Assign("include-tmp", "true"), Assign("store-dir", "/d");
    assert OtherSets() == (([] + [a]) + [b]) + [c];
    SettingStep([], a, name);
    SettingStep([] + [a], b, name);
    SettingStep(([] + [a]) + [b], c, name);
    SettingStep(([] + [a]) + [b], c, "store-dir");
    assert |"store-dir"| == 9 && |"yes"| == 3 && |"include-tmp"| == 11;
    assert "/d"[0] == '/';
  }

  lemma OtherScope()
    ensures var sets := OtherSets();
      && Setting(sets, "include-tmp") && !Setting(sets, "include-caches") && !Setting(sets, "include-documents")
      && Setting(sets, "yes") && !Setting(sets, "dry-run") && TextSetting(sets, "store-dir") == "/d"
  {
    OtherSetting("yes");
    OtherSetting("dry-run");
    OtherSetting("include-tmp");
    OtherSetting("include-caches");
    OtherSetting("include-documents");
    assert |"yes"| == 3 && |"dry-run"| == 7 && |"include-documents"| == 17 && |"include-tmp"| == 11 && |"include-caches"| == 14;
  }

  /** "" names the default directory, every other text itself. */
  function OtherInit(): State {
    ExampleInit().(dirOf := (text: string) => if text == "" then "probes" else text)
  }

  function OtherPlanned(): State {
    OtherInit().(store := map[ExampleCache() := RefusedProbes(), Cache("/d", "phone") := ExampleProbes()],
                 pending := map[0 := Pending(OtherRequest(), Some([ExamplePlan()]))])
  }

  function OtherRun(): seq<Event> {
    [Save(ExampleCache(), RefusedProbes(), RefusedProbes()), Save(Cache("/d", "phone"), ExampleProbes(), ExampleProbes()),
     Gate(0, OtherRequest()), MakePlans(0, [ExamplePlan()])]
  }

  lemma OtherSees()
    ensures StoreDir(OtherRequest()) == "/d"
    ensures Sees(OtherPlanned(), OtherRequest())
    ensures RecentlyVended(OtherPlanned(), OtherRequest(), Cache("/d", "phone"), "app")
  {
    OtherLine();
    OtherScope();
    ExampleNewest();
    assert "/d" != "" && "/d" != "probes" by {
      assert "/d"[0] == '/' && "probes"[0] == 'p';
    }
    assert CacheFor(OtherPlanned(), OtherRequest(), "phone") == Cache("/d", "phone");
  }

  lemma OtherAim()
    ensures Aim(OtherRequest()) == Some((Sandbox("phone", "app"), Include(true, false, false)))
  {
    var s, o := OtherPlanned(), CliOptions("app", "phone", Include(true, false, false), false, true);
    OtherLine();
    OtherScope();
    OtherSees();
    AppIsAcceptable();
    CliGateIff(s, OtherRequest(), o);
    assert CliConfirm(o, OtherRequest().env).None?;
  }

  lemma AppIsAcceptable()
    ensures TrimSpace("app") == "app" && Acceptable("app")
  {
    assert TrimLeft("app") == "app" && TrimRight("app") == "app";
  }

  /** The state after the first i events of OtherRun. */
  function OtherStage(i: nat): State {
    match i
    case 0 => OtherInit()
    case 1 => OtherInit().(store := map[ExampleCache() := RefusedProbes()])
    case 2 => OtherPlanned().(pending := map[])
    case 3 => OtherPlanned().(pending := map[0 := Pending(OtherRequest(), None)])
    case _ => OtherPlanned()
  }

  lemma OtherSaves()
    ensures CanHappen(OtherStage(0), OtherRun()[0]) && Next(OtherStage(0), OtherRun()[0]) == OtherStage(1)
    ensures CanHappen(OtherStage(1), OtherRun()[1]) && Next(OtherStage(1), OtherRun()[1]) == OtherStage(2)
  {
    assert SortedPermutation(ByBundle(), RefusedProbes(), RefusedProbes());
    assert SortedPermutation(ByBundle(), ExampleProbes(), ExampleProbes());
    assert Cache("/d", "phone").dir[0] == '/' && ExampleCache().dir[0] == 'p';
    assert map[ExampleCache() := RefusedProbes()][Cache("/d", "phone") := ExampleProbes()]
        == map[ExampleCache() := RefusedProbes(), Cache("/d", "phone") := ExampleProbes()];
  }

  lemma OtherGate()
    ensures CanHappen(OtherStage(2), OtherRun()[2]) && Next(OtherStage(2), OtherRun()[2]) == OtherStage(3)
  {
    OtherSees();
    assert Sees(OtherStage(2), OtherRequest());
  }

  lemma OtherPlans()
    ensures CanHappen(OtherStage(3), OtherRun()[3]) && Next(OtherStage(3), OtherRun()[3]) == OtherStage(4)
  {
    OtherAim();
    PlansPossible(OtherStage(3), OtherRequest());
  }

  lemma OtherHappens(i: nat)
    requires i < 4
    ensures CanHappen(OtherStage(i), OtherRun()[i]) && Next(OtherStage(i), OtherRun()[i]) == OtherStage(i + 1)
  {
    if i < 2 {
      OtherSaves();
    } else if i == 2 {
      OtherGate();
    } else {
      OtherPlans();
    }
  }

  lemma {:induction false} OtherReaches(i: nat)
    requires i <= 4
    ensures LegalRun(OtherInit(), OtherRun()[..i]) && Run(OtherInit(), OtherRun()[..i]) == OtherStage(i)
  {
    if i > 0 {
      var run := OtherRun();
      OtherReaches(i - 1);
      OtherHappens(i - 1);
      RunSnoc(OtherInit(), run[..i - 1], run[i - 1]);
      TakeStep(run, i - 1);
    }
  }

  lemma OtherPlansBuilt()
    ensures LegalRun(OtherInit(), OtherRun()) && Run(OtherInit(), OtherRun()) == OtherPlanned()
  {
    OtherReaches(4);
    TakeAll(OtherRun(), 4);
  }

  /** The shared cache says refused; the store directory on the command line says vended; it deletes. */
  lemma OtherDirectoryDeletes()
    ensures OtherInit().store == map[] && OtherInit().pending == map[]
    ensures LegalRun(OtherInit(), OtherRun()) && Run(OtherInit(), OtherRun()) == OtherPlanned()
    ensures CanHappen(OtherPlanned(), ExampleDelete())
    ensures "tmp/a" !in TreeOf(Next(OtherPlanned(), ExampleDelete()), Sandbox("phone", "app"))
    ensures OtherPlanned().store[SharedCache(OtherPlanned(), "phone")] == RefusedProbes()
  {
    OtherPlansBuilt();
    OtherFinish();
  }

  lemma OtherFinish()
    ensures CanHappen(OtherPlanned(), ExampleDelete())
    ensures "tmp/a" !in TreeOf(Next(OtherPlanned(), ExampleDelete()), Sandbox("phone", "app"))
    ensures OtherPlanned().store[SharedCache(OtherPlanned(), "phone")] == RefusedProbes()
  {
    OtherAim();
    PlannedDeletes(OtherPlanned(), OtherRequest());
    assert Cache("/d", "phone").dir[0] == '/' && ExampleCache().dir[0] == 'p';
  }
}
