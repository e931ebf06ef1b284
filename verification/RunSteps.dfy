/**
 * The programs' methods take the steps of the whole-run machine: saving and reading a cache, passing
 * the gates, and finishing a clean. Interleaved savers amount to saves in the order of their renames.
 */
module RunSteps {
  import opened Common
  import opened Ordering
  import opened SandboxFs
  import opened Cleaner
  import opened CleanRun
  import opened Probes
  import opened ProbeStore
  import opened CleanGate
  import opened RunSafety
  import StoreRace

  /** The files of a store directory hold what the machine says its caches hold. */
  ghost predicate Holds(s: State, dir: string, files: Files) {
    forall udid :: Loaded(files, udid) == Load(s, Cache(dir, udid))
  }

  lemma SaveHolds(s: State, dir: string, files: Files, udid: string, now: int, results: seq<ProbeResult>, sorted: seq<ProbeResult>)
    requires Holds(s, dir, files) && SortedPermutation(ByBundle(), results, sorted)
    ensures CanHappen(s, RunSafety.Save(Cache(dir, udid), results, sorted))
    ensures Holds(Next(s, RunSafety.Save(Cache(dir, udid), results, sorted)), dir,
                  files[Final(udid) := Whole(DiskFile(udid, now, AllToDisk(sorted)))])
  {
    var e := RunSafety.Save(Cache(dir, udid), results, sorted);
    var content := Whole(DiskFile(udid, now, AllToDisk(sorted)));
    SaveLoadRoundTrip(files, udid, now, results, sorted);
    forall u
      ensures Loaded(files[Final(udid) := content], u) == Load(Next(s, e), Cache(dir, u))
    {
      if u != udid {
        SaveIsPerDevice(files, udid, u, content);
      }
    }
  }

  /** A successful Save is the machine's Save; a failed one leaves every cache as it was. */
  method SaveProbes(ghost s: State, ghost dir: string, store: FileProbeStore, udid: string, results: seq<ProbeResult>, now: int)
      returns (err: Option<Error>, ghost sorted: seq<ProbeResult>)
    requires Holds(s, dir, store.files)
    modifies store
    ensures err.None? <==> store.log == old(store.log) + SaveLog(6, true)
    ensures err.None? ==>
      var e := RunSafety.Save(Cache(dir, udid), results, sorted);
      CanHappen(s, e) && Holds(Next(s, e), dir, store.files)
    ensures err.Some? ==> Holds(s, dir, store.files)
  {
    ghost var before := store.files;
    ghost var n, leaked;
    err, sorted, n, leaked := store.Save(udid, results, now);
    SavedIff(old(store.log), n, leaked.None?);
    if err.None? {
      SaveHolds(s, dir, before, udid, now, results, sorted);
    } else {
      TempsDoNotMatter(before, store.files);
    }
  }

  lemma TempsDoNotMatter(files: Files, files': Files)
    requires files' == files || exists n: Name :: n.Temp? && n !in files && files' - {n} == files
    ensures forall u :: Loaded(files', u) == Loaded(files, u)
  {
    if files' != files {
      var n: Name :| n.Temp? && n !in files && files' - {n} == files;
      forall u
        ensures Loaded(files', u) == Loaded(files, u)
      {
        assert Final(u) in files' - {n} <==> Final(u) in files';
      }
    }
  }

  /** The CLI reads the cache of its store directory and then passes or fails its gates. */
  method GateCli(ghost s: State, store: FileProbeStore, args: seq<string>, resolved: Resolved, now: int, opens: bool,
                 typed: Result<string, Error>, confirmed: Result<bool, Error>) returns (r: Request)
    requires now == s.now && Holds(s, s.dirOf(TextSetting(ParsedLine(args).sets, "store-dir")), store.files)
    modifies store`log
    ensures r.Cli? && r.args == args && r.env == CliEnv(resolved, r.env.loaded, now, opens, typed, confirmed)
    ensures resolved.Device? && r.env.loaded.Err? ==>
      Loaded(store.files, resolved.udid).Err? || store.log == old(store.log) + [Done(ReadFile, false)]
    ensures forall id: nat :: id !in s.pending ==> CanHappen(s, Gate(id, r))
  {
    var loaded: Result<seq<ProbeResult>, Error> := Ok([]);
    if resolved.Device? {
      loaded := store.Load(resolved.udid);
    }
    r := Cli(args, CliEnv(resolved, loaded, now, opens, typed, confirmed));
  }

  /** The MCP server reads the shared cache. */
  method GateMcp(ghost s: State, store: FileProbeStore, req: McpRequest, resolved: Resolved, now: int, opens: bool)
      returns (r: Request)
    requires now == s.now && Holds(s, s.dirOf(""), store.files)
    modifies store`log
    ensures r.Mcp? && r.req == req && r.menv == McpEnv(resolved, r.menv.loaded, now, opens)
    ensures resolved.Device? && r.menv.loaded.Err? ==>
      Loaded(store.files, resolved.udid).Err? || store.log == old(store.log) + [Done(ReadFile, false)]
    ensures forall id: nat :: id !in s.pending ==> CanHappen(s, Gate(id, r))
  {
    var loaded: Result<seq<ProbeResult>, Error> := Ok([]);
    if resolved.Device? {
      loaded := store.Load(resolved.udid);
    }
    r := Mcp(req, McpEnv(resolved, loaded, now, opens));
  }

  /** The sandboxes after a clean: the aimed one has become t', every other one is as it was. */
  ghost predicate AfterClean(s: State, s': State, aim: Option<(Sandbox, Include)>, t': Tree) {
    && (aim.Some? ==> TreeOf(s', aim.value.0) == t')
    && forall b :: aim.None? || aim.value.0 != b ==> TreeOf(s', b) == TreeOf(s, b)
  }

  /** Building the plans of a pending clean on the sandbox it opened is the machine's step. */
  method PlanClean(ghost s: State, ghost id: nat, ghost r: Request, scope: Include, fs: FS)
      returns (built: Result<seq<CleanPlan>, Error>, ghost walks: seq<Call>)
    requires id in s.pending && s.pending[id] == Pending(r, None)
    requires Opened(r).Some? && Opened(r).value.1 == scope && fs.tree == TreeOf(s, Opened(r).value.0)
    modifies fs`log
    ensures fs.log == old(fs.log) + walks
    ensures Walks(Targets(scope), walks, if built.Ok? then None else Some(built.error))
    ensures built.Ok? ==> CanHappen(s, MakePlans(id, built.value))
  {
    var targets := CollectTargets(scope);
    built, walks := BuildPlans(fs, targets);
  }

  /** Executing those plans later, on the sandbox as it has become, is the machine's deletion. */
  method DeleteClean(ghost s: State, ghost id: nat, ghost r: Request, plans: seq<CleanPlan>, fs: FS)
      returns (results: seq<CleanResult>, ghost traces: seq<Trace>)
    requires id in s.pending && s.pending[id] == Pending(r, Some(plans))
    requires Aim(r).Some? && fs.tree == TreeOf(s, Aim(r).value.0)
    modifies fs
    ensures CanHappen(s, Delete(id, traces)) && Reports(plans, traces, results)
    ensures AfterClean(s, Next(s, Delete(id, traces)), Aim(r), fs.tree)
  {
    results, traces := ExecutePlans(fs, plans);
    ghost var e := Delete(id, traces);
    forall b | Aim(r).value.0 != b
      ensures TreeOf(Next(s, e), b) == TreeOf(s, b)
    {
      OthersUnchanged(s, e, b);
    }
  }

  /** The machine's events for an undisturbed clean: planning and deletion, or nothing. */
  function DeedEvents(id: nat, deed: Deed): seq<Event> {
    if deed.Nothing? then [Drop(id)] else [MakePlans(id, deed.plans), Delete(id, deed.traces)]
  }

  lemma DropIsRun(s: State, id: nat)
    requires id in s.pending
    ensures LegalRun(s, [Drop(id)]) && Run(s, [Drop(id)]).trees == s.trees
  {
    assert LegalRun(s, []) && Run(s, []) == s;
    RunSnoc(s, [], Drop(id));
    assert [] + [Drop(id)] == [Drop(id)];
  }

  lemma PlanThenDelete(s: State, id: nat, plans: seq<CleanPlan>, traces: seq<Trace>)
    requires CanHappen(s, MakePlans(id, plans)) && CanHappen(Next(s, MakePlans(id, plans)), Delete(id, traces))
    ensures LegalRun(s, [MakePlans(id, plans), Delete(id, traces)])
    ensures Run(s, [MakePlans(id, plans), Delete(id, traces)]) == Next(Next(s, MakePlans(id, plans)), Delete(id, traces))
  {
    var plan, delete := MakePlans(id, plans), Delete(id, traces);
    assert LegalRun(s, []) && Run(s, []) == s;
    RunSnoc(s, [], plan);
    assert [] + [plan] == [plan];
    RunSnoc(s, [plan], delete);
    assert [plan] + [delete] == [plan, delete];
  }

  lemma SameTreesAfter(s: State, s': State, aim: Option<(Sandbox, Include)>, t': Tree)
    requires s'.trees == s.trees && (aim.Some? ==> t' == TreeOf(s, aim.value.0))
    ensures AfterClean(s, s', aim, t')
  {
  }

  lemma NewTreeAfter(s: State, s': State, b: Sandbox, scope: Include, t': Tree)
    requires s'.trees == s.trees[b := t']
    ensures AfterClean(s, s', Some((b, scope)), t')
  {
  }

  lemma RanIsRun(s: State, id: nat, r: Request, plans: seq<CleanPlan>, traces: seq<Trace>, t': Tree)
    requires id in s.pending && s.pending[id] == Pending(r, None) && Aim(r).Some?
    requires Cleaned(TreeOf(s, Aim(r).value.0), t', Targets(Aim(r).value.1), plans, traces)
    ensures LegalRun(s, [MakePlans(id, plans), Delete(id, traces)])
    ensures AfterClean(s, Run(s, [MakePlans(id, plans), Delete(id, traces)]), Aim(r), t')
  {
    var (b, scope) := Aim(r).value;
    var planned := s.(pending := s.pending[id := Pending(r, Some(plans))]);
    PlansCanHappen(s, id, r, b, scope, plans);
    DeleteCanHappen(planned, id, r, b, scope, plans, traces);
    PlanThenDelete(s, id, plans, traces);
    NewTreeAfter(s, Next(planned, Delete(id, traces)), b, scope, t');
  }

  /** What a deed did to the sandbox it was aimed at is what its events do, and they do nothing else. */
  lemma DeedIsRun(s: State, id: nat, r: Request, deed: Deed, t': Tree)
    requires id in s.pending && s.pending[id] == Pending(r, None)
    requires deed.Ran? ==>
      && Aim(r).Some? && Cleaned(TreeOf(s, Aim(r).value.0), t', Targets(Aim(r).value.1), deed.plans, deed.traces)
    requires deed.Nothing? && Aim(r).Some? ==> t' == TreeOf(s, Aim(r).value.0)
    ensures LegalRun(s, DeedEvents(id, deed)) && AfterClean(s, Run(s, DeedEvents(id, deed)), Aim(r), t')
  {
    if deed.Nothing? {
      DropIsRun(s, id);
      SameTreesAfter(s, Run(s, [Drop(id)]), Aim(r), t');
    } else {
      RanIsRun(s, id, r, deed.plans, deed.traces, t');
    }
  }

  /** Running the CLI's clean undisturbed is planning and deletion of its pending request, or neither. */
  method FinishCli(ghost s: State, ghost id: nat, args: seq<string>, env: CliEnv, fs: FS) returns (exit: int, ghost deed: Deed)
    requires id in s.pending && s.pending[id] == Pending(Cli(args, env), None)
    requires Aim(Cli(args, env)).Some? ==> fs.tree == TreeOf(s, Aim(Cli(args, env)).value.0)
    modifies fs
    ensures LegalRun(s, DeedEvents(id, deed))
    ensures AfterClean(s, Run(s, DeedEvents(id, deed)), Aim(Cli(args, env)), fs.tree)
    ensures Aim(Cli(args, env)).None? ==> deed.Nothing? && fs.tree == old(fs.tree)
  {
    ghost var walks, failed;
    exit, deed, walks, failed := RunAppsClean(args, env, fs);
    DeedIsRun(s, id, Cli(args, env), deed, fs.tree);
  }

  /** The same for the MCP tool. */
  method FinishMcp(ghost s: State, ghost id: nat, req: McpRequest, env: McpEnv, fs: FS)
      returns (reply: McpReply, ghost deed: Deed)
    requires id in s.pending && s.pending[id] == Pending(Mcp(req, env), None)
    requires Aim(Mcp(req, env)).Some? ==> fs.tree == TreeOf(s, Aim(Mcp(req, env)).value.0)
    modifies fs
    ensures LegalRun(s, DeedEvents(id, deed))
    ensures AfterClean(s, Run(s, DeedEvents(id, deed)), Aim(Mcp(req, env)), fs.tree)
    ensures Aim(Mcp(req, env)).None? ==> deed.Nothing? && fs.tree == old(fs.tree)
  {
    ghost var walks, failed;
    reply, deed, walks, failed := HandleAppsClean(req, env, fs);
    DeedIsRun(s, id, Mcp(req, env), deed, fs.tree);
  }

  // ---- Interleaved savers -------------------------------------------------

  /** The results that each saver was given, sorted as it writes them. */
  ghost predicate Writes(init: StoreRace.State, given: map<nat, seq<ProbeResult>>) {
    forall w :: w in init.savers ==>
      && w in given
      && SortedPermutation(ByBundle(), given[w], AllFromDisk(init.savers[w].payload.results))
  }

  /** The last step of the interleaving is a rename that takes effect. */
  predicate Renames(init: StoreRace.State, events: seq<StoreRace.Event>) {
    events != [] &&
    var n := |events| - 1;
    events[n].Rename? && events[n].ok && StoreRace.Enabled(StoreRace.Run(init, events[..n]), events[n])
  }

  /** The save which that rename amounts to. */
  function LastSave(dir: string, init: StoreRace.State, events: seq<StoreRace.Event>, given: map<nat, seq<ProbeResult>>): Event
    requires Renames(init, events) && events[|events| - 1].who in given
  {
    var n := |events| - 1;
    var v := StoreRace.Run(init, events[..n]).savers[events[n].who];
    RunSafety.Save(Cache(dir, v.udid), given[events[n].who], AllFromDisk(v.payload.results))
  }

  /** One Save per rename that took effect, in that order. */
  function SavesOf(dir: string, init: StoreRace.State, events: seq<StoreRace.Event>, given: map<nat, seq<ProbeResult>>): seq<Event> {
    if events == [] then []
    else
      var saves := SavesOf(dir, init, events[..|events| - 1], given);
      if Renames(init, events) && events[|events| - 1].who in given then saves + [LastSave(dir, init, events, given)]
      else saves
  }

  /** A step changes what readers find only if it is a rename, and then for its device only. */
  lemma LoadedStep(init: StoreRace.State, events: seq<StoreRace.Event>, u: string)
    requires StoreRace.Initial(init) && events != []
    ensures var n := |events| - 1;
      var r := StoreRace.Run(init, events[..n]);
      Loaded(StoreRace.Run(init, events).files, u)
      == if Renames(init, events) && r.savers[events[n].who].udid == u
         then Ok(AllFromDisk(r.savers[events[n].who].payload.results))
         else Loaded(r.files, u)
  {
    StoreRace.SavesAreAtomic(init, events, u);
    StoreRace.SavesAreAtomic(init, events[..|events| - 1], u);
  }

  lemma LastSaveCanHappen(s: State, dir: string, init: StoreRace.State, events: seq<StoreRace.Event>,
                          given: map<nat, seq<ProbeResult>>)
    requires StoreRace.Initial(init) && Writes(init, given) && Renames(init, events)
    ensures events[|events| - 1].who in given && CanHappen(s, LastSave(dir, init, events, given))
  {
    var n := |events| - 1;
    StoreRace.RunKeepsInv(init, events[..n]);
    assert StoreRace.SameRun(init, StoreRace.Run(init, events[..n]), events[n].who);
  }

  lemma LastSaveHolds(s: State, dir: string, init: StoreRace.State, events: seq<StoreRace.Event>,
                      given: map<nat, seq<ProbeResult>>)
    requires StoreRace.Initial(init) && Writes(init, given) && Renames(init, events)
    requires events[|events| - 1].who in given && CanHappen(s, LastSave(dir, init, events, given))
    requires Holds(s, dir, StoreRace.Run(init, events[..|events| - 1]).files)
    ensures Holds(Next(s, LastSave(dir, init, events, given)), dir, StoreRace.Run(init, events).files)
  {
    forall u
      ensures Loaded(StoreRace.Run(init, events).files, u)
           == Load(Next(s, LastSave(dir, init, events, given)), Cache(dir, u))
    {
      LoadedStep(init, events, u);
    }
  }

  /**
   * In every interleaving of savers in one directory, readers find what the machine's caches hold
   * after the saves in the order of their renames.
   */
  lemma {:induction false} RacesAreSaves(s: State, dir: string, init: StoreRace.State, events: seq<StoreRace.Event>,
                                         given: map<nat, seq<ProbeResult>>)
    requires StoreRace.Initial(init) && Writes(init, given) && Holds(s, dir, init.files)
    ensures LegalRun(s, SavesOf(dir, init, events, given))
    ensures Holds(Run(s, SavesOf(dir, init, events, given)), dir, StoreRace.Run(init, events).files)
  {
    if events != [] {
      var before := SavesOf(dir, init, events[..|events| - 1], given);
      RacesAreSaves(s, dir, init, events[..|events| - 1], given);
      if Renames(init, events) {
        LastSaveCanHappen(Run(s, before), dir, init, events, given);
        LastSaveHolds(Run(s, before), dir, init, events, given);
        RunSnoc(s, before, LastSave(dir, init, events, given));
      } else {
        QuietStepHolds(Run(s, before), dir, init, events);
      }
    }
  }

  lemma QuietStepHolds(s: State, dir: string, init: StoreRace.State, events: seq<StoreRace.Event>)
    requires StoreRace.Initial(init) && events != [] && !Renames(init, events)
    requires Holds(s, dir, StoreRace.Run(init, events[..|events| - 1]).files)
    ensures Holds(s, dir, StoreRace.Run(init, events).files)
  {
    forall u
      ensures Loaded(StoreRace.Run(init, events).files, u) == Load(s, Cache(dir, u))
    {
      LoadedStep(init, events, u);
    }
  }
}
