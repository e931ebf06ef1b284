/**
 * Whole runs of the two programs on shared caches and devices: probes that are saved, clock
 * steps, and clean requests through either program, in any order and number. A clean passes its
 * gates, builds its plans and deletes in three events; anything may happen in between, other cleans
 * of the same sandbox included.
 */
module RunSafety {
  import opened Common
  import opened Flags
  import opened Ordering
  import opened Paths
  import opened SandboxFs
  import opened Strings
  import opened Cleaner
  import opened CleanerLaws
  import opened CleanRun
  import opened Probes
  import opened CleanGate
  import opened StaleClean

  /** One app's sandbox on one device. */
  datatype Sandbox = Sandbox(udid: string, bundleID: string)

  /** One clean with what its surroundings answer. */
  datatype Request = Cli(args: seq<string>, env: CliEnv) | Mcp(req: McpRequest, menv: McpEnv)

  /** The probe cache of one device in one store directory. */
  datatype Cache = Cache(dir: string, udid: string)

  /**
   * The clock, the directory that each --store-dir text names ("" names the default one), what Load
   * returns per cache, every sandbox's tree, and the cleans past their gates.
   */
  datatype State = State(
    now: int, dirOf: string -> string, store: map<Cache, seq<ProbeResult>>,
    trees: map<Sandbox, Tree>, pending: map<nat, Pending>)

  /** A clean past its gates, and past its planning once it has plans. */
  datatype Pending = Pending(request: Request, plans: Option<seq<CleanPlan>>)

  /** Save is a completed Save of `results` that stored the order `sorted`. */
  datatype Event =
    | Tick(to: int)
    | Save(cache: Cache, results: seq<ProbeResult>, sorted: seq<ProbeResult>)
    | Gate(id: nat, request: Request)
    | MakePlans(id: nat, plans: seq<CleanPlan>)
    | Delete(id: nat, traces: seq<Trace>)
    | Drop(id: nat)

  /** The --store-dir text; the MCP server has no such option. */
  function StoreDir(r: Request): string {
    if r.Cli? then TextSetting(ParsedLine(r.args).sets, "store-dir") else ""
  }

  /** The cache that request r consults for a device. */
  function CacheFor(s: State, r: Request, udid: string): Cache {
    Cache(s.dirOf(StoreDir(r)), udid)
  }

  /** The cache that both programs consult unless told otherwise. */
  function SharedCache(s: State, udid: string): Cache {
    Cache(s.dirOf(""), udid)
  }

  function Load(s: State, c: Cache): Result<seq<ProbeResult>, Error> {
    Ok(if c in s.store then s.store[c] else [])
  }

  /**
   * A read of the cache fails (an unusable store directory counts as failing) or returns what is
   * stored; the gate sees the current clock.
   */
  ghost predicate Sees(s: State, r: Request) {
    var (resolved, loaded, now) := match r
      case Cli(_, env) => (env.resolved, env.loaded, env.now)
      case Mcp(_, env) => (env.resolved, env.loaded, env.now);
    now == s.now && (resolved.Device? && loaded.Ok? ==> loaded == Load(s, CacheFor(s, r, resolved.udid)))
  }

  /** The sandbox a clean opens and its targets, when its gates let it through. */
  function Opened(r: Request): Option<(Sandbox, Include)> {
    match r
    case Cli(args, env) =>
      var g := CliGate(args, env);
      if g.Ok? then Some((Sandbox(g.value.udid, g.value.bundleID), g.value.scope)) else None
    case Mcp(req, menv) =>
      var g := McpGate(req, menv);
      if g.Some? then Some((Sandbox(g.value.udid, g.value.bundleID), g.value.scope)) else None
  }

  /** The same, when the clean goes on to delete: no dry run, and the confirmations given. */
  function Aim(r: Request): Option<(Sandbox, Include)> {
    var deletes := match r
      case Cli(args, env) => CliGate(args, env).Ok? && CliConfirm(CliGate(args, env).value, env).None?
      case Mcp(req, menv) => McpGate(req, menv).Some? && !McpGate(req, menv).value.dryRun;
    if deletes then Opened(r) else None
  }

  lemma AimIsOpened(r: Request)
    requires Aim(r).Some?
    ensures Opened(r) == Aim(r)
  {
  }

  function TreeOf(s: State, b: Sandbox): Tree {
    if b in s.trees then s.trees[b] else map[]
  }

  /**
   * What may happen in state s: plans are built on the tree as it is then, and a deletion carries
   * out those plans on the tree as it has become. Drop ends a clean that deletes nothing.
   */
  ghost predicate CanHappen(s: State, e: Event) {
    match e
    case Tick(_) => true
    case Save(_, results, sorted) => SortedPermutation(ByBundle(), results, sorted)
    case Gate(id, r) => id !in s.pending && Sees(s, r)
    case MakePlans(id, plans) =>
      && id in s.pending && s.pending[id].plans.None? && Opened(s.pending[id].request).Some?
      && var (b, scope) := Opened(s.pending[id].request).value;
         PlansFor(TreeOf(s, b), Targets(scope), plans)
    case Delete(id, traces) =>
      && id in s.pending && s.pending[id].plans.Some? && Aim(s.pending[id].request).Some?
      && |traces| == |s.pending[id].plans.value|
      && GoodRun(TreeOf(s, Aim(s.pending[id].request).value.0), s.pending[id].plans.value, traces)
    case Drop(id) => id in s.pending
  }

  ghost function Next(s: State, e: Event): State
    requires CanHappen(s, e)
  {
    match e
    case Tick(to) => s.(now := to)
    case Save(c, _, sorted) => s.(store := s.store[c := sorted])
    case Gate(id, r) => s.(pending := s.pending[id := Pending(r, None)])
    case MakePlans(id, plans) => s.(pending := s.pending[id := s.pending[id].(plans := Some(plans))])
    case Delete(id, traces) =>
      var b, plans := Aim(s.pending[id].request).value.0, s.pending[id].plans.value;
      s.(pending := s.pending - {id}, trees := s.trees[b := RunPlans(TreeOf(s, b), plans, traces)])
    case Drop(id) => s.(pending := s.pending - {id})
  }

  ghost predicate LegalRun(init: State, events: seq<Event>)
    decreases |events|, 0
  {
    events == [] ||
    var n := |events| - 1;
    LegalRun(init, events[..n]) && CanHappen(Run(init, events[..n]), events[n])
  }

  ghost function Run(init: State, events: seq<Event>): State
    requires LegalRun(init, events)
    decreases |events|, 1
  {
    if events == [] then init
    else
      var n := |events| - 1;
      Next(Run(init, events[..n]), events[n])
  }

  lemma RunSnoc(init: State, events: seq<Event>, e: Event)
    requires LegalRun(init, events) && CanHappen(Run(init, events), e)
    ensures LegalRun(init, events + [e]) && Run(init, events + [e]) == Next(Run(init, events), e)
  {
    SnocTake(events, e);
  }

  predicate Initial(s: State) {
    s.store == map[] && s.pending == map[]
  }

  /** The results given to the latest completed Save into a cache. */
  function LatestSave(events: seq<Event>, c: Cache): Option<seq<ProbeResult>> {
    if events == [] then None
    else
      var e := events[|events| - 1];
      if e.Save? && e.cache == c then Some(e.results) else LatestSave(events[..|events| - 1], c)
  }

  lemma {:induction false} DirsFixed(init: State, events: seq<Event>)
    requires LegalRun(init, events)
    ensures Run(init, events).dirOf == init.dirOf
  {
    if events != [] {
      DirsFixed(init, events[..|events| - 1]);
    }
  }

  /** Every cache holds a sorted permutation of what was saved into it last. */
  lemma {:induction false} StoreIsLatestSave(init: State, events: seq<Event>, c: Cache)
    requires Initial(init) && LegalRun(init, events)
    ensures c in Run(init, events).store <==> LatestSave(events, c).Some?
    ensures c in Run(init, events).store ==>
      SortedPermutation(ByBundle(), LatestSave(events, c).value, Run(init, events).store[c])
  {
    if events != [] {
      StoreIsLatestSave(init, events[..|events| - 1], c);
    }
  }

  /** A pending clean passed its gates at some earlier moment of the run. */
  lemma {:induction false} PendingWasGated(init: State, events: seq<Event>, id: nat) returns (k: nat)
    requires Initial(init) && LegalRun(init, events) && id in Run(init, events).pending
    ensures k < |events| && events[k] == Gate(id, Run(init, events).pending[id].request)
    ensures LegalRun(init, events[..k]) && Sees(Run(init, events[..k]), Run(init, events).pending[id].request)
  {
    var n := |events| - 1;
    if events[n].Gate? && events[n].id == id {
      k := n;
    } else {
      k := PendingWasGated(init, events[..n], id);
      TakeTake(events, n, k);
    }
  }

  /** Trees only shrink. */
  lemma NextShrinks(s: State, e: Event, b: Sandbox)
    requires CanHappen(s, e)
    ensures Submap(TreeOf(Next(s, e), b), TreeOf(s, b))
  {
    if e.Delete? {
      RunPlansShrinks(TreeOf(s, Aim(s.pending[e.id].request).value.0), s.pending[e.id].plans.value, e.traces);
    }
  }

  /** p's plans fit p's sandbox as it was, and its present tree is what is left of that one. */
  ghost predicate BuiltOn(was: State, s: State, p: Pending) {
    && p.plans.Some? && Opened(p.request).Some?
    && var (b, scope) := Opened(p.request).value;
       PlansFor(TreeOf(was, b), Targets(scope), p.plans.value) && Submap(TreeOf(s, b), TreeOf(was, b))
  }

  lemma BuildsPlans(s: State, e: Event)
    requires e.MakePlans? && CanHappen(s, e)
    ensures BuiltOn(s, Next(s, e), Next(s, e).pending[e.id]) && Next(s, e).pending[e.id].plans == Some(e.plans)
  {
    NextShrinks(s, e, Opened(s.pending[e.id].request).value.0);
  }

  lemma KeepsPlans(s: State, e: Event, id: nat)
    requires CanHappen(s, e) && !(e.MakePlans? && e.id == id)
    requires id in Next(s, e).pending && Next(s, e).pending[id].plans.Some?
    ensures id in s.pending && s.pending[id] == Next(s, e).pending[id]
  {
  }

  lemma StillBuiltOn(was: State, s: State, e: Event, p: Pending)
    requires CanHappen(s, e) && BuiltOn(was, s, p)
    ensures BuiltOn(was, Next(s, e), p)
  {
    NextShrinks(s, e, Opened(p.request).value.0);
  }

  /**
   * The plans of a pending clean were built at some earlier moment, on a tree of which the present
   * one is what is left.
   */
  lemma {:induction false} PendingWasPlanned(init: State, events: seq<Event>, id: nat) returns (j: nat)
    requires Initial(init) && LegalRun(init, events)
    requires id in Run(init, events).pending && Run(init, events).pending[id].plans.Some?
    ensures j < |events| && LegalRun(init, events[..j])
    ensures var p := Run(init, events).pending[id];
      events[j] == MakePlans(id, p.plans.value) && BuiltOn(Run(init, events[..j]), Run(init, events), p)
  {
    var n := |events| - 1;
    var s, e := Run(init, events[..n]), events[n];
    if e.MakePlans? && e.id == id {
      BuildsPlans(s, e);
      j := n;
    } else {
      KeepsPlans(s, e, id);
      j := PendingWasPlanned(init, events[..n], id);
      TakeTake(events, n, j);
      StillBuiltOn(Run(init, events[..j]), s, e, s.pending[id]);
    }
  }

  /** The latest save into the cache has a latest entry for the bundle that is vended, at `at`. */
  ghost predicate LatestIsVended(events: seq<Event>, c: Cache, bundleID: string, at: int) {
    LatestSave(events, c).Some? && VendedAt(LatestSave(events, c).value, bundleID, at)
  }

  ghost predicate VendedAt(results: seq<ProbeResult>, bundleID: string, at: int) {
    exists r :: Latest(results, bundleID, r) && r.outcome.Vended? && r.at == at
  }

  lemma FreshMeansSaved(init: State, events: seq<Event>, c: Cache, bundleID: string)
    requires Initial(init) && LegalRun(init, events)
    requires IsVended(Newest(Exact(), Load(Run(init, events), c).value, bundleID))
    ensures LatestIsVended(events, c, bundleID, Newest(Exact(), Load(Run(init, events), c).value, bundleID).value.at)
  {
    var stored := Load(Run(init, events), c).value;
    StoreIsLatestSave(init, events, c);
    var r := Newest(Exact(), stored, bundleID).value;
    var saved := LatestSave(events, c).value;
    NewestIsLatestBy(Exact(), stored, bundleID);
    assert forall q :: q in stored <==> q in saved by {
      assert forall q :: q in stored <==> q in multiset(stored);
      assert forall q :: q in saved <==> q in multiset(saved);
    }
    assert Latest(saved, bundleID, r);
  }

  /** The confirmations the programs demand before they delete. */
  ghost predicate ConfirmedBy(r: Request, b: Sandbox, scope: Include) {
    match r
    case Cli(args, env) =>
      var sets := ParsedLine(args).sets;
      && !Setting(sets, "dry-run")
      && if scope.documents then env.typed.Ok? && TrimSpace(env.typed.value) == b.bundleID
         else Setting(sets, "yes") || env.confirmed == Ok(true)
    case Mcp(req, _) =>
      && req.dryRun == Some(Bool(false))
      && TrimSpace(req.confirmBundleID) == b.bundleID
      && (scope.documents ==> req.ackDocuments)
  }

  /** An entry's age as the program that asks bounds it. */
  predicate Recent(r: Request, now: int, at: int) {
    if r.Mcp? then now - at < TTL_MCP else now - at <= TTL_CLI
  }

  /** Everything that must hold, after `events` and in state s, for request r to delete from sandbox b. */
  ghost predicate Authorised(events: seq<Event>, s: State, r: Request, b: Sandbox, scope: Include) {
    && Acceptable(b.bundleID)
    && ConfirmedBy(r, b, scope)
    && exists at :: LatestIsVended(events, CacheFor(s, r, b.udid), b.bundleID, at) && Recent(r, s.now, at)
  }

  /** The newest entry for the bundle in cache c is vended and recent enough for the program that asks. */
  ghost predicate RecentlyVended(s: State, r: Request, c: Cache, bundleID: string) {
    var n := Newest(Exact(), Load(s, c).value, bundleID);
    IsVended(n) && Recent(r, s.now, n.value.at)
  }

  ghost predicate Acceptable(bundleID: string) {
    !AppleSystem(bundleID) && PrintableASCII(bundleID)
  }

  /** The targets that a request names. */
  function Asked(r: Request): Include {
    match r
    case Cli(args, _) =>
      var sets := ParsedLine(args).sets;
      Include(Setting(sets, "include-tmp"), Setting(sets, "include-caches"), Setting(sets, "include-documents"))
    case Mcp(req, _) => req.scope
  }

  /**
   * The CLI's gates open exactly when the arguments parse and name an acceptable bundle, a device
   * is found, its cache can be read and says recently vended, and the sandbox opens.
   */
  lemma CliGateIff(s: State, r: Request, o: CliOptions)
    requires r.Cli? && Sees(s, r)
    ensures CliGate(r.args, r.env) == Ok(o) <==>
      var parsed, positionals := ParsedLine(r.args), Split(CleanFlags(), r.args).1;
      && parsed.stop.Done? && positionals != [] && o.bundleID == TrimSpace(positionals[0]) && Acceptable(o.bundleID)
      && r.env.resolved == Device(o.udid) && r.env.loaded.Ok? && r.env.opens
      && RecentlyVended(s, r, CacheFor(s, r, o.udid), o.bundleID)
      && Chosen(Asked(r), o.scope)
      && (o.dryRun <==> Setting(parsed.sets, "dry-run")) && (o.yes <==> Setting(parsed.sets, "yes"))
  {
  }

  lemma CliConfirmIff(r: Request, o: CliOptions)
    requires r.Cli?
    requires (o.dryRun <==> Setting(ParsedLine(r.args).sets, "dry-run")) && (o.yes <==> Setting(ParsedLine(r.args).sets, "yes"))
    ensures CliConfirm(o, r.env).None? <==> ConfirmedBy(r, Sandbox(o.udid, o.bundleID), o.scope)
  {
  }

  /** A CLI clean deletes exactly when, besides that, the confirmations for the chosen targets hold. */
  lemma CliAimIff(s: State, r: Request, b: Sandbox, scope: Include)
    requires r.Cli? && Sees(s, r)
    ensures Aim(r) == Some((b, scope)) <==>
      var sets := ParsedLine(r.args).sets;
      && CliGate(r.args, r.env)
         == Ok(CliOptions(b.bundleID, b.udid, scope, Setting(sets, "dry-run"), Setting(sets, "yes")))
      && ConfirmedBy(r, b, scope)
  {
    var g := CliGate(r.args, r.env);
    if g.Ok? {
      CliGateIff(s, r, g.value);
      CliConfirmIff(r, g.value);
    }
  }

  /**
   * The MCP gates open, for dry runs too, exactly when the bundle is acceptable, a device is found,
   * its cache can be read and says recently vended, the sandbox opens, and any confirmation that is
   * given is printable. Only a real false in dry_run makes it a deletion, and only then do the
   * confirmations count.
   */
  lemma McpGateIff(s: State, r: Request, o: McpOptions)
    requires r.Mcp? && Sees(s, r)
    ensures McpGate(r.req, r.menv) == Some(o) <==>
      && o.bundleID == TrimSpace(r.req.bundleID) != "" && Acceptable(o.bundleID) && PrintableASCII(r.req.confirmBundleID)
      && r.menv.resolved == Device(o.udid) && r.menv.loaded.Ok? && r.menv.opens
      && RecentlyVended(s, r, CacheFor(s, r, o.udid), o.bundleID)
      && Chosen(Asked(r), o.scope)
      && (o.dryRun <==> r.req.dryRun != Some(Bool(false)))
      && (!o.dryRun ==>
            TrimSpace(r.req.confirmBundleID) == o.bundleID && (Asked(r).documents ==> r.req.ackDocuments))
  {
  }

  /** The same for an MCP clean. */
  lemma McpAimIff(s: State, r: Request, b: Sandbox, scope: Include)
    requires r.Mcp? && Sees(s, r)
    ensures Aim(r) == Some((b, scope)) <==>
      && b.bundleID == TrimSpace(r.req.bundleID) != "" && Acceptable(b.bundleID) && PrintableASCII(r.req.confirmBundleID)
      && r.menv.resolved == Device(b.udid) && r.menv.loaded.Ok? && r.menv.opens
      && RecentlyVended(s, r, CacheFor(s, r, b.udid), b.bundleID)
      && Chosen(Asked(r), scope)
      && ConfirmedBy(r, b, scope)
  {
  }

  lemma AimIsAuthorised(init: State, events: seq<Event>, r: Request)
    requires Initial(init) && LegalRun(init, events) && Sees(Run(init, events), r) && Aim(r).Some?
    ensures Authorised(events, Run(init, events), r, Aim(r).value.0, Aim(r).value.1)
  {
    var s := Run(init, events);
    var (b, scope) := Aim(r).value;
    if r.Cli? {
      var sets := ParsedLine(r.args).sets;
      CliAimIff(s, r, b, scope);
      CliGateIff(s, r, CliOptions(b.bundleID, b.udid, scope, Setting(sets, "dry-run"), Setting(sets, "yes")));
    } else {
      McpAimIff(s, r, b, scope);
    }
    var c := CacheFor(s, r, b.udid);
    FreshMeansSaved(init, events, c, b.bundleID);
    var at := Newest(Exact(), Load(s, c).value, b.bundleID).value.at;
    assert LatestIsVended(events, c, b.bundleID, at);
  }

  /**
   * Safety of every run: a sandbox changes only in the deletion of a clean aimed at it that was
   * authorised when it passed its gates, at moment k of the run: the latest save into the cache it
   * consults then had a recent vended latest entry for the bundle, the bundle is not Apple's and the
   * confirmations hold.
   */
  lemma DeletionIsAuthorised(init: State, events: seq<Event>, e: Event, b: Sandbox) returns (k: nat, r: Request)
    requires Initial(init) && LegalRun(init, events) && CanHappen(Run(init, events), e)
    requires TreeOf(Next(Run(init, events), e), b) != TreeOf(Run(init, events), b)
    ensures e.Delete? && k < |events| && events[k] == Gate(e.id, r) && r == Run(init, events).pending[e.id].request
    ensures LegalRun(init, events[..k]) && Aim(r).Some? && Aim(r).value.0 == b
    ensures Authorised(events[..k], Run(init, events[..k]), r, b, Aim(r).value.1)
  {
    r := Run(init, events).pending[e.id].request;
    k := PendingWasGated(init, events, e.id);
    AimIsAuthorised(init, events[..k], r);
  }

  // ---- At the moment of deletion ------------------------------------------

  lemma {:induction false} LatestSaveSplit(events: seq<Event>, k: nat, c: Cache)
    requires k <= |events|
    ensures LatestSave(events, c) ==
      if LatestSave(events[k..], c).Some? then LatestSave(events[k..], c) else LatestSave(events[..k], c)
  {
    if k < |events| {
      var n := |events| - 1;
      assert events[..n][..k] == events[..k] && events[..n][k..] == events[k..][..n - k];
      LatestSaveSplit(events[..n], k, c);
    } else {
      assert events[..k] == events && events[k..] == [];
    }
  }

  /** All latest entries have one time. */
  lemma OneLatestTime(results: seq<ProbeResult>, bundleID: string, x: int, y: int)
    requires VendedAt(results, bundleID, x) && VendedAt(results, bundleID, y)
    ensures x == y
  {
    var q :| Latest(results, bundleID, q) && q.outcome.Vended? && q.at == x;
    var r :| Latest(results, bundleID, r) && r.outcome.Vended? && r.at == y;
    assert Exact()(q.at) <= Exact()(r.at) && Exact()(r.at) <= Exact()(q.at);
  }

  /**
   * Freshness is not looked at again after the gates. Exactly when a deletion is still authorised at
   * the moment it happens: with no save into the consulted cache since the gates, when the entry seen
   * at the gates is still recent; otherwise when the last of those saves has a recent vended latest
   * entry for the bundle.
   */
  lemma AuthorisedAtDeletionIff(init: State, events: seq<Event>, e: Event, b: Sandbox) returns (k: nat, r: Request, at: int)
    requires Initial(init) && LegalRun(init, events) && CanHappen(Run(init, events), e)
    requires TreeOf(Next(Run(init, events), e), b) != TreeOf(Run(init, events), b)
    ensures k < |events| && events[k] == Gate(e.id, r) && LegalRun(init, events[..k])
    ensures Aim(r).Some? && Aim(r).value.0 == b
    ensures var c := CacheFor(init, r, b.udid);
      && LatestIsVended(events[..k], c, b.bundleID, at) && Recent(r, Run(init, events[..k]).now, at)
      && var later, now := LatestSave(events[k..], c), Run(init, events).now;
         Authorised(events, Run(init, events), r, b, Aim(r).value.1)
         <==> if later.None? then Recent(r, now, at)
              else exists at' :: VendedAt(later.value, b.bundleID, at') && Recent(r, now, at')
  {
    k, r := DeletionIsAuthorised(init, events, e, b);
    var c := CacheFor(init, r, b.udid);
    DirsFixed(init, events);
    DirsFixed(init, events[..k]);
    LatestSaveSplit(events, k, c);
    at :| LatestIsVended(events[..k], c, b.bundleID, at) && Recent(r, Run(init, events[..k]).now, at);
    AuthorisedLater(events, Run(init, events), k, r, b, Aim(r).value.1, at);
  }

  lemma AuthorisedLater(events: seq<Event>, s: State, k: nat, r: Request, b: Sandbox, scope: Include, at: int)
    requires k <= |events| && Acceptable(b.bundleID) && ConfirmedBy(r, b, scope)
    requires var c := CacheFor(s, r, b.udid);
      && LatestIsVended(events[..k], c, b.bundleID, at)
      && LatestSave(events, c) == if LatestSave(events[k..], c).Some? then LatestSave(events[k..], c) else LatestSave(events[..k], c)
    ensures var later := LatestSave(events[k..], CacheFor(s, r, b.udid));
      Authorised(events, s, r, b, scope)
      <==> if later.None? then Recent(r, s.now, at)
           else exists at' :: VendedAt(later.value, b.bundleID, at') && Recent(r, s.now, at')
  {
    var c := CacheFor(s, r, b.udid);
    var saved := LatestSave(events, c).value;
    forall x | LatestIsVended(events, c, b.bundleID, x)
      ensures VendedAt(saved, b.bundleID, x)
      ensures LatestSave(events[k..], c).None? ==> x == at
    {
      if LatestSave(events[k..], c).None? {
        OneLatestTime(saved, b.bundleID, x, at);
      }
    }
    forall x | VendedAt(saved, b.bundleID, x)
      ensures LatestIsVended(events, c, b.bundleID, x)
    {
    }
  }

  // ---- Which cache --------------------------------------------------------

  /**
   * A clean that reaches deletion has a recent vended entry in the shared cache, whatever the caches
   * hold, exactly when its store directory is the default one.
   */
  lemma SharedCacheDecidesIff(s: State, r: Request)
    requires Sees(s, r) && Aim(r).Some?
    ensures (forall s': State :: s'.dirOf == s.dirOf && Sees(s', r) ==>
               RecentlyVended(s', r, SharedCache(s', Aim(r).value.0.udid), Aim(r).value.0.bundleID))
       <==> s.dirOf(StoreDir(r)) == s.dirOf("")
  {
    var b := Aim(r).value.0;
    if s.dirOf(StoreDir(r)) == s.dirOf("") {
      forall s': State | s'.dirOf == s.dirOf && Sees(s', r)
        ensures RecentlyVended(s', r, SharedCache(s', b.udid), b.bundleID)
      {
        AimSeesVended(s', r);
      }
    } else {
      // The shared cache may as well be empty.
      var s' := s.(store := s.store[SharedCache(s, b.udid) := []]);
      AimSeesVended(s, r);
      assert Sees(s', r);
      assert !RecentlyVended(s', r, SharedCache(s', b.udid), b.bundleID);
    }
  }

  lemma AimSeesVended(s: State, r: Request)
    requires Sees(s, r) && Aim(r).Some?
    ensures RecentlyVended(s, r, CacheFor(s, r, Aim(r).value.0.udid), Aim(r).value.0.bundleID)
    ensures r.Cli? ==> r.env.resolved == Device(Aim(r).value.0.udid)
    ensures r.Mcp? ==> r.menv.resolved == Device(Aim(r).value.0.udid)
  {
    var (b, scope) := Aim(r).value;
    if r.Cli? {
      var sets := ParsedLine(r.args).sets;
      CliAimIff(s, r, b, scope);
      CliGateIff(s, r, CliOptions(b.bundleID, b.udid, scope, Setting(sets, "dry-run"), Setting(sets, "yes")));
    } else {
      McpAimIff(s, r, b, scope);
    }
  }

  // ---- Frame --------------------------------------------------------------

  /** Only a deletion changes a sandbox, and only the one that its clean is aimed at. */
  lemma OthersUnchanged(s: State, e: Event, b: Sandbox)
    requires CanHappen(s, e)
    requires e.Delete? ==> Aim(s.pending[e.id].request).value.0 != b
    ensures TreeOf(Next(s, e), b) == TreeOf(s, b)
  {
  }

  /** Exact plans of an aimed clean can be made at once. */
  lemma PlansCanHappen(s: State, id: nat, r: Request, b: Sandbox, scope: Include, plans: seq<CleanPlan>)
    requires id in s.pending && s.pending[id] == Pending(r, None) && Aim(r) == Some((b, scope))
    requires PlansFor(TreeOf(s, b), Targets(scope), plans)
    ensures CanHappen(s, MakePlans(id, plans))
    ensures Next(s, MakePlans(id, plans)) == s.(pending := s.pending[id := Pending(r, Some(plans))])
  {
    AimIsOpened(r);
  }

  /** And the deletion that follows replaces the tree of the aimed sandbox. */
  lemma DeleteCanHappen(s: State, id: nat, r: Request, b: Sandbox, scope: Include, plans: seq<CleanPlan>, traces: seq<Trace>)
    requires id in s.pending && s.pending[id] == Pending(r, Some(plans)) && Aim(r) == Some((b, scope))
    requires |traces| == |plans| && GoodRun(TreeOf(s, b), plans, traces)
    ensures CanHappen(s, Delete(id, traces))
    ensures Next(s, Delete(id, traces))
         == s.(pending := s.pending - {id}, trees := s.trees[b := RunPlans(TreeOf(s, b), plans, traces)])
  {
  }

  /** Paths outside the included targets stay as they were, however old the plans are. */
  lemma DeletionStaysInTargets(init: State, events: seq<Event>, id: nat, traces: seq<Trace>, b: Sandbox, p: string)
    requires Initial(init) && LegalRun(init, events) && CanHappen(Run(init, events), Delete(id, traces))
    requires var targets := Targets(Aim(Run(init, events).pending[id].request).value.1);
      forall k :: 0 <= k < |targets| ==> !Within(targets[k].root, p)
    ensures var t, t' := TreeOf(Run(init, events), b), TreeOf(Next(Run(init, events), Delete(id, traces)), b);
      (p in t <==> p in t') && (p in t ==> t'[p] == t[p])
  {
    var s := Run(init, events);
    var pend := s.pending[id];
    if Aim(pend.request).value.0 == b {
      var j := PendingWasPlanned(init, events, id);
      StaleFrame(TreeOf(Run(init, events[..j]), b), TreeOf(s, b), Targets(Aim(pend.request).value.1), pend.plans.value, traces, p);
    }
  }

  lemma StaleFrame(t0: Tree, t: Tree, targets: seq<Target>, plans: seq<CleanPlan>, traces: seq<Trace>, p: string)
    requires PlansFor(t0, targets, plans) && Submap(t, t0) && |traces| == |plans| && GoodRun(t, plans, traces)
    requires forall k :: 0 <= k < |targets| ==> !Within(targets[k].root, p)
    ensures var t' := RunPlans(t, plans, traces); (p in t <==> p in t') && (p in t ==> t'[p] == t[p])
  {
    PlansAreCharted(t0, t, plans);
    RunPlansShrinks(t, plans, traces);
    if p in t {
      RunFrame(t, plans, traces, p);
    }
  }

  lemma OpenedScope(r: Request)
    requires Opened(r).Some?
    ensures Chosen(Asked(r), Opened(r).value.1)
  {
  }

  /**
   * Whatever a request plans, for a dry run or for a deletion, is just the targets it names, or tmp and
   * Library/Caches when it names none.
   */
  lemma PlannedTargets(s: State, id: nat, plans: seq<CleanPlan>)
    requires CanHappen(s, MakePlans(id, plans))
    ensures PlansChosen(Asked(s.pending[id].request), plans)
  {
    var r := s.pending[id].request;
    var (b, scope) := Opened(r).value;
    OpenedScope(r);
    TargetsChosen(TreeOf(s, b), Asked(r), scope, plans);
  }

  /** How many events of the run pass clean id through its gates, build its plans, and delete. */
  function Gates(events: seq<Event>, id: nat): nat {
    if events == [] then 0
    else
      var e := events[|events| - 1];
      Gates(events[..|events| - 1], id) + if e.Gate? && e.id == id then 1 else 0
  }

  function Deletes(events: seq<Event>, id: nat): nat {
    if events == [] then 0
    else
      var e := events[|events| - 1];
      Deletes(events[..|events| - 1], id) + if e.Delete? && e.id == id then 1 else 0
  }

  function Plannings(events: seq<Event>, id: nat): nat {
    if events == [] then 0
    else
      var e := events[|events| - 1];
      Plannings(events[..|events| - 1], id) + if e.MakePlans? && e.id == id then 1 else 0
  }

  /** Every planning and every deletion uses up a passage of the gates of its own. */
  lemma {:induction false} DeletesAreGated(init: State, events: seq<Event>, id: nat)
    requires Initial(init) && LegalRun(init, events)
    ensures var pending := Run(init, events).pending;
      && Deletes(events, id) + (if id in pending then 1 else 0) <= Gates(events, id)
      && Plannings(events, id) + (if id in pending && pending[id].plans.None? then 1 else 0) <= Gates(events, id)
      && Deletes(events, id) + (if id in pending && pending[id].plans.Some? then 1 else 0) <= Plannings(events, id)
  {
    if events != [] {
      DeletesAreGated(init, events[..|events| - 1], id);
    }
  }

  /** Of the built-in targets only Documents reaches below Documents. */
  lemma ReachesDocuments(scope: Include, k: nat, p: string)
    requires k < |Targets(scope)| && Within(Targets(scope)[k].root, p) && Within("Documents", p)
    ensures scope.documents
  {
    BuiltInTargetsApart();
    SharedDescendant(Targets(scope)[k].root, "Documents", p);
  }

  lemma ChangedUnderTarget(init: State, events: seq<Event>, id: nat, traces: seq<Trace>, b: Sandbox, p: string)
    requires Initial(init) && LegalRun(init, events) && CanHappen(Run(init, events), Delete(id, traces))
    requires Within("Documents", p)
    requires var t, t' := TreeOf(Run(init, events), b), TreeOf(Next(Run(init, events), Delete(id, traces)), b);
      p in t && !(p in t' && t'[p] == t[p])
    ensures Aim(Run(init, events).pending[id].request).value.1.documents
  {
    var scope := Aim(Run(init, events).pending[id].request).value.1;
    if k: nat :| k < |Targets(scope)| && Within(Targets(scope)[k].root, p) {
      ReachesDocuments(scope, k, p);
    } else {
      DeletionStaysInTargets(init, events, id, traces, b, p);
    }
  }

  /** Nothing under Documents changes without the separate consent to delete documents. */
  lemma DocumentsNeedConsent(init: State, events: seq<Event>, e: Event, b: Sandbox, p: string)
      returns (r: Request)
    requires Initial(init) && LegalRun(init, events) && CanHappen(Run(init, events), e)
    requires Within("Documents", p)
    requires var t, t' := TreeOf(Run(init, events), b), TreeOf(Next(Run(init, events), e), b);
      p in t && !(p in t' && t'[p] == t[p])
    ensures e.Delete? && r == Run(init, events).pending[e.id].request
    ensures Aim(r).Some? && Aim(r).value.0 == b
    ensures r.Cli? ==> Setting(ParsedLine(r.args).sets, "include-documents")
    ensures r.Mcp? ==> r.req.scope.documents
    ensures r.Cli? ==> r.env.typed.Ok? && TrimSpace(r.env.typed.value) == b.bundleID
    ensures r.Mcp? ==> r.req.ackDocuments && TrimSpace(r.req.confirmBundleID) == b.bundleID
  {
    var k;
    k, r := DeletionIsAuthorised(init, events, e, b);
    ChangedUnderTarget(init, events, e.id, e.traces, b, p);
    AimIsOpened(r);
    OpenedScope(r);
  }

  // ---- What a deletion reports ---------------------------------------------

  /**
   * In every run a deletion's claim balances the drop: files claimed but already deleted by others
   * since the planning, and files that failed removals deleted, are the only differences.
   */
  lemma DeletionAccount(init: State, events: seq<Event>, id: nat, traces: seq<Trace>)
    requires Initial(init) && LegalRun(init, events) && CanHappen(Run(init, events), Delete(id, traces))
    ensures var s := Run(init, events);
      var plans, t := s.pending[id].plans.value, TreeOf(s, Aim(s.pending[id].request).value.0);
      && (forall k :: 0 <= k < |plans| ==> Answers(plans[k], traces[k]))
      && Accounts(Measure(FilesOf(t)), RunMissing(t, plans, traces), Measure(FilesOf(RunPlans(t, plans, traces))),
                  Claimed(plans, traces), RunCollateral(t, plans, traces))
  {
    var s := Run(init, events);
    var b := Aim(s.pending[id].request).value.0;
    var j := PendingWasPlanned(init, events, id);
    RunAccount(TreeOf(Run(init, events[..j]), b), TreeOf(s, b), s.pending[id].plans.value, traces);
  }

  /** When the sandbox is as it was at the planning, the claim never exceeds the drop. */
  lemma UndisturbedClaim(init: State, events: seq<Event>, id: nat, traces: seq<Trace>) returns (j: nat)
    requires Initial(init) && LegalRun(init, events) && CanHappen(Run(init, events), Delete(id, traces))
    ensures var s := Run(init, events);
      var b, plans := Aim(s.pending[id].request).value.0, s.pending[id].plans.value;
      var t := TreeOf(s, b);
      && j < |events| && events[j] == MakePlans(id, plans) && LegalRun(init, events[..j])
      && (forall k :: 0 <= k < |plans| ==> Answers(plans[k], traces[k]))
      && (TreeOf(Run(init, events[..j]), b) == t ==>
            var left := Measure(FilesOf(RunPlans(t, plans, traces)));
            && left.count + Claimed(plans, traces).count <= Measure(FilesOf(t)).count
            && left.bytes + Claimed(plans, traces).bytes <= Measure(FilesOf(t)).bytes)
  {
    var s := Run(init, events);
    var (b, scope) := Aim(s.pending[id].request).value;
    var plans := s.pending[id].plans.value;
    j := PendingWasPlanned(init, events, id);
    GoodRunAnswers(TreeOf(s, b), plans, traces);
    if TreeOf(Run(init, events[..j]), b) == TreeOf(s, b) {
      TargetsApart(scope);
      assert PlannedOn(TreeOf(s, b), plans);
      RunNeverOverReports(TreeOf(s, b), plans, traces);
    }
  }
}
