/**
 * Any number of interleaved Save runs on one directory, for any devices, each of which may fail
 * or stop for ever between two file operations.
 */
module StoreRace {
  import opened Common
  import opened Probes
  import opened ProbeStore

  /** Where a Save run stands; from Created on it owns a temporary file. */
  datatype Pc =
    | Start
    | Created(nonce: nat)
    | Written(nonce: nat)
    | Closed(nonce: nat)
    | CleaningUp(nonce: nat)
    | Returned(ok: bool)

  datatype Saver = Saver(udid: string, payload: DiskFile, pc: Pc)

  /** winner: the last run whose rename succeeded, per device. leaked: temps whose removal failed. */
  datatype State = State(files: Files, savers: map<nat, Saver>, winner: map<string, nat>, leaked: set<Name>)

  /** One file operation of run `who`. */
  datatype Event =
    | GiveUp(who: nat)
    | Create(who: nat, nonce: nat)
    | Write(who: nat, ok: bool)
    | Close(who: nat, ok: bool)
    | Rename(who: nat, ok: bool)
    | Remove(who: nat, ok: bool)

  predicate Owns(s: Saver) {
    s.pc.Created? || s.pc.Written? || s.pc.Closed? || s.pc.CleaningUp?
  }

  function TempOf(s: Saver): Name
    requires Owns(s)
  {
    Temp(s.udid, s.pc.nonce)
  }

  predicate Enabled(s: State, e: Event) {
    e.who in s.savers &&
    var pc := s.savers[e.who].pc;
    match e
    case GiveUp(_) => pc.Start?
    case Create(_, n) => pc.Start? && Temp(s.savers[e.who].udid, n) !in s.files
    case Write(_, _) => pc.Created?
    case Close(_, _) => pc.Written?
    case Rename(_, _) => pc.Closed?
    case Remove(_, _) => pc.CleaningUp?
  }

  function At(s: State, who: nat, pc: Pc): map<nat, Saver>
    requires who in s.savers
  {
    s.savers[who := s.savers[who].(pc := pc)]
  }

  function Next(s: State, e: Event): State
    requires Enabled(s, e)
  {
    var v := s.savers[e.who];
    match e
    case GiveUp(w) => s.(savers := At(s, w, Returned(false)))
    case Create(w, n) => s.(files := s.files[Temp(v.udid, n) := Torn], savers := At(s, w, Created(n)))
    case Write(w, ok) =>
      if ok then s.(files := s.files[TempOf(v) := Whole(v.payload)], savers := At(s, w, Written(v.pc.nonce)))
      else s.(files := s.files[TempOf(v) := Torn], savers := At(s, w, CleaningUp(v.pc.nonce)))
    case Close(w, ok) =>
      s.(savers := At(s, w, if ok then Closed(v.pc.nonce) else CleaningUp(v.pc.nonce)))
    case Rename(w, ok) =>
      if ok && TempOf(v) in s.files then
        s.(files := (s.files - {TempOf(v)})[Final(v.udid) := s.files[TempOf(v)]],
           savers := At(s, w, Returned(true)),
           winner := s.winner[v.udid := w])
      else s.(savers := At(s, w, CleaningUp(v.pc.nonce)))
    case Remove(w, ok) =>
      if ok then s.(files := s.files - {TempOf(v)}, savers := At(s, w, Returned(false)))
      else s.(savers := At(s, w, Returned(false)), leaked := s.leaked + {TempOf(v)})
  }

  /** An interleaving: events that are not enabled do not happen. */
  function Run(s: State, events: seq<Event>): State {
    if events == [] then s
    else
      var r := Run(s, events[..|events| - 1]);
      var e := events[|events| - 1];
      if Enabled(r, e) then Next(r, e) else r
  }

  predicate Initial(s: State) {
    && (forall w :: w in s.savers ==> s.savers[w].pc == Start)
    && s.winner == map[] && s.leaked == {}
  }

  // ---- The invariant ------------------------------------------------------

  /** The final file of device u is the initial one, or its last winner's complete payload. */
  ghost predicate FinalOk(init: State, s: State, u: string) {
    if u in s.winner then
      && s.winner[u] in s.savers && s.savers[s.winner[u]].udid == u
      && s.savers[s.winner[u]].pc == Returned(true)
      && Final(u) in s.files && s.files[Final(u)] == Whole(s.savers[s.winner[u]].payload)
    else
      && (Final(u) in s.files <==> Final(u) in init.files)
      && (Final(u) in s.files ==> s.files[Final(u)] == init.files[Final(u)])
  }

  /** A live run's temporary file exists, is new, and is complete once it was written. */
  ghost predicate TempOk(init: State, s: State, w: nat)
    requires w in s.savers
  {
    var v := s.savers[w];
    && (Owns(v) ==> TempOf(v) in s.files && TempOf(v) !in init.files)
    && (v.pc.Written? || v.pc.Closed? ==> s.files[TempOf(v)] == Whole(v.payload))
  }

  ghost predicate Apart(s: State, v: nat, w: nat)
    requires v in s.savers && w in s.savers
  {
    v != w && Owns(s.savers[v]) && Owns(s.savers[w]) ==> TempOf(s.savers[v]) != TempOf(s.savers[w])
  }

  ghost predicate OwnedBySome(s: State, n: Name) {
    exists w :: w in s.savers && Owns(s.savers[w]) && TempOf(s.savers[w]) == n
  }

  /** A temporary file is an initial one, a leaked one, or owned by a live run; initial ones stay as they were. */
  ghost predicate TempNameOk(init: State, s: State, n: Name) {
    && (n in s.files ==> n in init.files || n in s.leaked || OwnedBySome(s, n))
    && (n in init.files ==> n in s.files && s.files[n] == init.files[n])
  }

  ghost predicate SameRun(init: State, s: State, w: nat) {
    && (w in s.savers <==> w in init.savers)
    && (w in s.savers ==> s.savers[w].udid == init.savers[w].udid && s.savers[w].payload == init.savers[w].payload)
  }

  ghost predicate Inv(init: State, s: State) {
    && (forall u :: FinalOk(init, s, u))
    && (forall w :: w in s.savers ==> TempOk(init, s, w))
    && (forall v, w :: v in s.savers && w in s.savers ==> Apart(s, v, w))
    && (forall n: Name :: n.Temp? ==> TempNameOk(init, s, n))
    && (forall w: nat :: SameRun(init, s, w))
  }

  lemma StepFinal(init: State, s: State, e: Event, u: string)
    requires Enabled(s, e) && FinalOk(init, s, u) && TempOk(init, s, e.who)
    ensures FinalOk(init, Next(s, e), u)
  {
  }

  lemma StepTemp(init: State, s: State, e: Event, w: nat)
    requires Enabled(s, e) && w in s.savers
    requires TempOk(init, s, w) && TempOk(init, s, e.who) && Apart(s, w, e.who)
    requires e.Create? ==> TempNameOk(init, s, Temp(s.savers[e.who].udid, e.nonce))
    ensures TempOk(init, Next(s, e), w)
  {
  }

  lemma StepApart(init: State, s: State, e: Event, v: nat, w: nat)
    requires Enabled(s, e) && v in s.savers && w in s.savers
    requires Apart(s, v, w) && TempOk(init, s, v) && TempOk(init, s, w)
    ensures Apart(Next(s, e), v, w)
  {
  }

  lemma StepTempName(init: State, s: State, e: Event, n: Name)
    requires Enabled(s, e) && n.Temp? && TempNameOk(init, s, n) && TempOk(init, s, e.who)
    ensures TempNameOk(init, Next(s, e), n)
  {
    var s' := Next(s, e);
    if OwnedBySome(s, n) {
      var w :| w in s.savers && Owns(s.savers[w]) && TempOf(s.savers[w]) == n;
      if w != e.who {
        assert s'.savers[w] == s.savers[w];
      } else if Owns(s'.savers[w]) {
        assert TempOf(s'.savers[w]) == n;
      }
    } else if e.Create? {
      assert Owns(s'.savers[e.who]);
    }
  }

  lemma StepKeepsInv(init: State, s: State, e: Event)
    requires Inv(init, s) && Enabled(s, e)
    ensures Inv(init, Next(s, e))
  {
    var s' := Next(s, e);
    forall u {
      StepFinal(init, s, e, u);
    }
    forall w | w in s'.savers
      ensures TempOk(init, s', w)
    {
      StepTemp(init, s, e, w);
    }
    forall v, w | v in s'.savers && w in s'.savers
      ensures Apart(s', v, w)
    {
      StepApart(init, s, e, v, w);
    }
    forall n: Name | n.Temp?
      ensures TempNameOk(init, s', n)
    {
      StepTempName(init, s, e, n);
    }
    forall w: nat
      ensures SameRun(init, s', w)
    {
      assert SameRun(init, s, w);
    }
  }

  lemma {:induction false} RunKeepsInv(init: State, events: seq<Event>)
    requires Initial(init)
    ensures Inv(init, Run(init, events))
  {
    if events != [] {
      var s, e := Run(init, events[..|events| - 1]), events[|events| - 1];
      RunKeepsInv(init, events[..|events| - 1]);
      if Enabled(s, e) {
        StepKeepsInv(init, s, e);
      }
    }
  }

  // ---- What follows -------------------------------------------------------

  ghost predicate PayloadOf(init: State, s: State, u: string, c: Content) {
    exists w :: w in init.savers && w in s.savers && s.savers[w].pc == Returned(true)
      && init.savers[w].udid == u && c == Whole(init.savers[w].payload)
  }

  /** In every interleaving a device's final file is the initial one or one run's complete payload. */
  lemma FinalIsInitialOrComplete(init: State, events: seq<Event>, u: string)
    requires Initial(init)
    ensures var s := Run(init, events);
      || (Final(u) !in s.files && Final(u) !in init.files)
      || (Final(u) in s.files && Final(u) in init.files && s.files[Final(u)] == init.files[Final(u)])
      || (Final(u) in s.files && PayloadOf(init, s, u, s.files[Final(u)]))
  {
    var s := Run(init, events);
    RunKeepsInv(init, events);
    assert FinalOk(init, s, u);
    if u in s.winner {
      assert SameRun(init, s, s.winner[u]);
    }
  }

  /** So a reader never meets a torn file unless there was one before. */
  lemma ReadersNeverSeeTorn(init: State, events: seq<Event>, u: string)
    requires Initial(init)
    ensures Loaded(Run(init, events).files, u).Err? ==> Loaded(init.files, u).Err?
  {
    RunKeepsInv(init, events);
    assert FinalOk(init, Run(init, events), u);
  }

  lemma LiveRunsHaveDistinctTemps(init: State, events: seq<Event>, v: nat, w: nat)
    requires Initial(init)
    requires var s := Run(init, events);
      v in s.savers && w in s.savers && v != w && Owns(s.savers[v]) && Owns(s.savers[w])
    ensures TempOf(Run(init, events).savers[v]) != TempOf(Run(init, events).savers[w])
  {
    RunKeepsInv(init, events);
    assert Apart(Run(init, events), v, w);
  }

  /** Once every run has returned and every removal worked, the temporary files are the initial ones. */
  lemma NoTempsRemain(init: State, events: seq<Event>, n: Name)
    requires Initial(init) && n.Temp?
    requires var s := Run(init, events);
      s.leaked == {} && forall w :: w in s.savers ==> s.savers[w].pc.Returned?
    ensures n in Run(init, events).files <==> n in init.files
  {
    RunKeepsInv(init, events);
  }

  /** The atomic specification: a successful rename installs its run's whole payload, nothing else counts. */
  function Committed(init: State, events: seq<Event>, u: string): Result<seq<ProbeResult>, Error> {
    if events == [] then Loaded(init.files, u)
    else
      var r, e := Run(init, events[..|events| - 1]), events[|events| - 1];
      if Enabled(r, e) && e.Rename? && e.ok && r.savers[e.who].udid == u
      then Ok(AllFromDisk(r.savers[e.who].payload.results))
      else Committed(init, events[..|events| - 1], u)
  }

  /** Interleaved saves refine atomic ones: a reader sees the last run that renamed, or the initial cache. */
  lemma {:induction false} SavesAreAtomic(init: State, events: seq<Event>, u: string)
    requires Initial(init)
    ensures Loaded(Run(init, events).files, u) == Committed(init, events, u)
  {
    if events != [] {
      var s, e := Run(init, events[..|events| - 1]), events[|events| - 1];
      RunKeepsInv(init, events[..|events| - 1]);
      SavesAreAtomic(init, events[..|events| - 1], u);
      if Enabled(s, e) {
        assert TempOk(init, s, e.who);
      }
    }
  }

  /** Some step of the interleaving was w's successful rename. */
  predicate Renamed(init: State, events: seq<Event>, w: nat) {
    events != [] &&
    var n := |events| - 1;
    || Renamed(init, events[..n], w)
    || (events[n] == Rename(w, true) && Enabled(Run(init, events[..n]), events[n]))
  }

  /** A run returns success exactly when its rename took effect. */
  lemma {:induction false} OkMeansRenamed(init: State, events: seq<Event>, w: nat)
    requires Initial(init) && w in init.savers
    ensures w in Run(init, events).savers
    ensures Run(init, events).savers[w].pc == Returned(true) <==> Renamed(init, events, w)
  {
    if events != [] {
      var n := |events| - 1;
      var s, e := Run(init, events[..n]), events[n];
      RunKeepsInv(init, events[..n]);
      OkMeansRenamed(init, events[..n], w);
      if Enabled(s, e) {
        assert TempOk(init, s, e.who);
      }
    }
  }

  // ---- One saver alone -----------------------------------------------------

  /** What saver w does when nothing comes in between and its first n operations succeed. */
  function SoloEvents(w: nat, nonce: nat, n: nat, removed: bool): seq<Event>
    requires n <= 6
  {
    if n < 3 then [GiveUp(w)]
    else [Create(w, nonce), Write(w, n > 3)] + SoloRest(w, n, removed)
  }

  function SoloRest(w: nat, n: nat, removed: bool): seq<Event>
    requires 3 <= n <= 6
  {
    if n == 3 then [Remove(w, removed)]
    else if n == 4 then [Close(w, false), Remove(w, removed)]
    else if n == 5 then [Close(w, true), Rename(w, false), Remove(w, removed)]
    else [Close(w, true), Rename(w, true)]
  }

  lemma {:induction false} RunSplit(s: State, a: seq<Event>, b: seq<Event>)
    ensures Run(s, a + b) == Run(Run(s, a), b)
  {
    if b == [] {
      assert a + b == a;
    } else {
      var n := |b| - 1;
      RunSplit(s, a, b[..n]);
      assert (a + b)[..|a + b| - 1] == a + b[..n];
    }
  }

  lemma RunOne(s: State, e: Event, rest: seq<Event>)
    requires Enabled(s, e)
    ensures Run(s, [e] + rest) == Run(Next(s, e), rest)
  {
    RunSplit(s, [e], rest);
    assert [e][..0] == [];
  }

  /** From the written or half-written temporary file on. */
  lemma SoloRestRun(s: State, w: nat, n: nat, removed: bool)
    requires w in s.savers && 3 <= n <= 6
    requires if n == 3 then s.savers[w].pc.CleaningUp? else s.savers[w].pc.Written?
    requires TempOf(s.savers[w]) in s.files
    ensures var v, s' := s.savers[w], Run(s, SoloRest(w, n, removed));
      && w in s'.savers && s'.savers[w].pc == Returned(n == 6)
      && s'.files == if n == 6 then (s.files - {TempOf(v)})[Final(v.udid) := s.files[TempOf(v)]]
                     else if removed then s.files - {TempOf(v)} else s.files
  {
    var last := Remove(w, removed);
    if n == 3 {
      RunOne(s, last, []);
      assert [last] + [] == [last];
    } else {
      var closed := Next(s, Close(w, n > 4));
      RunOne(s, Close(w, n > 4), SoloRest(w, n, removed)[1..]);
      assert [Close(w, n > 4)] + SoloRest(w, n, removed)[1..] == SoloRest(w, n, removed);
      if n == 4 {
        RunOne(closed, last, []);
        assert [last] + [] == [last] && SoloRest(w, n, removed)[1..] == [last];
      } else if n == 5 {
        RunOne(closed, Rename(w, false), [last]);
        RunOne(Next(closed, Rename(w, false)), last, []);
        assert [last] + [] == [last] && SoloRest(w, n, removed)[1..] == [Rename(w, false)] + [last];
      } else {
        RunOne(closed, Rename(w, true), []);
        assert [Rename(w, true)] + [] == [Rename(w, true)] && SoloRest(w, n, removed)[1..] == [Rename(w, true)];
      }
    }
  }

  /** After the temporary file was created and written, or half-written. */
  lemma SoloBegin(s: State, w: nat, nonce: nat, n: nat, rest: seq<Event>) returns (written: State)
    requires w in s.savers && s.savers[w].pc.Start? && Temp(s.savers[w].udid, nonce) !in s.files
    ensures Run(s, [Create(w, nonce), Write(w, n > 3)] + rest) == Run(written, rest)
    ensures w in written.savers
      && written.savers[w] == s.savers[w].(pc := if n > 3 then Written(nonce) else CleaningUp(nonce))
    ensures written.files == s.files[Temp(s.savers[w].udid, nonce) := if n > 3 then Whole(s.savers[w].payload) else Torn]
  {
    var create, write := Create(w, nonce), Write(w, n > 3);
    assert [create, write] + rest == [create] + ([write] + rest);
    RunOne(s, create, [write] + rest);
    RunOne(Next(s, create), write, rest);
    written := Next(Next(s, create), write);
  }

  lemma SoloGivesUp(s: State, w: nat)
    requires w in s.savers && s.savers[w].pc.Start?
    ensures var s' := Run(s, [GiveUp(w)]); w in s'.savers && s'.savers[w].pc == Returned(false) && s'.files == s.files
  {
    RunOne(s, GiveUp(w), []);
    EmptySum([GiveUp(w)]);
  }

  /** A saver that nothing interrupts leaves the files as Save does. */
  lemma SoloRun(s: State, w: nat, nonce: nat, n: nat, removed: bool)
    requires w in s.savers && s.savers[w].pc.Start? && s.savers[w].payload.udid == s.savers[w].udid && n <= 6
    requires Temp(s.savers[w].udid, nonce) !in s.files
    ensures var s', tmp := Run(s, SoloEvents(w, nonce, n, removed)), Temp(s.savers[w].udid, nonce);
      && w in s'.savers && s'.savers[w].pc == Returned(n == 6)
      && SaveOutcome(s.files, s'.files, s.savers[w].payload, n, if 3 <= n < 6 && !removed then Some(tmp) else None)
  {
    if n < 3 {
      SoloGivesUp(s, w);
    } else {
      var tmp := Temp(s.savers[w].udid, nonce);
      var written := SoloBegin(s, w, nonce, n, SoloRest(w, n, removed));
      SoloRestRun(written, w, n, removed);
      if n == 6 {
        RenamedOutcome(s.files, tmp, s.savers[w].payload);
      } else {
        FailedOutcome(s.files, tmp, written.files[tmp], s.savers[w].payload, n, removed);
      }
    }
  }

  /** The system's operation behind an event. */
  function OpOf(e: Event): Done {
    match e
    case GiveUp(_) => Done(CreateTemp, false)
    case Create(_, _) => Done(CreateTemp, true)
    case Write(_, ok) => Done(WriteTemp, ok)
    case Close(_, ok) => Done(CloseTemp, ok)
    case Rename(_, ok) => Done(RenameTemp, ok)
    case Remove(_, ok) => Done(Unlink, ok)
  }

  function OpsOf(events: seq<Event>): seq<Done> {
    seq(|events|, i requires 0 <= i < |events| => OpOf(events[i]))
  }

  lemma OpsOfTwo(a: seq<Event>, b: seq<Event>)
    ensures OpsOf(a + b) == OpsOf(a) + OpsOf(b)
  {
  }

  lemma SucceededStep(n: nat)
    requires n < 6
    ensures Succeeded(n + 1) == Succeeded(n) + [Done(SaveOps()[n], true)]
  {
  }

  lemma FirstThree()
    ensures Succeeded(3) == [Done(Mkdir, true), Done(Marshal, true), Done(CreateTemp, true)]
  {
    SucceededStep(0);
    SucceededStep(1);
    SucceededStep(2);
    assert SaveOps()[0] == Mkdir && SaveOps()[1] == Marshal && SaveOps()[2] == CreateTemp;
  }

  /** What Save logs from the third operation on. */
  lemma LogTail(n: nat, removed: bool)
    requires 3 <= n <= 6
    ensures SaveLog(n, removed) == Succeeded(3) + [Done(WriteTemp, n > 3)]
      + if n == 3 then [Done(Unlink, removed)]
        else if n == 4 then [Done(CloseTemp, false), Done(Unlink, removed)]
        else if n == 5 then [Done(CloseTemp, true), Done(RenameTemp, false), Done(Unlink, removed)]
        else [Done(CloseTemp, true), Done(RenameTemp, true)]
  {
    SucceededStep(3);
    SucceededStep(4);
    SucceededStep(5);
    assert SaveOps()[3] == WriteTemp && SaveOps()[4] == CloseTemp && SaveOps()[5] == RenameTemp;
  }

  lemma SoloRestOps(w: nat, n: nat, removed: bool)
    requires 3 <= n <= 6
    ensures OpsOf(SoloRest(w, n, removed)) ==
      if n == 3 then [Done(Unlink, removed)]
      else if n == 4 then [Done(CloseTemp, false), Done(Unlink, removed)]
      else if n == 5 then [Done(CloseTemp, true), Done(RenameTemp, false), Done(Unlink, removed)]
      else [Done(CloseTemp, true), Done(RenameTemp, true)]
  {
  }

  /** And by the operations that Save goes through from the temporary file on, in the same order. */
  lemma SoloOps(w: nat, nonce: nat, n: nat, removed: bool)
    requires 3 <= n <= 6
    ensures SaveLog(n, removed) == [Done(Mkdir, true), Done(Marshal, true)] + OpsOf(SoloEvents(w, nonce, n, removed))
  {
    FirstThree();
    LogTail(n, removed);
    SoloRestOps(w, n, removed);
    OpsOfTwo([Create(w, nonce), Write(w, n > 3)], SoloRest(w, n, removed));
    assert OpsOf([Create(w, nonce), Write(w, n > 3)]) == [Done(CreateTemp, true), Done(WriteTemp, n > 3)];
  }

  // ---- The operations of each saver in an interleaving ---------------------

  /** The events of saver w that took effect. */
  function History(init: State, events: seq<Event>, w: nat): seq<Event> {
    if events == [] then []
    else
      var n := |events| - 1;
      var before := History(init, events[..n], w);
      if events[n].who == w && Enabled(Run(init, events[..n]), events[n]) then before + [events[n]] else before
  }

  /** done is what saver w has done when it stands at pc. */
  ghost predicate Stands(w: nat, pc: Pc, done: seq<Event>) {
    match pc
    case Start => done == []
    case Created(k) => done == [Create(w, k)]
    case Written(k) => done == [Create(w, k), Write(w, true)]
    case Closed(k) => done == [Create(w, k), Write(w, true), Close(w, true)]
    case CleaningUp(k) => exists n :: 3 <= n < 6 && done + [Remove(w, true)] == SoloEvents(w, k, n, true)
    case Returned(ok) => exists k, n, removed :: IsSolo(w, k, n, removed, done) && (ok <==> n == 6)
  }

  predicate IsSolo(w: nat, nonce: nat, n: nat, removed: bool, done: seq<Event>) {
    n <= 6 && done == SoloEvents(w, nonce, n, removed)
  }

  lemma CleanupEnds(w: nat, k: nat, n: nat, removed: bool, done: seq<Event>)
    requires 3 <= n < 6 && done + [Remove(w, true)] == SoloEvents(w, k, n, true)
    ensures IsSolo(w, k, n, removed, done + [Remove(w, removed)])
  {
    var all := SoloEvents(w, k, n, true);
    assert done == all[..|all| - 1];
    assert SoloEvents(w, k, n, removed) == all[..|all| - 1] + [Remove(w, removed)];
  }

  lemma StandsAfter(w: nat, k: nat, ok: bool)
    ensures !ok ==> [Create(w, k), Write(w, false)] + [Remove(w, true)] == SoloEvents(w, k, 3, true)
    ensures !ok ==> [Create(w, k), Write(w, true), Close(w, false)] + [Remove(w, true)] == SoloEvents(w, k, 4, true)
    ensures !ok ==> [Create(w, k), Write(w, true), Close(w, true), Rename(w, false)] + [Remove(w, true)] == SoloEvents(w, k, 5, true)
    ensures IsSolo(w, k, 6, true, [Create(w, k), Write(w, true), Close(w, true), Rename(w, true)])
    ensures IsSolo(w, k, 0, true, [GiveUp(w)])
  {
  }

  lemma StandsStep(init: State, s: State, e: Event, done: seq<Event>)
    requires Enabled(s, e) && TempOk(init, s, e.who) && Stands(e.who, s.savers[e.who].pc, done)
    ensures Stands(e.who, Next(s, e).savers[e.who].pc, done + [e])
  {
    var w, pc := e.who, s.savers[e.who].pc;
    if pc.Start? {
      StandsAfter(w, 0, true);
      assert done + [e] == [e];
    } else if pc.CleaningUp? {
      var n :| 3 <= n < 6 && done + [Remove(w, true)] == SoloEvents(w, pc.nonce, n, true);
      CleanupEnds(w, pc.nonce, n, e.ok, done);
    } else {
      StandsAfter(w, pc.nonce, e.ok);
      if pc.Created? {
        assert done + [e] == [Create(w, pc.nonce), Write(w, e.ok)];
      } else if pc.Written? {
        assert done + [e] == [Create(w, pc.nonce), Write(w, true), Close(w, e.ok)];
      } else {
        assert done + [e] == [Create(w, pc.nonce), Write(w, true), Close(w, true), Rename(w, e.ok)];
      }
    }
  }

  /**
   * In every interleaving each saver goes through the operations of an uninterrupted Save, in that order:
   * it renames only what it has written and closed, and returns only at the end of them.
   */
  lemma {:induction false} SaverStands(init: State, events: seq<Event>, w: nat)
    requires Initial(init) && w in init.savers
    ensures w in Run(init, events).savers && Stands(w, Run(init, events).savers[w].pc, History(init, events, w))
  {
    if events != [] {
      var n := |events| - 1;
      var s, e := Run(init, events[..n]), events[n];
      RunKeepsInv(init, events[..n]);
      SaverStands(init, events[..n], w);
      if Enabled(s, e) && e.who == w {
        StandsStep(init, s, e, History(init, events[..n], w));
      }
    }
  }
}
