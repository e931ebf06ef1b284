/**
 * fetchInParallel under all interleavings: two workers that write one shared pair and cancel the
 * derived context on error, a caller that waits for both, and an outside party that may cancel.
 */
module Fetch {
  import opened Common
  import opened Apps

  datatype DeviceInfo = DeviceInfo(model: string, totalBytes: U64, freeBytes: U64)

  datatype Who = Info | AppList

  /** Calling, then with an error Failing until cancel() was called, then Ending until wg.Done(). */
  datatype Worker = Calling | Failing | Ending | Finished

  datatype Pair = Pair(info: DeviceInfo, apps: seq<App>, infoErr: Option<Error>, appsErr: Option<Error>)

  datatype Answer = Fetched(info: DeviceInfo, apps: seq<App>) | Failed(who: Who, err: Error)

  /** child is the derived context's state; it is done whenever the parent is. */
  datatype State = State(
    infoWorker: Worker, appsWorker: Worker, pair: Pair, child: bool, returned: Option<Answer>)

  datatype Event =
    | CancelParent
    | DeviceInfoReturns(info: DeviceInfo, infoErr: Option<Error>)
    | UserAppsReturns(apps: seq<App>, appsErr: Option<Error>)
    | CancelChild(who: Who)
    | WgDone(who: Who)
    | Return

  function Start(): State {
    State(Calling, Calling, Pair(DeviceInfo("", 0, 0), [], None, None), false, None)
  }

  function WorkerOf(s: State, who: Who): Worker {
    if who.Info? then s.infoWorker else s.appsWorker
  }

  function SetWorker(s: State, who: Who, w: Worker): State {
    if who.Info? then s.(infoWorker := w) else s.(appsWorker := w)
  }

  function ErrOf(p: Pair, who: Who): Option<Error> {
    if who.Info? then p.infoErr else p.appsErr
  }

  predicate Enabled(s: State, e: Event) {
    match e
    case CancelParent => true
    case DeviceInfoReturns(_, _) => s.infoWorker.Calling?
    case UserAppsReturns(_, _) => s.appsWorker.Calling?
    case CancelChild(w) => WorkerOf(s, w).Failing?
    case WgDone(w) => WorkerOf(s, w).Ending?
    case Return => s.infoWorker.Finished? && s.appsWorker.Finished? && s.returned.None?
  }

  function Verdict(p: Pair): Answer {
    if p.infoErr.Some? then Failed(Info, p.infoErr.value)
    else if p.appsErr.Some? then Failed(AppList, p.appsErr.value)
    else Fetched(p.info, p.apps)
  }

  function Next(s: State, e: Event): State
    requires Enabled(s, e)
  {
    match e
    case CancelParent => s.(child := true)
    case DeviceInfoReturns(info, err) =>
      s.(infoWorker := if err.Some? then Failing else Ending, pair := s.pair.(info := info, infoErr := err))
    case UserAppsReturns(apps, err) =>
      s.(appsWorker := if err.Some? then Failing else Ending, pair := s.pair.(apps := apps, appsErr := err))
    case CancelChild(w) => SetWorker(s.(child := true), w, Ending)
    case WgDone(w) => SetWorker(s, w, Finished)
    // The deferred cancel runs on return.
    case Return => s.(returned := Some(Verdict(s.pair)), child := true)
  }

  /** An interleaving: events that are not enabled do not happen. */
  function Run(events: seq<Event>): State {
    if events == [] then Start()
    else
      var s := Run(events[..|events| - 1]);
      var e := events[|events| - 1];
      if Enabled(s, e) then Next(s, e) else s
  }

  // ---- What happened in a run ---------------------------------------------

  /** The event at the end of the run took place. */
  predicate LastHappens(events: seq<Event>) {
    events != [] && Enabled(Run(events[..|events| - 1]), events[|events| - 1])
  }

  /** What a call gave back. */
  datatype Reply<T> = Reply(value: T, err: Option<Error>)

  function InfoReply(events: seq<Event>): Option<Reply<DeviceInfo>> {
    if events == [] then None
    else
      var e := events[|events| - 1];
      if e.DeviceInfoReturns? && LastHappens(events) then Some(Reply(e.info, e.infoErr)) else InfoReply(events[..|events| - 1])
  }

  function AppsReply(events: seq<Event>): Option<Reply<seq<App>>> {
    if events == [] then None
    else
      var e := events[|events| - 1];
      if e.UserAppsReturns? && LastHappens(events) then Some(Reply(e.apps, e.appsErr)) else AppsReply(events[..|events| - 1])
  }

  /** The call that failed first, its error, and whether the context was done by then. */
  datatype Failure = Failure(who: Who, err: Error, afterCancel: bool)

  function FailureIn(e: Event, child: bool): Option<Failure> {
    match e
    case DeviceInfoReturns(_, Some(err)) => Some(Failure(Info, err, child))
    case UserAppsReturns(_, Some(err)) => Some(Failure(AppList, err, child))
    case _ => None
  }

  function FirstFailure(events: seq<Event>): Option<Failure> {
    if events == [] then None
    else
      var n := |events| - 1;
      var f := FirstFailure(events[..n]);
      if f.Some? || !LastHappens(events) then f else FailureIn(events[n], Run(events[..n]).child)
  }

  // ---- The invariant ------------------------------------------------------

  /** A worker past its call has cancelled the context if the call failed. */
  predicate WorkerOk(s: State, who: Who) {
    match WorkerOf(s, who)
    case Calling => ErrOf(s.pair, who).None?
    case Failing => ErrOf(s.pair, who).Some?
    case _ => ErrOf(s.pair, who).Some? ==> s.child
  }

  predicate Inv(s: State) {
    && WorkerOk(s, Info) && WorkerOk(s, AppList)
    && (s.returned.Some? ==>
          s.infoWorker.Finished? && s.appsWorker.Finished? && s.child && s.returned.value == Verdict(s.pair))
  }

  lemma {:induction false} RunKeepsInv(events: seq<Event>)
    ensures Inv(Run(events))
  {
    if events != [] {
      RunKeepsInv(events[..|events| - 1]);
    }
  }

  /** The pair holds what the calls gave back. */
  lemma {:induction false} PairHoldsReplies(events: seq<Event>)
    ensures var s, i, a := Run(events), InfoReply(events), AppsReply(events);
      && (i.None? <==> s.infoWorker.Calling?) && (i.Some? ==> i.value == Reply(s.pair.info, s.pair.infoErr))
      && (a.None? <==> s.appsWorker.Calling?) && (a.Some? ==> a.value == Reply(s.pair.apps, s.pair.appsErr))
  {
    if events != [] {
      PairHoldsReplies(events[..|events| - 1]);
    }
  }

  /**
   * On return both workers have finished, and the answer is decided by what the calls gave back:
   * success with both values exactly when both succeeded, otherwise the device-info error first.
   */
  lemma ReturnedAnswer(events: seq<Event>)
    requires Run(events).returned.Some?
    ensures Run(events).infoWorker.Finished? && Run(events).appsWorker.Finished?
    ensures InfoReply(events).Some? && AppsReply(events).Some?
    ensures var i, a, r := InfoReply(events).value, AppsReply(events).value, Run(events).returned.value;
      && (r.Fetched? <==> i.err.None? && a.err.None?)
      && (r.Fetched? ==> r == Fetched(i.value, a.value))
      && (i.err.Some? ==> r == Failed(Info, i.err.value))
      && (i.err.None? && a.err.Some? ==> r == Failed(AppList, a.err.value))
  {
    RunKeepsInv(events);
    PairHoldsReplies(events);
  }

  /** A failed call has cancelled the other one's context by the time its worker ends, and so has the return. */
  lemma FailureCancels(events: seq<Event>)
    ensures var s, i, a := Run(events), InfoReply(events), AppsReply(events);
      && (i.Some? && i.value.err.Some? && !s.infoWorker.Failing? ==> s.child)
      && (a.Some? && a.value.err.Some? && !s.appsWorker.Failing? ==> s.child)
      && (s.returned.Some? ==> s.child)
  {
    RunKeepsInv(events);
    PairHoldsReplies(events);
  }

  /** Nothing gets stuck: once no step but a cancellation is left, the caller has returned. */
  lemma StuckIffReturned(s: State)
    requires Inv(s)
    ensures (forall e :: Enabled(s, e) ==> e == CancelParent) <==> s.returned.Some?
  {
    if s.returned.None? {
      if s.infoWorker.Calling? {
        assert Enabled(s, DeviceInfoReturns(DeviceInfo("", 0, 0), None));
      } else if s.appsWorker.Calling? {
        assert Enabled(s, UserAppsReturns([], None));
      } else if s.infoWorker.Failing? {
        assert Enabled(s, CancelChild(Info));
      } else if s.appsWorker.Failing? {
        assert Enabled(s, CancelChild(AppList));
      } else if s.infoWorker.Ending? {
        assert Enabled(s, WgDone(Info));
      } else if s.appsWorker.Ending? {
        assert Enabled(s, WgDone(AppList));
      } else {
        assert Enabled(s, Return);
      }
    }
  }

  /** A failure is recorded exactly when some call's error is in the pair, and it is that call's error. */
  lemma {:induction false} FirstFailureIsReply(events: seq<Event>)
    ensures var s, f := Run(events), FirstFailure(events);
      && (f.None? <==> s.pair.infoErr.None? && s.pair.appsErr.None?)
      && (f.Some? ==> ErrOf(s.pair, f.value.who) == Some(f.value.err))
  {
    if events != [] {
      FirstFailureIsReply(events[..|events| - 1]);
      RunKeepsInv(events[..|events| - 1]);
    }
  }

  /** Without an outside cancellation the context is done only after a failure or the return. */
  lemma {:induction false} ChildDoneHasCause(events: seq<Event>)
    requires CancelParent !in events
    ensures Run(events).child ==> FirstFailure(events).Some? || Run(events).returned.Some?
    ensures FirstFailure(events).Some? ==> !FirstFailure(events).value.afterCancel
  {
    if events != [] {
      var n := |events| - 1;
      ChildDoneHasCause(events[..n]);
      RunKeepsInv(events[..n]);
      FirstFailureIsReply(events[..n]);
      assert events[n] in events;
    }
  }

  /** If the caller never cancels, an error means that a call failed before any cancellation. */
  lemma ErrorHasCause(events: seq<Event>)
    requires CancelParent !in events
    requires Run(events).returned.Some? && Run(events).returned.value.Failed?
    ensures FirstFailure(events).Some? && !FirstFailure(events).value.afterCancel
  {
    RunKeepsInv(events);
    FirstFailureIsReply(events);
    ChildDoneHasCause(events);
  }

  /**
   * The returned error is the first one exactly unless the app list failed first and the
   * device-info call failed as well.
   */
  lemma ReturnsFirstErrorIff(events: seq<Event>)
    requires Run(events).returned.Some? && Run(events).returned.value.Failed?
    ensures FirstFailure(events).Some? && InfoReply(events).Some?
    ensures var first, r := FirstFailure(events).value, Run(events).returned.value;
      r == Failed(first.who, first.err) <==> !(first.who.AppList? && InfoReply(events).value.err.Some?)
  {
    RunKeepsInv(events);
    FirstFailureIsReply(events);
    PairHoldsReplies(events);
  }

  // ---- The later error can win --------------------------------------------

  function LateInfoRun(first: Error, second: Error): seq<Event> {
    [UserAppsReturns([], Some(first)), CancelChild(AppList), DeviceInfoReturns(DeviceInfo("", 0, 0), Some(second)),
     WgDone(AppList), CancelChild(Info), WgDone(Info), Return]
  }

  function LateInfoStage(first: Error, second: Error, i: nat): State {
    var zero := DeviceInfo("", 0, 0);
    var one := Pair(zero, [], None, Some(first));
    var two := Pair(zero, [], Some(second), Some(first));
    match i
    case 0 => Start()
    case 1 => State(Calling, Failing, one, false, None)
    case 2 => State(Calling, Ending, one, true, None)
    case 3 => State(Failing, Ending, two, true, None)
    case 4 => State(Failing, Finished, two, true, None)
    case 5 => State(Ending, Finished, two, true, None)
    case 6 => State(Finished, Finished, two, true, None)
    case _ => State(Finished, Finished, two, true, Some(Failed(Info, second)))
  }

  lemma LateInfoStep(first: Error, second: Error, i: nat)
    requires i < 7
    ensures Enabled(LateInfoStage(first, second, i), LateInfoRun(first, second)[i])
    ensures Next(LateInfoStage(first, second, i), LateInfoRun(first, second)[i]) == LateInfoStage(first, second, i + 1)
  {
  }

  lemma {:induction false} LateInfoReaches(first: Error, second: Error, i: nat)
    requires i <= 7
    ensures Run(LateInfoRun(first, second)[..i]) == LateInfoStage(first, second, i)
    ensures i > 0 ==> FirstFailure(LateInfoRun(first, second)[..i]) == Some(Failure(AppList, first, false))
  {
    var events := LateInfoRun(first, second);
    if i > 0 {
      LateInfoReaches(first, second, i - 1);
      LateInfoStep(first, second, i - 1);
      assert events[..i][..i - 1] == events[..i - 1];
    }
  }

  /** A device-info call that fails only because of the cancellation hides the error that caused it. */
  lemma LaterErrorReturned(first: Error, second: Error)
    ensures Run(LateInfoRun(first, second)).returned == Some(Failed(Info, second))
    ensures FirstFailure(LateInfoRun(first, second)) == Some(Failure(AppList, first, false))
  {
    LateInfoReaches(first, second, 7);
    TakeAll(LateInfoRun(first, second), 7);
  }
}
