/**
 * The cancellable dial of sandboxClient.Open under all interleavings, with Probe as the client
 * that closes what it is given. Any number of probes run at once; each has its caller, its dial
 * goroutine, a one-slot channel and, after a cancellation, a drain goroutine.
 */
module Dial {
  import opened Common
  import opened Probes

  /** What house_arrest.New returned. */
  datatype Reply = Reply(client: bool, err: Option<Error>) {
    predicate Usable() {
      client && err.None?
    }

    /** A client that comes with an error. */
    predicate Both() {
      client && err.Some?
    }
  }

  datatype Fault = CtxDone | DeviceError(e: Error) | DialError(e: Error) | NilClient

  /** The goroutine in Open and then in Probe: Opened holds the client, Failed holds Open's error. */
  datatype Caller =
    | CheckingCtx
    | Finding
    | Selecting
    | Received(got: Reply)
    | Opened
    | Failed(fault: Fault)
    | Reported(outcome: ProbeOutcome)

  datatype Dialler = NoDial | Dialling | Sending(msg: Reply) | DialDone

  datatype Drainer = NoDrain | Draining | Drained(taken: Reply) | DrainDone

  /** `reply` records what the dial returned and `closes` how often its client was closed. */
  datatype Call = Call(
    caller: Caller, dialler: Dialler, channel: seq<Reply>, drainer: Drainer, cancelled: bool,
    reply: Option<Reply>, closes: nat)

  datatype Step =
    | Cancel
    | CheckCtx
    | FindDevice(err: Option<Error>)
    | DialReturns(result: Reply)
    | Send
    | SelectReply
    | SelectCtx
    | Decide
    | DrainTakes
    | DrainCloses
    | Report(outcome: ProbeOutcome)

  function Fresh(): Call {
    Call(CheckingCtx, NoDial, [], NoDrain, false, None, 0)
  }

  const CAPACITY: nat := 1

  /** The outcomes Probe may report: vended for a client, an error for a context error. */
  predicate MayReport(caller: Caller, o: ProbeOutcome) {
    match caller
    case Opened => o == Vended
    case Failed(CtxDone) => o == ProbeError
    case Failed(_) => o != Vended
    case _ => false
  }

  predicate Enabled(c: Call, e: Step) {
    match e
    case Cancel => true
    case CheckCtx => c.caller.CheckingCtx?
    case FindDevice(_) => c.caller.Finding?
    case DialReturns(_) => c.dialler.Dialling?
    case Send => c.dialler.Sending? && |c.channel| < CAPACITY
    case SelectReply => c.caller.Selecting? && c.channel != []
    case SelectCtx => c.caller.Selecting? && c.cancelled
    case Decide => c.caller.Received?
    case DrainTakes => c.drainer.Draining? && c.channel != []
    case DrainCloses => c.drainer.Drained?
    case Report(o) => MayReport(c.caller, o)
  }

  function Next(c: Call, e: Step): Call
    requires Enabled(c, e)
  {
    match e
    case Cancel => c.(cancelled := true)
    case CheckCtx => c.(caller := if c.cancelled then Failed(CtxDone) else Finding)
    case FindDevice(Some(err)) => c.(caller := Failed(DeviceError(err)))
    case FindDevice(None) => c.(caller := Selecting, dialler := Dialling)
    case DialReturns(r) => c.(dialler := Sending(r), reply := Some(r))
    case Send => c.(dialler := DialDone, channel := c.channel + [c.dialler.msg])
    case SelectReply => c.(caller := Received(c.channel[0]), channel := c.channel[1..])
    case SelectCtx => c.(caller := Failed(CtxDone), drainer := Draining)
    case Decide =>
      var r := c.caller.got;
      c.(caller := if r.err.Some? then Failed(DialError(r.err.value)) else if !r.client then Failed(NilClient) else Opened)
    case DrainTakes => c.(drainer := Drained(c.channel[0]), channel := c.channel[1..])
    case DrainCloses => c.(drainer := DrainDone, closes := c.closes + if c.drainer.taken.client then 1 else 0)
    case Report(o) => c.(caller := Reported(o), closes := c.closes + if c.caller.Opened? then 1 else 0)
  }

  // ---- One call -----------------------------------------------------------

  /** Nobody has taken the reply out of the channel yet. */
  predicate Untaken(c: Call) {
    && c.closes == 0
    && match c.drainer
       case NoDrain => c.caller.Selecting?
       case Draining => GaveUp(c)
       case _ => false
  }

  predicate GaveUp(c: Call) {
    c.cancelled && (c.caller == Failed(CtxDone) || c.caller == Reported(ProbeError))
  }

  /** The reply r was taken: by the drain, or by the caller, who acted on it. */
  predicate Taken(c: Call, r: Reply) {
    match c.drainer
    case Draining => false
    case Drained(q) => q == r && GaveUp(c) && c.closes == 0
    case DrainDone => GaveUp(c) && c.closes == if r.client then 1 else 0
    case NoDrain =>
      match c.caller
      case Received(q) => q == r && c.closes == 0
      case Opened => r.Usable() && c.closes == 0
      case Failed(f) =>
        && c.closes == 0
        && f == (if r.err.Some? then DialError(r.err.value) else NilClient)
        && !r.Usable()
      case Reported(o) => if r.Usable() then o == Vended && c.closes == 1 else o != Vended && c.closes == 0
      case _ => false
  }

  predicate Inv(c: Call) {
    match c.dialler
    case NoDial =>
      && c.channel == [] && c.reply.None? && c.closes == 0 && c.drainer.NoDrain?
      && (match c.caller
          case CheckingCtx => true
          case Finding => true
          case Failed(f) => f.CtxDone? || f.DeviceError?
          case Reported(o) => o != Vended
          case _ => false)
    case Dialling => c.channel == [] && c.reply.None? && Untaken(c)
    case Sending(r) => c.channel == [] && c.reply == Some(r) && Untaken(c)
    case DialDone =>
      && c.reply.Some?
      && if c.channel == [] then Taken(c, c.reply.value) else c.channel == [c.reply.value] && Untaken(c)
  }

  lemma StepKeepsInv(c: Call, e: Step)
    requires Inv(c) && Enabled(c, e)
    ensures Inv(Next(c, e))
  {
  }

  /** Both goroutines are gone and the probe has reported. */
  predicate Settled(c: Call) {
    c.caller.Reported? && (c.dialler.NoDial? || c.dialler.DialDone?) && (c.drainer.NoDrain? || c.drainer.DrainDone?)
  }

  /** A client was produced and never closed. */
  predicate HoldsHandle(c: Call) {
    c.reply.Some? && c.reply.value.client && c.closes == 0
  }

  /** The select took the reply of a dial that returned a client together with an error. */
  predicate DroppedClient(c: Call) {
    c.drainer.NoDrain? && c.reply.Some? && c.reply.value.Both()
  }

  /**
   * Once settled, a produced client was closed exactly once, except exactly when it came with an
   * error and the select received it; a probe reports vended only for a client it has closed.
   */
  lemma SettledHandle(c: Call)
    requires Inv(c) && Settled(c)
    ensures HoldsHandle(c) <==> DroppedClient(c)
    ensures c.closes == if c.reply.Some? && c.reply.value.client && !DroppedClient(c) then 1 else 0
    ensures c.caller.outcome.Vended? <==> c.reply.Some? && c.reply.value.Usable() && c.drainer.NoDrain?
    ensures !c.drainer.NoDrain? ==> c.caller.outcome == ProbeError
  {
  }

  /** While the caller waits, it can take a reply that has been sent, cancelled or not, and give up when cancelled. */
  lemma SelectChoices(c: Call)
    requires Inv(c) && c.caller.Selecting?
    ensures Enabled(c, SelectReply) <==> c.dialler.DialDone?
    ensures Enabled(c, SelectCtx) <==> c.cancelled
  {
  }

  /** The dial goroutine never waits on its send. */
  lemma SendNeverBlocks(c: Call)
    requires Inv(c) && c.dialler.Sending?
    ensures Enabled(c, Send)
  {
  }

  /** Nothing gets stuck: a call with no step left but a cancellation has settled. */
  lemma StuckIffSettled(c: Call)
    requires Inv(c)
    ensures (forall e :: Enabled(c, e) ==> e == Cancel) <==> Settled(c)
  {
    if Settled(c) {
    } else if c.caller.CheckingCtx? {
      assert Enabled(c, CheckCtx);
    } else if c.caller.Finding? {
      assert Enabled(c, FindDevice(None));
    } else if c.dialler.Dialling? {
      assert Enabled(c, DialReturns(Reply(false, None)));
    } else if c.dialler.Sending? {
      assert Enabled(c, Send);
    } else if c.caller.Selecting? {
      assert Enabled(c, SelectReply);
    } else if c.caller.Received? {
      assert Enabled(c, Decide);
    } else if c.caller.Opened? {
      assert Enabled(c, Report(Vended));
    } else if c.caller.Failed? {
      assert Enabled(c, Report(ProbeError));
    } else if c.drainer.Draining? {
      assert Enabled(c, DrainTakes);
    } else {
      assert Enabled(c, DrainCloses);
    }
  }

  /** A step of the caller's own goroutine. */
  predicate ByCaller(e: Step) {
    e.CheckCtx? || e.FindDevice? || e.SelectReply? || e.SelectCtx? || e.Decide? || e.Report?
  }

  /** After a cancellation the caller can always go on, however long the dial takes. */
  lemma CancelFreesCaller(c: Call) returns (e: Step)
    requires Inv(c) && c.cancelled && !c.caller.Reported?
    ensures ByCaller(e) && Enabled(c, e)
  {
    e := match c.caller
      case CheckingCtx => CheckCtx
      case Finding => FindDevice(None)
      case Selecting => SelectCtx
      case Received(_) => Decide
      case Opened => Report(Vended)
      case _ => Report(ProbeError);
  }

  /** How many steps other than cancellations a call can still make. */
  function Rank(c: Call): nat {
    (match c.caller
     case CheckingCtx => 8
     case Finding => 7
     case Selecting => 4
     case Received(_) => 2
     case Opened => 1
     case Failed(_) => 1
     case Reported(_) => 0)
    + (match c.dialler case Dialling => 2 case Sending(_) => 1 case _ => 0)
    + (match c.drainer case Draining => 2 case Drained(_) => 1 case _ => 0)
  }

  lemma StepLowersRank(c: Call, e: Step)
    requires Enabled(c, e)
    ensures if e.Cancel? then Rank(Next(c, e)) == Rank(c) else Rank(Next(c, e)) < Rank(c)
  {
  }

  // ---- Many calls on one machine ------------------------------------------

  /** Calls by number, and the clients the machine has open: a client is named by the call that dialled it. */
  datatype State = State(calls: map<nat, Call>, open: set<nat>)

  datatype Event = Event(who: nat, step: Step)

  predicate Initial(s: State) {
    s.open == {} && forall w :: w in s.calls ==> s.calls[w] == Fresh()
  }

  predicate CanHappen(s: State, e: Event) {
    e.who in s.calls && Enabled(s.calls[e.who], e.step)
  }

  /** What the step does to the set of open clients. */
  function Opens(s: State, e: Event): set<nat>
    requires CanHappen(s, e)
  {
    var c := s.calls[e.who];
    match e.step
    case DialReturns(r) => if r.client then s.open + {e.who} else s.open
    case DrainCloses => if c.drainer.taken.client then s.open - {e.who} else s.open
    case Report(_) => if c.caller.Opened? then s.open - {e.who} else s.open
    case _ => s.open
  }

  function Happen(s: State, e: Event): State
    requires CanHappen(s, e)
  {
    State(s.calls[e.who := Next(s.calls[e.who], e.step)], Opens(s, e))
  }

  /** An interleaving: events that are not enabled do not happen. */
  function Run(s: State, events: seq<Event>): State {
    if events == [] then s
    else
      var r := Run(s, events[..|events| - 1]);
      var e := events[|events| - 1];
      if CanHappen(r, e) then Happen(r, e) else r
  }

  ghost predicate AllInv(s: State) {
    && (forall w :: w in s.calls ==> Inv(s.calls[w]))
    && (forall w :: w in s.open <==> w in s.calls && HoldsHandle(s.calls[w]))
  }

  lemma HappenKeepsInv(s: State, e: Event)
    requires AllInv(s) && CanHappen(s, e)
    ensures AllInv(Happen(s, e))
  {
    StepKeepsInv(s.calls[e.who], e.step);
  }

  lemma {:induction false} RunKeepsInv(init: State, events: seq<Event>)
    requires Initial(init)
    ensures AllInv(Run(init, events)) && Run(init, events).calls.Keys == init.calls.Keys
  {
    if events != [] {
      var n := |events| - 1;
      RunKeepsInv(init, events[..n]);
      if CanHappen(Run(init, events[..n]), events[n]) {
        HappenKeepsInv(Run(init, events[..n]), events[n]);
      }
    }
  }

  ghost predicate AllSettled(s: State) {
    forall w :: w in s.calls ==> Settled(s.calls[w])
  }

  /** When things have settled, the clients still open are exactly the dropped ones. */
  lemma SettledOpenClients(init: State, events: seq<Event>, w: nat)
    requires Initial(init) && AllSettled(Run(init, events))
    ensures var s := Run(init, events); w in s.open <==> w in s.calls && DroppedClient(s.calls[w])
  {
    RunKeepsInv(init, events);
    var s := Run(init, events);
    if w in s.calls {
      SettledHandle(s.calls[w]);
    }
  }

  /** Only a returning dial sets a call's reply. */
  lemma ReplyStep(s: State, e: Event, w: nat)
    requires CanHappen(s, e) && w in Happen(s, e).calls && Happen(s, e).calls[w].reply.Some?
    ensures w in s.calls
    ensures e == Event(w, DialReturns(Happen(s, e).calls[w].reply.value)) || s.calls[w].reply == Happen(s, e).calls[w].reply
  {
  }

  lemma {:induction false} RepliesComeFromDials(init: State, events: seq<Event>, w: nat)
    requires Initial(init) && w in Run(init, events).calls && Run(init, events).calls[w].reply.Some?
    ensures Event(w, DialReturns(Run(init, events).calls[w].reply.value)) in events
  {
    if events != [] {
      var n := |events| - 1;
      var s, e, found := Run(init, events[..n]), events[n], Event(w, DialReturns(Run(init, events).calls[w].reply.value));
      if CanHappen(s, e) {
        ReplyStep(s, e, w);
      }
      if e != found {
        RepliesComeFromDials(init, events[..n], w);
        InTake(events, n, found);
      }
    }
  }

  /** If no dial returns a client together with an error, settled probes leave no client open. */
  lemma ProbesLeaveNothingOpen(init: State, events: seq<Event>)
    requires Initial(init) && AllSettled(Run(init, events))
    requires forall e :: e in events && e.step.DialReturns? ==> !e.step.result.Both()
    ensures Run(init, events).open == {}
  {
    var s := Run(init, events);
    forall w | w in s.open
      ensures false
    {
      SettledOpenClients(init, events, w);
      RepliesComeFromDials(init, events, w);
    }
  }

  /** How many events of call w, other than cancellations, happened in the run. */
  function Work(init: State, events: seq<Event>, w: nat): nat {
    if events == [] then 0
    else
      var n := |events| - 1;
      var e := events[n];
      Work(init, events[..n], w) + if e.who == w && !e.step.Cancel? && CanHappen(Run(init, events[..n]), e) then 1 else 0
  }

  /** Every schedule settles: whatever the interleaving, a call makes at most eight steps. */
  lemma {:induction false} WorkIsBounded(init: State, events: seq<Event>, w: nat)
    requires Initial(init) && w in init.calls
    ensures w in Run(init, events).calls
    ensures Work(init, events, w) + Rank(Run(init, events).calls[w]) <= 8
  {
    if events != [] {
      var n := |events| - 1;
      WorkIsBounded(init, events[..n], w);
      var s := Run(init, events[..n]);
      if CanHappen(s, events[n]) && events[n].who == w {
        StepLowersRank(s.calls[w], events[n].step);
      }
    }
  }

  // ---- Calls that never dial ----------------------------------------------

  /** Failed for f before any dial, or reported that. */
  predicate Stopped(c: Call, f: Fault) {
    && c.dialler.NoDial? && c.reply.None? && c.channel == [] && c.drainer.NoDrain?
    && (c.caller == Failed(f) || (c.caller.Reported? && if f.CtxDone? then c.caller.outcome == ProbeError else !c.caller.outcome.Vended?))
  }

  /** Cancelled before the caller looks at the context, or stopped by that. */
  predicate CancelledEarly(c: Call) {
    || Stopped(c, CtxDone)
    || (c.caller.CheckingCtx? && c.cancelled && c.dialler.NoDial? && c.reply.None? && c.channel == [] && c.drainer.NoDrain?)
  }

  lemma StaysStopped(c: Call, e: Step, f: Fault)
    requires Enabled(c, e)
    ensures Stopped(c, f) ==> Stopped(Next(c, e), f)
    ensures CancelledEarly(c) ==> CancelledEarly(Next(c, e))
  {
  }

  lemma {:induction false} RunStaysStopped(s: State, events: seq<Event>, w: nat, f: Fault)
    requires w in s.calls
    ensures w in Run(s, events).calls
    ensures Stopped(s.calls[w], f) ==> Stopped(Run(s, events).calls[w], f)
    ensures CancelledEarly(s.calls[w]) ==> CancelledEarly(Run(s, events).calls[w])
  {
    if events != [] {
      var n := |events| - 1;
      RunStaysStopped(s, events[..n], w, f);
      var mid := Run(s, events[..n]);
      if CanHappen(mid, events[n]) && events[n].who == w {
        StaysStopped(mid.calls[w], events[n].step, f);
      }
    }
  }

  lemma {:induction false} RunSplit(s: State, a: seq<Event>, b: seq<Event>)
    ensures Run(s, a + b) == Run(Run(s, a), b)
  {
    if b == [] {
      assert a + b == a;
    } else {
      var n := |b| - 1;
      RunSplit(s, a, b[..n]);
      assert (a + b)[..|a + b| - 1] == a + b[..n];
    }
  }

  /** A call that is cancelled before the caller looks at the context never dials, and reports an error if anything. */
  lemma CancelledNeverDials(init: State, events: seq<Event>, later: seq<Event>, w: nat)
    requires Initial(init) && w in init.calls && w in Run(init, events).calls
    requires var c := Run(init, events).calls[w]; c.caller.CheckingCtx? && c.cancelled
    ensures var s := Run(init, events + later);
      && w in s.calls && s.calls[w].dialler.NoDial? && s.calls[w].reply.None? && w !in s.open
      && (s.calls[w].caller.Reported? ==> s.calls[w].caller.outcome == ProbeError)
  {
    RunKeepsInv(init, events);
    RunKeepsInv(init, events + later);
    RunSplit(init, events, later);
    RunStaysStopped(Run(init, events), later, w, CtxDone);
  }

  /** A call whose device is not found never dials, and reports that error if anything. */
  lemma LostDeviceNeverDials(init: State, events: seq<Event>, later: seq<Event>, w: nat, err: Error)
    requires Initial(init) && CanHappen(Run(init, events), Event(w, FindDevice(Some(err))))
    ensures var s := Run(init, events + [Event(w, FindDevice(Some(err)))] + later);
      && w in s.calls && s.calls[w].dialler.NoDial? && s.calls[w].reply.None? && w !in s.open
      && (s.calls[w].caller == Failed(DeviceError(err)) || (s.calls[w].caller.Reported? && !s.calls[w].caller.outcome.Vended?))
  {
    var e := Event(w, FindDevice(Some(err)));
    RunKeepsInv(init, events);
    SnocTake(events, e);
    RunKeepsInv(init, events + [e] + later);
    RunSplit(init, events + [e], later);
    RunStaysStopped(Run(init, events + [e]), later, w, DeviceError(err));
  }

  // ---- The exact condition ------------------------------------------------

  function One(): State {
    State(map[0 := Fresh()], {})
  }

  /** The uncancelled run in which the dial returns r. */
  function ReceivedRun(r: Reply): seq<Event> {
    [Event(0, CheckCtx), Event(0, FindDevice(None)), Event(0, DialReturns(r)), Event(0, Send), Event(0, SelectReply),
     Event(0, Decide), Event(0, Report(if r.Usable() then Vended else ProbeError))]
  }

  /** The call after the first i events of ReceivedRun. */
  function Stage(r: Reply, i: nat): Call {
    match i
    case 0 => Fresh()
    case 1 => Call(Finding, NoDial, [], NoDrain, false, None, 0)
    case 2 => Call(Selecting, Dialling, [], NoDrain, false, None, 0)
    case 3 => Call(Selecting, Sending(r), [], NoDrain, false, Some(r), 0)
    case 4 => Call(Selecting, DialDone, [r], NoDrain, false, Some(r), 0)
    case 5 => Call(Received(r), DialDone, [], NoDrain, false, Some(r), 0)
    case 6 =>
      var next := if r.err.Some? then Failed(DialError(r.err.value)) else if !r.client then Failed(NilClient) else Opened;
      Call(next, DialDone, [], NoDrain, false, Some(r), 0)
    case _ =>
      Call(Reported(if r.Usable() then Vended else ProbeError), DialDone, [], NoDrain, false, Some(r), if r.Usable() then 1 else 0)
  }

  lemma StageStep(r: Reply, i: nat)
    requires i < 7
    ensures Enabled(Stage(r, i), ReceivedRun(r)[i].step)
    ensures Next(Stage(r, i), ReceivedRun(r)[i].step) == Stage(r, i + 1)
  {
  }

  lemma {:induction false} RunReachesStage(r: Reply, i: nat)
    requires i <= 7
    ensures Run(One(), ReceivedRun(r)[..i]).calls == map[0 := Stage(r, i)]
  {
    var evs := ReceivedRun(r);
    if i > 0 {
      RunReachesStage(r, i - 1);
      StageStep(r, i - 1);
      assert evs[..i][..i - 1] == evs[..i - 1] && evs[i - 1].who == 0;
    }
  }

  lemma ReceivedRunEnds(r: Reply)
    ensures var s := Run(One(), ReceivedRun(r));
      AllSettled(s) && s.open == if r.Both() then {0} else {}
  {
    RunReachesStage(r, 7);
    TakeAll(ReceivedRun(r), 7);
    var s := Run(One(), ReceivedRun(r));
    forall w
      ensures w in s.open <==> w == 0 && r.Both()
    {
      SettledOpenClients(One(), ReceivedRun(r), w);
    }
  }

  /** Everything settled with a client open, and the dial had returned r. */
  ghost predicate Leaks(events: seq<Event>, r: Reply) {
    && AllSettled(Run(One(), events)) && Run(One(), events).open != {}
    && forall e :: e in events && e.step.DialReturns? ==> e.step.result == r
  }

  /** A client can be left open after everything settled exactly when the dial returned it with an error. */
  lemma LeaksIff(r: Reply)
    ensures (exists events :: Leaks(events, r)) <==> r.Both()
  {
    if r.Both() {
      ReceivedRunEnds(r);
      assert 0 in Run(One(), ReceivedRun(r)).open;
      assert Leaks(ReceivedRun(r), r);
    } else {
      forall events: seq<Event> | AllSettled(Run(One(), events)) && (forall e :: e in events && e.step.DialReturns? ==> e.step.result == r)
        ensures Run(One(), events).open == {}
      {
        ProbesLeaveNothingOpen(One(), events);
      }
    }
  }
}
