/** One delivered job, from the creation of its task to the task's end
    (Worker._run_job, _run_plain, _run_with_auto_extend, _dispose, _heartbeat).

    Three asyncio tasks share the work: the job task, the handler task and the
    heartbeat task.  Code between two awaits is atomic, so a state describes the three
    tasks parked at their awaits, and an event is one segment of one of them, or a
    cancellation that arrives from outside.  The environment decides how the handler
    ends (it may ignore cancellation), how each extend is answered and when.

    What is proved, for every sequence of events: once `lease_lost` is set, no ack or
    nack is ever called for the delivery; a finished job made exactly the one call its
    handler's outcome asks for, and none at all exactly when the lease was lost, a
    CancelledError reached the worker's own code first, or the handler failed where no
    branch catches it; no task outlives the job task. */
module JobRun {
  import opened Options

  datatype Directive = Default | After(delayUs: int) | DeadLetter

  datatype HandlerResult =
    | Returned
    | RaisedHandlerError(directive: Directive, reason: string)
    | RaisedException(text: string)
    | RaisedCancelled
    | RaisedBase                       // a BaseException that is neither of these

  /** What becomes of `handler(job.payload, job.ctx)`: a call that raises, or that returns
      nothing awaitable, fails before there is anything to await. */
  datatype Beginning =
    | NoHandler
    | Begun
    | CallRaises(result: HandlerResult)

  datatype HandlerTask =
    | NotStarted
    | Running(cancelRequested: bool)
    | Ended(result: HandlerResult)

  datatype HeartbeatTask =
    | NoHeartbeat
    | Sleeping(cancelRequested: bool)
    | Extending(cancelRequested: bool)
    | HeartbeatEnded

  /** A call of SeppClient.ack or SeppClient.nack for this delivery. */
  datatype Call = Ack | Nack(directive: Directive, reason: string)

  /** The local `outcome` of _run_with_auto_extend while the heartbeat is reaped; Propagate
      is a CancelledError on its way out through the `finally`, Escape a BaseException. */
  datatype Pending = Dispose(call: Call) | LeaseLost | Propagate | Escape

  datatype End = Completed | CancelledOut | Crashed

  /** Where the job task is parked. */
  datatype Pc =
    | Created
    | AwaitHandler
    | ReapHeartbeat(pending: Pending)
    | InCall
    | Finished(end: End)

  datatype State = State(
    autoExtend: bool,
    pc: Pc,
    handler: HandlerTask,
    heartbeat: HeartbeatTask,
    leaseLost: bool,      // the shared lease_lost box
    callRaised: bool,     // history: the call of the handler itself raised
    mustCancel: bool,     // a CancelledError is thrown into the job task when it next resumes
    cut: bool,            // history: a CancelledError reached the job task before any call
    calls: seq<Call>)     // history: the ack/nack calls made so far

  datatype Event =
    | Start(beginning: Beginning)
    | StartCancelled
    | HandlerEnds(result: HandlerResult)
    | HandlerResumes
    | HeartbeatWakes
    | ExtendSucceeds
    | ExtendReassigned                // AttemptMismatchError or JobNotFoundError
    | ExtendFails(expired: bool)      // another SeppError; `expired`: now >= known expiry
    | HeartbeatCrashes                // an exception that is no SeppError
    | HeartbeatCancelled
    | HeartbeatReaped
    | CallReturns                     // normally, or with a SeppError that is logged
    | CallCrashes                     // with an exception that is no SeppError
    | CallCancelled
    | CancelFromOutside               // Task.cancel() on the job task

  const NO_HANDLER_REASON := "no handler registered for job_type"
  const EXCEPTION_REASON := "handler raised: "

  function Init(autoExtend: bool): State {
    State(autoExtend, Created, NotStarted, NoHeartbeat, false, false, false, false, [])
  }

  /** The call _dispose makes for a handler outcome that is caught. */
  function Disposition(result: HandlerResult): Call
    requires !result.RaisedCancelled? && !result.RaisedBase?
  {
    match result
    case Returned => Ack
    case RaisedHandlerError(directive, reason) => Nack(directive, reason)
    case RaisedException(text) => Nack(Default, EXCEPTION_REASON + text)
  }

  function CancelHandler(h: HandlerTask): HandlerTask {
    if h.Running? then Running(true) else h
  }

  function CancelHeartbeat(h: HeartbeatTask): HeartbeatTask {
    match h
    case Sleeping(_) => Sleeping(true)
    case Extending(_) => Extending(true)
    case _ => h
  }

  predicate HeartbeatAlive(s: State) {
    s.heartbeat.Sleeping? || s.heartbeat.Extending?
  }

  /** Task.cancel() on the job task: passed on to the handler while that is what the job
      awaits and it still runs (so a handler can swallow it), otherwise delivered when
      the job task next resumes. */
  function RequestCancel(s: State): State {
    if s.pc.Finished? then s
    else if s.pc.AwaitHandler? && s.handler.Running? then s.(handler := Running(true))
    else s.(mustCancel := true)
  }

  /** The heartbeat's verdict: the box is set before the handler is cancelled. */
  function LoseLease(s: State): State {
    s.(leaseLost := true, heartbeat := HeartbeatEnded, handler := CancelHandler(s.handler))
  }

  function MakeCall(s: State, call: Call): State {
    s.(calls := s.calls + [call], pc := InCall)
  }

  predicate Enabled(s: State, e: Event) {
    match e
    case Start(beginning) =>
      s.pc.Created? && !s.mustCancel && (beginning.CallRaises? ==> !beginning.result.Returned?)
    case StartCancelled => s.pc.Created? && s.mustCancel
    case HandlerEnds(_) => s.pc.AwaitHandler? && s.handler.Running?
    case HandlerResumes => s.pc.AwaitHandler? && s.autoExtend && s.handler.Ended?
    case HeartbeatWakes => s.heartbeat.Sleeping?
    case ExtendSucceeds => s.heartbeat.Extending?
    case ExtendReassigned => s.heartbeat.Extending?
    case ExtendFails(_) => s.heartbeat.Extending?
    case HeartbeatCrashes => s.heartbeat.Extending?
    case HeartbeatCancelled => HeartbeatAlive(s) && s.heartbeat.cancelRequested
    case HeartbeatReaped => s.pc.ReapHeartbeat? && !HeartbeatAlive(s)
    case CallReturns => s.pc.InCall?
    case CallCrashes => s.pc.InCall?
    case CallCancelled => s.pc.InCall? && s.mustCancel
    case CancelFromOutside => true
  }

  function Apply(s: State, e: Event): State
    requires Enabled(s, e)
  {
    match e
    case Start(beginning) => AfterStart(s, beginning)
    case StartCancelled => s.(pc := Finished(CancelledOut), cut := true)
    case HandlerEnds(result) =>
      var s' := s.(handler := Ended(result));
      // _run_plain awaits the handler inside the job task itself.
      if s.autoExtend then s' else AfterPlainHandler(s', result)
    case HandlerResumes => AfterHandler(s)
    case HeartbeatWakes => s.(heartbeat := Extending(s.heartbeat.cancelRequested))
    case ExtendSucceeds => s.(heartbeat := Sleeping(s.heartbeat.cancelRequested))
    case ExtendReassigned => LoseLease(s)
    case ExtendFails(expired) =>
      if expired then LoseLease(s) else s.(heartbeat := Sleeping(s.heartbeat.cancelRequested))
    case HeartbeatCrashes => s.(heartbeat := HeartbeatEnded)
    case HeartbeatCancelled => s.(heartbeat := HeartbeatEnded)
    case HeartbeatReaped => AfterReap(s)
    case CallReturns => s.(pc := Finished(Completed))
    case CallCrashes => s.(pc := Finished(Crashed))
    case CallCancelled => s.(pc := Finished(CancelledOut))
    case CancelFromOutside => RequestCancel(s)
  }

  /** The job task's first segment.  _run_plain calls the handler inside its `try`;
      _run_with_auto_extend calls it before. */
  function AfterStart(s: State, beginning: Beginning): State {
    match beginning
    case NoHandler => MakeCall(s, Nack(Default, NO_HANDLER_REASON))
    case Begun =>
      s.(pc := AwaitHandler, handler := Running(false),
         heartbeat := if s.autoExtend then Sleeping(false) else NoHeartbeat)
    case CallRaises(result) =>
      var s' := s.(handler := Ended(result), callRaised := true);
      if !s.autoExtend then AfterPlainHandler(s', result)
      else if result.RaisedCancelled? then s'.(pc := Finished(CancelledOut), cut := true)
      else s'.(pc := Finished(Crashed))
  }

  /** The `except` branches of _run_plain. */
  function AfterPlainHandler(s: State, result: HandlerResult): State {
    if result.RaisedCancelled? then s.(pc := Finished(CancelledOut), cut := true)
    else if result.RaisedBase? then s.(pc := Finished(Crashed))
    else MakeCall(s, Disposition(result))
  }

  /** `await handler_task` returned or raised; the `finally` cancels the heartbeat. */
  function AfterHandler(s: State): State
    requires s.handler.Ended?
  {
    var cancelled := s.mustCancel || s.handler.result.RaisedCancelled?;
    var pending := if cancelled then (if s.leaseLost then LeaseLost else Propagate)
                   else if s.handler.result.RaisedBase? then Escape
                   else Dispose(Disposition(s.handler.result));
    s.(pc := ReapHeartbeat(pending), mustCancel := false, cut := cancelled,
       heartbeat := CancelHeartbeat(s.heartbeat))
  }

  /** The heartbeat has been gathered; only now is the box read for the last time. */
  function AfterReap(s: State): State
    requires s.pc.ReapHeartbeat?
  {
    if s.mustCancel then s.(pc := Finished(CancelledOut), cut := true)
    else if s.pc.pending.Propagate? then s.(pc := Finished(CancelledOut))
    else if s.pc.pending.Escape? then s.(pc := Finished(Crashed))
    else if s.leaseLost || s.pc.pending.LeaseLost? then s.(pc := Finished(Completed))
    else MakeCall(s, s.pc.pending.call)
  }

  ghost predicate Valid(s: State, es: seq<Event>)
    decreases |es|
  {
    es == [] || (Enabled(s, es[0]) && Valid(Apply(s, es[0]), es[1..]))
  }

  ghost function Exec(s: State, es: seq<Event>): State
    requires Valid(s, es)
    decreases |es|
  {
    if es == [] then s else Exec(Apply(s, es[0]), es[1..])
  }

  /** The handler failed where no branch of the worker catches it: with a BaseException, or
      under auto-extend in the call itself. */
  predicate Uncaught(s: State) {
    s.handler.Ended? && (s.handler.result.RaisedBase? || (s.autoExtend && s.callRaised))
  }

  /** What the job owes the server once its handler's fate is known. */
  ghost function OwedCalls(s: State): seq<Call> {
    if s.leaseLost || s.cut || Uncaught(s) then []
    else match s.handler
      case NotStarted => [Nack(Default, NO_HANDLER_REASON)]
      case Running(_) => []
      case Ended(result) => if result.RaisedCancelled? then [] else [Disposition(result)]
  }

  ghost predicate Inv(s: State) {
    && (s.pc.Created? ==>
          && s.handler.NotStarted? && s.heartbeat.NoHeartbeat?
          && !s.leaseLost && !s.cut && !s.callRaised && s.calls == [])
    && (s.pc.AwaitHandler? ==>
          && !s.handler.NotStarted? && !s.cut && !s.callRaised && s.calls == []
          && (s.mustCancel ==> s.handler.Ended?)
          && (HeartbeatAlive(s) ==> !s.heartbeat.cancelRequested)
          && (s.handler.Ended? ==> s.autoExtend))
    && (s.pc.ReapHeartbeat? ==>
          && s.autoExtend && s.handler.Ended? && !s.callRaised && s.calls == []
          && (HeartbeatAlive(s) ==> s.heartbeat.cancelRequested)
          && s.cut == (s.pc.pending.LeaseLost? || s.pc.pending.Propagate?)
          && (s.pc.pending.LeaseLost? ==> s.leaseLost)
          && (s.pc.pending.Escape? ==> s.handler.result.RaisedBase?)
          && (s.pc.pending.Dispose? ==>
                && !s.handler.result.RaisedCancelled? && !s.handler.result.RaisedBase?
                && s.pc.pending.call == Disposition(s.handler.result)))
    && (s.pc.InCall? || s.pc.Finished? ==>
          !HeartbeatAlive(s) && !s.handler.Running? && s.calls == OwedCalls(s))
    && (s.pc.InCall? ==> s.calls != [])
    && (s.pc.Finished? && s.calls == [] ==>
          match s.pc.end
          case Completed => s.leaseLost && (Uncaught(s) ==> s.cut)
          case CancelledOut => s.cut
          case Crashed => Uncaught(s) && !s.cut)
    && (!s.autoExtend ==> !s.leaseLost && s.heartbeat.NoHeartbeat?)
  }

  lemma StepKeepsInv(s: State, e: Event)
    requires Inv(s) && Enabled(s, e)
    ensures Inv(Apply(s, e))
    ensures s.leaseLost ==> Apply(s, e).leaseLost
    ensures s.calls <= Apply(s, e).calls
  {
  }

  lemma {:induction false} RunKeepsInv(s: State, es: seq<Event>)
    requires Inv(s) && Valid(s, es)
    ensures Inv(Exec(s, es))
    ensures s.leaseLost ==> Exec(s, es).leaseLost
    ensures s.calls <= Exec(s, es).calls
    decreases |es|
  {
    if es != [] {
      StepKeepsInv(s, es[0]);
      RunKeepsInv(Apply(s, es[0]), es[1..]);
    }
  }

  lemma {:induction false} RunsCompose(s: State, before: seq<Event>, after: seq<Event>)
    requires Valid(s, before) && Valid(Exec(s, before), after)
    ensures Valid(s, before + after)
    ensures Exec(s, before + after) == Exec(Exec(s, before), after)
    decreases |before|
  {
    if before == [] {
      assert before + after == after;
    } else {
      assert (before + after)[1..] == before[1..] + after;
      RunsCompose(Apply(s, before[0]), before[1..], after);
    }
  }

  /** The lease verdict is final.  If the box is set at any moment of a run, no ack or
      nack has been called before that moment and none is called after it. */
  lemma VerdictIsFinal(autoExtend: bool, before: seq<Event>, after: seq<Event>)
    requires Valid(Init(autoExtend), before)
    requires Valid(Exec(Init(autoExtend), before), after)
    requires Exec(Init(autoExtend), before).leaseLost
    ensures Exec(Init(autoExtend), before).calls == []
    ensures Valid(Init(autoExtend), before + after)
    ensures Exec(Init(autoExtend), before + after).calls == []
  {
    var s := Exec(Init(autoExtend), before);
    RunKeepsInv(Init(autoExtend), before);
    RunKeepsInv(s, after);
    RunsCompose(Init(autoExtend), before, after);
  }

  /** A CancelledError surfaces in the worker's own code where nothing turns it into a lost
      lease: before the job starts, out of the call of the handler or a handler that the job
      task runs itself, out of `await handler_task` with the box unset, or while the
      heartbeat is reaped. */
  predicate Strikes(s: State, e: Event) {
    || e.StartCancelled?
    || e == Start(CallRaises(RaisedCancelled))
    || (e.HandlerEnds? && !s.autoExtend && e.result.RaisedCancelled?)
    || (e.HandlerResumes? && !s.leaseLost
        && (s.mustCancel || (s.handler.Ended? && s.handler.result.RaisedCancelled?)))
    || (e.HeartbeatReaped? && s.mustCancel)
  }

  ghost predicate Struck(s: State, es: seq<Event>)
    requires Valid(s, es)
    decreases |es|
  {
    es != [] && (Strikes(s, es[0]) || Struck(Apply(s, es[0]), es[1..]))
  }

  /** The CancelledError is on its way out, or is out. */
  predicate Doomed(s: State) {
    s.calls == [] && (s.pc == ReapHeartbeat(Propagate) || s.pc == Finished(CancelledOut))
  }

  lemma {:induction false} StruckIsDoomed(s: State, es: seq<Event>)
    requires Inv(s) && Valid(s, es)
    ensures Doomed(Exec(s, es)) <==> Doomed(s) || Struck(s, es)
    decreases |es|
  {
    if es != [] {
      StepKeepsInv(s, es[0]);
      assert Doomed(Apply(s, es[0])) <==> Doomed(s) || Strikes(s, es[0]);
      StruckIsDoomed(Apply(s, es[0]), es[1..]);
    }
  }

  /** A CancelledError that surfaces with the box unset propagates with no ack and no nack,
      even if the box is set before the job has ended; and no other job ends cancelled
      without a call. */
  lemma CancellationPropagatesExactly(autoExtend: bool, es: seq<Event>)
    requires Valid(Init(autoExtend), es)
    ensures var s := Exec(Init(autoExtend), es);
            && (Struck(Init(autoExtend), es) ==> s.calls == [])
            && (s.pc.Finished? ==>
                  (Struck(Init(autoExtend), es) <==> s.pc.end.CancelledOut? && s.calls == []))
  {
    StruckIsDoomed(Init(autoExtend), es);
  }

  // ------------------------------------------------- what was called, and what for

  /** The calls that a handler's fate asks for, case by case. */
  predicate FitsOutcome(handler: HandlerTask, calls: seq<Call>) {
    match handler
    case NotStarted => calls == [Nack(Default, "no handler registered for job_type")]
    case Running(_) => false
    case Ended(Returned) => calls == [Ack]
    case Ended(RaisedHandlerError(directive, reason)) => calls == [Nack(directive, reason)]
    case Ended(RaisedException(text)) => calls == [Nack(Default, "handler raised: " + text)]
    case Ended(RaisedCancelled) => false
    case Ended(RaisedBase) => false
  }

  lemma CallsFitOutcome(s: State)
    requires Inv(s) && s.calls != []
    ensures FitsOutcome(s.handler, s.calls)
  {
  }

  /** The end of the handler, or of its call, if this event is it. */
  function EndIn(e: Event): Option<HandlerResult> {
    match e
    case HandlerEnds(result) => Some(result)
    case Start(CallRaises(result)) => Some(result)
    case _ => None
  }

  /** How the handler, or its call, ended along a run. */
  function Fate(es: seq<Event>): Option<HandlerResult> {
    if es == [] then None
    else if EndIn(es[|es| - 1]).Some? then EndIn(es[|es| - 1])
    else Fate(es[..|es| - 1])
  }

  lemma FateGrows(before: seq<Event>, e: Event)
    ensures Fate(before + [e]) == if EndIn(e).Some? then EndIn(e) else Fate(before)
  {
    var seen := before + [e];
    assert seen[..|seen| - 1] == before && seen[|seen| - 1] == e;
  }

  lemma StepEndsHandler(s: State, e: Event)
    requires Inv(s) && Enabled(s, e)
    ensures EndIn(e).Some? ==> Apply(s, e).handler == Ended(EndIn(e).value)
    ensures EndIn(e).None? ==> Apply(s, e).handler.Ended? == s.handler.Ended?
    ensures EndIn(e).None? && s.handler.Ended? ==> Apply(s, e).handler == s.handler
  {
  }

  predicate FateKnown(h: HandlerTask, fate: Option<HandlerResult>) {
    h.Ended? == fate.Some? && (h.Ended? ==> h.result == fate.value)
  }

  lemma StepFollowsFate(s: State, e: Event, before: seq<Event>)
    requires Inv(s) && Enabled(s, e) && FateKnown(s.handler, Fate(before))
    ensures FateKnown(Apply(s, e).handler, Fate(before + [e]))
  {
    hide Inv, Enabled, Apply, Fate, EndIn;
    FateGrows(before, e);
    StepEndsHandler(s, e);
  }

  lemma {:induction false} HandlerFollowsFate(s: State, es: seq<Event>, before: seq<Event>)
    requires Inv(s) && Valid(s, es) && FateKnown(s.handler, Fate(before))
    ensures FateKnown(Exec(s, es).handler, Fate(before + es))
    decreases |es|
  {
    if es == [] {
      assert before + es == before;
    } else {
      StepKeepsInv(s, es[0]);
      StepFollowsFate(s, es[0], before);
      hide Inv, Enabled, Apply, FateKnown, Fate;
      var seen := before + [es[0]];
      HandlerFollowsFate(Apply(s, es[0]), es[1..], seen);
      assert seen + es[1..] == before + es;
    }
  }

  /** If the job called the server, it did so once, and with what the handler's end asks
      for: an ack if it returned, the HandlerError's own directive and reason, the text of
      any other exception; or that there is no handler. */
  lemma TheCallFits(autoExtend: bool, es: seq<Event>)
    requires Valid(Init(autoExtend), es) && Exec(Init(autoExtend), es).calls != []
    ensures FitsOutcome(if Fate(es).Some? then Ended(Fate(es).value) else NotStarted, Exec(Init(autoExtend), es).calls)
  {
    RunKeepsInv(Init(autoExtend), es);
    HandlerFollowsFate(Init(autoExtend), es, []);
    assert [] + es == es;
    CallsFitOutcome(Exec(Init(autoExtend), es));
  }

  /** The heartbeat's two verdicts. */
  predicate IsVerdict(e: Event) {
    e.ExtendReassigned? || e == ExtendFails(true)
  }

  predicate AnyVerdict(es: seq<Event>) {
    es != [] && (IsVerdict(es[0]) || AnyVerdict(es[1..]))
  }

  predicate AnyHeartbeatCrash(es: seq<Event>) {
    es != [] && (es[0].HeartbeatCrashes? || AnyHeartbeatCrash(es[1..]))
  }

  lemma {:induction false} BoxFollowsVerdicts(s: State, es: seq<Event>)
    requires Inv(s) && Valid(s, es)
    requires s.leaseLost ==> s.handler != Running(false) && !HeartbeatAlive(s)
    ensures Exec(s, es).leaseLost <==> s.leaseLost || AnyVerdict(es)
    ensures Exec(s, es).leaseLost ==> Exec(s, es).handler != Running(false) && !HeartbeatAlive(Exec(s, es))
    decreases |es|
  {
    if es != [] {
      StepKeepsInv(s, es[0]);
      BoxFollowsVerdicts(Apply(s, es[0]), es[1..]);
    }
  }

  lemma {:induction false} HeartbeatGoesRound(s: State, es: seq<Event>)
    requires Inv(s) && Valid(s, es)
    requires s.pc.AwaitHandler? && s.autoExtend ==> HeartbeatAlive(s)
    ensures var s' := Exec(s, es);
            s'.pc.AwaitHandler? && s'.autoExtend && !HeartbeatAlive(s') ==> AnyVerdict(es) || AnyHeartbeatCrash(es)
    decreases |es|
  {
    if es != [] {
      StepKeepsInv(s, es[0]);
      if !IsVerdict(es[0]) && !es[0].HeartbeatCrashes? {
        HeartbeatGoesRound(Apply(s, es[0]), es[1..]);
      }
    }
  }

  /** The box is set exactly by a verdict of the heartbeat, which is then over and, if the
      handler still runs, has asked it to stop; and while the handler is awaited nothing
      but a verdict or a crash ends the heartbeat. */
  lemma BoxIsSetExactly(autoExtend: bool, es: seq<Event>)
    requires Valid(Init(autoExtend), es)
    ensures var s := Exec(Init(autoExtend), es);
            && (s.leaseLost <==> AnyVerdict(es))
            && (s.leaseLost ==> s.handler != Running(false) && !HeartbeatAlive(s))
            && (s.pc.AwaitHandler? && autoExtend && !HeartbeatAlive(s) ==> AnyVerdict(es) || AnyHeartbeatCrash(es))
  {
    BoxFollowsVerdicts(Init(autoExtend), es);
    HeartbeatGoesRound(Init(autoExtend), es);
    ModeIsKept(Init(autoExtend), es);
  }

  lemma StepKeepsMode(s: State, e: Event)
    requires Enabled(s, e)
    ensures Apply(s, e).autoExtend == s.autoExtend
  {
  }

  lemma {:induction false} ModeIsKept(s: State, es: seq<Event>)
    requires Valid(s, es)
    ensures Exec(s, es).autoExtend == s.autoExtend
    decreases |es|
  {
    if es != [] {
      StepKeepsMode(s, es[0]);
      hide Enabled, Apply;
      ModeIsKept(Apply(s, es[0]), es[1..]);
    }
  }

  /** What may keep a job from calling the server. */
  predicate IsCause(autoExtend: bool, e: Event) {
    || IsVerdict(e) || e.CancelFromOutside?
    || (e.HandlerEnds? && (e.result.RaisedCancelled? || e.result.RaisedBase?))
    || (e.Start? && e.beginning.CallRaises?
        && (autoExtend || e.beginning.result.RaisedCancelled? || e.beginning.result.RaisedBase?))
  }

  predicate AnyCause(autoExtend: bool, es: seq<Event>) {
    es != [] && (IsCause(autoExtend, es[0]) || AnyCause(autoExtend, es[1..]))
  }

  predicate Marked(s: State) {
    || s.mustCancel || s.leaseLost || s.cut || s.handler == Running(true)
    || (s.handler.Ended? && (s.handler.result.RaisedCancelled? || s.handler.result.RaisedBase?))
    || (s.autoExtend && s.callRaised)
  }

  lemma MarkHasCause(s: State, e: Event)
    requires Enabled(s, e)
    ensures Marked(Apply(s, e)) ==> Marked(s) || IsCause(s.autoExtend, e)
  {
  }

  lemma {:induction false} MarksHaveCauses(s: State, es: seq<Event>)
    requires Valid(s, es)
    ensures Marked(Exec(s, es)) ==> Marked(s) || AnyCause(s.autoExtend, es)
    decreases |es|
  {
    if es != [] {
      MarkHasCause(s, es[0]);
      StepKeepsMode(s, es[0]);
      hide Enabled, Apply, Marked, IsCause;
      MarksHaveCauses(Apply(s, es[0]), es[1..]);
    }
  }

  /** No job goes without its ack or nack for nothing: one that ended with no call saw a
      verdict, a cancellation request, a handler that ended cancelled or beyond Exception,
      or under auto-extend a call of the handler that raised.  Nor is a handler asked to stop
      for nothing. */
  lemma NoCallHasCause(autoExtend: bool, es: seq<Event>)
    requires Valid(Init(autoExtend), es)
    ensures var s := Exec(Init(autoExtend), es);
            (s.pc.Finished? && s.calls == []) || s.handler == Running(true) ==> AnyCause(autoExtend, es)
  {
    RunKeepsInv(Init(autoExtend), es);
    MarksHaveCauses(Init(autoExtend), es);
  }

  /** A cancellation request that has not been answered yet, or has been heeded. */
  predicate Told(s: State) {
    s.pc.Finished? || s.mustCancel || (s.pc.AwaitHandler? && s.handler == Running(true))
  }

  lemma RequestIsTold(s: State)
    ensures Told(RequestCancel(s)) && RequestCancel(s) == Apply(s, CancelFromOutside)
    ensures RequestCancel(s).autoExtend == s.autoExtend
  {
  }

  predicate CallsNobody(s: State) {
    && s.calls == [] && !s.pc.InCall?
    && (s.mustCancel || s.pc.Finished? || s.pc == ReapHeartbeat(LeaseLost) || s.pc == ReapHeartbeat(Propagate))
  }

  lemma {:induction false} NobodyIsCalled(s: State, es: seq<Event>)
    requires Inv(s) && Valid(s, es) && CallsNobody(s)
    ensures Exec(s, es).calls == []
    decreases |es|
  {
    if es != [] {
      StepKeepsInv(s, es[0]);
      NobodyIsCalled(Apply(s, es[0]), es[1..]);
    }
  }

  /** A cancellation of the job is never lost: it goes to the handler while that is awaited
      and runs; at any other moment before the call, no ack and no nack follows. */
  lemma CancellationIsNotLost(autoExtend: bool, before: seq<Event>, after: seq<Event>)
    requires Valid(Init(autoExtend), before)
    requires Valid(Apply(Exec(Init(autoExtend), before), CancelFromOutside), after)
    ensures var s := Apply(Exec(Init(autoExtend), before), CancelFromOutside);
            && Told(s)
            && (s.calls == [] && !s.handler.Running? ==> Exec(s, after).calls == [])
  {
    RunKeepsInv(Init(autoExtend), before);
    var s := Exec(Init(autoExtend), before);
    StepKeepsInv(s, CancelFromOutside);
    if Apply(s, CancelFromOutside).calls == [] && !s.handler.Running? {
      NobodyIsCalled(Apply(s, CancelFromOutside), after);
    }
  }

  predicate AnyOutsideCancel(es: seq<Event>) {
    es != [] && (es[0].CancelFromOutside? || AnyOutsideCancel(es[1..]))
  }

  /** On its way to a quiet end: nothing is called and nothing is raised. */
  predicate EndsQuietly(s: State) {
    && s.leaseLost && !s.mustCancel && s.calls == []
    && (s.pc == Finished(Completed)
        || (s.pc.ReapHeartbeat? && (s.pc.pending.LeaseLost? || s.pc.pending.Dispose?)))
  }

  lemma {:induction false} QuietEnd(s: State, es: seq<Event>)
    requires Inv(s) && Valid(s, es) && EndsQuietly(s) && !AnyOutsideCancel(es)
    ensures EndsQuietly(Exec(s, es))
    decreases |es|
  {
    if es != [] {
      StepKeepsInv(s, es[0]);
      QuietEnd(Apply(s, es[0]), es[1..]);
    }
  }

  /** A lost lease ends quietly.  If the box is set when `await handler_task` returns or
      raises, a CancelledError then included, and no further cancellation comes, the job
      task just ends: no ack, no nack, no exception. */
  lemma LostLeaseEndsQuietly(autoExtend: bool, before: seq<Event>, after: seq<Event>)
    requires Valid(Init(autoExtend), before)
    requires var s := Exec(Init(autoExtend), before);
             && Enabled(s, HandlerResumes) && s.leaseLost
             && (s.handler.result.RaisedBase? ==> s.mustCancel)
             && Valid(Apply(s, HandlerResumes), after) && !AnyOutsideCancel(after)
    ensures var s := Exec(Apply(Exec(Init(autoExtend), before), HandlerResumes), after);
            s.calls == [] && (s.pc.Finished? ==> s.pc.end.Completed?)
  {
    RunKeepsInv(Init(autoExtend), before);
    var s := Exec(Init(autoExtend), before);
    StepKeepsInv(s, HandlerResumes);
    QuietEnd(Apply(s, HandlerResumes), after);
  }

  /** How the call of ack or nack ended. */
  function CallEnd(es: seq<Event>): Option<End> {
    if es == [] then None
    else match es[|es| - 1]
      case CallReturns => Some(Completed)
      case CallCrashes => Some(Crashed)
      case CallCancelled => Some(CancelledOut)
      case _ => CallEnd(es[..|es| - 1])
  }

  lemma {:induction false} EndFollowsCall(s: State, es: seq<Event>, before: seq<Event>)
    requires Inv(s) && Valid(s, es)
    requires s.calls != [] && s.pc.Finished? ==> CallEnd(before) == Some(s.pc.end)
    ensures var s' := Exec(s, es);
            s'.calls != [] && s'.pc.Finished? ==> CallEnd(before + es) == Some(s'.pc.end)
    decreases |es|
  {
    if es == [] {
      assert before + es == before;
    } else {
      StepKeepsInv(s, es[0]);
      var seen := before + [es[0]];
      assert seen[..|seen| - 1] == before;
      EndFollowsCall(Apply(s, es[0]), es[1..], seen);
      assert seen + es[1..] == before + es;
    }
  }

  /** A finished job made exactly the call it owed, or propagated the CancelledError that
      struck it or the exception that nothing caught, and left no task behind. */
  lemma FinishedJob(autoExtend: bool, es: seq<Event>)
    requires Valid(Init(autoExtend), es) && Exec(Init(autoExtend), es).pc.Finished?
    ensures var s := Exec(Init(autoExtend), es);
            && s.calls == OwedCalls(s)
            && |s.calls| <= 1
            && (s.calls == [] <==> s.leaseLost || s.cut || Uncaught(s))
            && (s.calls == [] && s.pc.end.Crashed? <==> Uncaught(s) && !s.cut)
            && (s.calls != [] ==> FitsOutcome(s.handler, s.calls) && CallEnd(es) == Some(s.pc.end))
            && (s.cut && !s.leaseLost ==> Struck(Init(autoExtend), es))
            && (Struck(Init(autoExtend), es) <==> s.calls == [] && s.pc.end.CancelledOut?)
            && !HeartbeatAlive(s) && !s.handler.Running?
  {
    RunKeepsInv(Init(autoExtend), es);
    CancellationPropagatesExactly(autoExtend, es);
    EndFollowsCall(Init(autoExtend), es, []);
    assert [] + es == es;
  }

  /** Where the documentation promises a nack and the code makes none: when the call of the
      handler raises an exception, the job is nacked exactly without auto-extend, and with
      it the job task crashes at once. */
  lemma RaisingCallIsNackedExactly(autoExtend: bool, result: HandlerResult)
    requires result.RaisedHandlerError? || result.RaisedException?
    ensures var es := [Start(CallRaises(result))];
            && Valid(Init(autoExtend), es)
            && Exec(Init(autoExtend), es).calls == (if autoExtend then [] else [Disposition(result)])
            && (Exec(Init(autoExtend), es).pc == Finished(Crashed) <==> autoExtend)
  {
    var e := Start(CallRaises(result));
    assert [e][1..] == [];
    assert Exec(Init(autoExtend), [e]) == Apply(Init(autoExtend), e);
  }

  /** How far the job is from its end. */
  function Rank(s: State): nat {
    match s.pc
    case Created => 6
    case AwaitHandler => if s.handler.Running? then 5 else 4
    case ReapHeartbeat(_) => if HeartbeatAlive(s) then 3 else 2
    case InCall => 1
    case Finished(_) => 0
  }

  /** The events that are neither the heartbeat going round nor a cancellation request. */
  predicate Advances(e: Event) {
    e.Start? || e.StartCancelled? || e.HandlerEnds? || e.HandlerResumes? || e.HeartbeatCancelled?
    || e.HeartbeatReaped? || e.CallReturns? || e.CallCrashes? || e.CallCancelled?
  }

  lemma RankFalls(s: State, e: Event)
    requires Inv(s) && Enabled(s, e)
    ensures Rank(Apply(s, e)) <= Rank(s)
    ensures Advances(e) ==> Rank(Apply(s, e)) < Rank(s)
  {
  }

  /** A move that brings an unfinished job nearer its end; the handler's return is one. */
  function NextMove(s: State): Event {
    match s.pc
    case Created => if s.mustCancel then StartCancelled else Start(Begun)
    case AwaitHandler => if s.handler.Running? then HandlerEnds(Returned) else HandlerResumes
    case ReapHeartbeat(_) => if HeartbeatAlive(s) then HeartbeatCancelled else HeartbeatReaped
    case _ => CallReturns
  }

  /** No deadlock: an unfinished job can always advance. */
  lemma NeverStuck(s: State)
    requires Inv(s) && !s.pc.Finished?
    ensures Enabled(s, NextMove(s)) && Advances(NextMove(s))
  {
  }
}
