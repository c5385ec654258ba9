/** Worker._run_job, _run_plain, _run_with_auto_extend and _dispose as the source writes
    them: straight-line code with awaits over fields that the handler task, the heartbeat
    and outside cancellations also update.  Like Worker.Run, the methods follow a script
    of events and are proved to be a run of JobRun. */
module JobTask {
  import opened JobRun

  /** The next event of a valid run is enabled, and taking it extends the run. */
  lemma {:induction false} NextEvent(s: State, es: seq<Event>, i: nat)
    requires Inv(s) && Valid(s, es) && i < |es|
    ensures Valid(s, es[..i]) && Valid(s, es[..i + 1])
    ensures var s' := Exec(s, es[..i]);
            Inv(s') && Enabled(s', es[i]) && Exec(s, es[..i + 1]) == Apply(s', es[i])
    ensures Inv(Exec(s, es[..i + 1]))
    decreases |es|
  {
    StepKeepsInv(s, es[0]);
    hide Inv, Enabled, Apply;
    if i == 0 {
      assert es[..1] == [es[0]];
      assert es[..1][1..] == [];
    } else {
      NextEvent(Apply(s, es[0]), es[1..], i - 1);
      assert es[..i][1..] == es[1..][..i - 1];
      assert es[..i + 1][1..] == es[1..][..i];
    }
  }

  class JobTask {
    const autoExtend: bool
    var handler: HandlerTask
    var heartbeat: HeartbeatTask
    var leaseLost: bool
    var mustCancel: bool
    var pc: Pc                 // what the job task is parked at
    ghost var callRaised: bool
    ghost var cut: bool
    ghost var calls: seq<Call>

    ghost function Abs(): State
      reads this
    {
      State(autoExtend, pc, handler, heartbeat, leaseLost, callRaised, mustCancel, cut, calls)
    }

    constructor (autoExtend: bool)
      ensures Abs() == Init(autoExtend)
    {
      this.autoExtend := autoExtend;
      handler, heartbeat, leaseLost, mustCancel := NotStarted, NoHeartbeat, false, false;
      pc, callRaised, cut, calls := Created, false, false, [];
    }

    /** The run `es` from `s0`, of which the first i events have happened. */
    ghost predicate At(s0: State, es: seq<Event>, i: nat)
      reads this
    {
      && Inv(s0) && Valid(s0, es) && Exec(s0, es).pc.Finished?
      && i <= |es| && Valid(s0, es[..i]) && Abs() == Exec(s0, es[..i])
      && Inv(Abs())
    }

    /** The script resumes the job task with its event number i. */
    ghost predicate Resumes(s0: State, es: seq<Event>, i: nat)
      reads this
    {
      && i < |es| && At(s0, es, i)
      && !IsBackground(es[i]) && Enabled(Abs(), es[i])
      && Valid(s0, es[..i + 1]) && Exec(s0, es[..i + 1]) == Apply(Abs(), es[i])
      && Inv(Apply(Abs(), es[i]))
    }

    /** An event of the handler task, the heartbeat or the outside, while the job task
        stays parked. */
    predicate IsBackground(e: Event) {
      || e.HeartbeatWakes? || e.ExtendSucceeds? || e.ExtendReassigned? || e.ExtendFails?
      || e.HeartbeatCrashes? || e.HeartbeatCancelled? || e.CancelFromOutside?
      || (autoExtend && e.HandlerEnds?)
    }

    /** The `except` branches of _heartbeat that lose the lease. */
    method LoseTheLease()
      modifies this`leaseLost, this`handler, this`heartbeat
      ensures Abs() == LoseLease(old(Abs()))
    {
      leaseLost := true;
      handler := CancelHandler(handler);
      heartbeat := HeartbeatEnded;
    }

    method Happen(e: Event)
      requires Enabled(Abs(), e) && IsBackground(e)
      modifies this`handler, this`heartbeat, this`leaseLost, this`mustCancel, this`pc
      ensures Abs() == Apply(old(Abs()), e)
      ensures pc == old(pc)
    {
      match e
      case HandlerEnds(result) => handler := Ended(result);
      case HeartbeatWakes => heartbeat := Extending(heartbeat.cancelRequested);
      case ExtendSucceeds => heartbeat := Sleeping(heartbeat.cancelRequested);
      case ExtendReassigned => LoseTheLease();
      case ExtendFails(expired) =>
        if expired { LoseTheLease(); } else { heartbeat := Sleeping(heartbeat.cancelRequested); }
      case HeartbeatCrashes => heartbeat := HeartbeatEnded;
      case HeartbeatCancelled => heartbeat := HeartbeatEnded;
      case CancelFromOutside =>
        if pc.AwaitHandler? && handler.Running? {
          handler := Running(true);
        } else if !pc.Finished? {
          mustCancel := true;
        }
    }

    /** Parked: the others move until the script resumes the job task. */
    method Park(ghost s0: State, es: seq<Event>, i: nat) returns (j: nat)
      requires At(s0, es, i) && !pc.Finished?
      modifies this`handler, this`heartbeat, this`leaseLost, this`mustCancel, this`pc
      ensures i <= j && Resumes(s0, es, j) && pc == old(pc)
    {
      hide Inv, Enabled, Apply, Valid, Exec;
      j := i;
      while j < |es| && IsBackground(es[j])
        invariant i <= j <= |es| && At(s0, es, j) && pc == old(pc)
      {
        NextEvent(s0, es, j);
        Happen(es[j]);
        j := j + 1;
      }
      assert es[..|es|] == es;
      NextEvent(s0, es, j);
    }

    /** `await self._client.ack(ctx)` or `nack(...)`, with the errors caught around it. */
    method AwaitCall(ghost s0: State, es: seq<Event>, i: nat) returns (j: nat)
      requires At(s0, es, i) && pc.InCall?
      modifies this
      ensures At(s0, es, j) && pc.Finished?
    {
      hide Inv, Valid, Exec;
      j := Park(s0, es, i);
      if es[j].CallReturns? {
        pc := Finished(Completed);
      } else if es[j].CallCrashes? {
        pc := Finished(Crashed);
      } else {
        pc := Finished(CancelledOut);
      }
      j := j + 1;
    }

    /** _run_plain, and _dispose after it: the handler is called, and runs, inside the `try`
        of the job task itself. */
    method RunPlain(ghost s0: State, es: seq<Event>, i: nat) returns (j: nat)
      requires Resumes(s0, es, i) && es[i].Start? && !es[i].beginning.NoHandler? && !autoExtend
      modifies this
      ensures At(s0, es, j) && pc.Finished?
    {
      assert heartbeat.NoHeartbeat?;
      hide Inv, Valid, Exec;
      j := i;
      var result;
      if es[i].beginning.CallRaises? {
        result := es[i].beginning.result;
        callRaised := true;
      } else {
        handler, pc := Running(false), AwaitHandler;
        j := Park(s0, es, i + 1);
        result := es[j].result;
      }
      handler := Ended(result);
      if result.RaisedCancelled? {
        pc, cut := Finished(CancelledOut), true;
        return j + 1;
      }
      if result.RaisedBase? {
        pc := Finished(Crashed);
        return j + 1;
      }
      calls := calls + [Disposition(result)];
      pc := InCall;
      j := AwaitCall(s0, es, j + 1);
    }

    /** _run_with_auto_extend, and _dispose after it: the handler is called before the `try`. */
    method RunWithAutoExtend(ghost s0: State, es: seq<Event>, i: nat) returns (j: nat)
      requires Resumes(s0, es, i) && es[i].Start? && !es[i].beginning.NoHandler? && autoExtend
      modifies this
      ensures At(s0, es, j) && pc.Finished?
    {
      hide Inv, Valid, Exec;
      if es[i].beginning.CallRaises? {
        // Nothing here catches it.
        var result := es[i].beginning.result;
        handler, callRaised := Ended(result), true;
        if result.RaisedCancelled? {
          pc, cut := Finished(CancelledOut), true;
        } else {
          pc := Finished(Crashed);
        }
        return i + 1;
      }
      handler, heartbeat, pc := Running(false), Sleeping(false), AwaitHandler;
      j := AwaitHandlerTask(s0, es, i + 1);
    }

    /** From the `try` on. */
    method AwaitHandlerTask(ghost s0: State, es: seq<Event>, i: nat) returns (j: nat)
      requires At(s0, es, i) && pc.AwaitHandler? && autoExtend
      modifies this
      ensures At(s0, es, j) && pc.Finished?
    {
      hide Inv, Valid, Exec;
      // try: await handler_task
      j := Park(s0, es, i);
      var outcome: Pending;
      var cancelled := mustCancel || handler.result.RaisedCancelled?;
      if cancelled {
        outcome := if leaseLost then LeaseLost else Propagate;
      } else if handler.result.RaisedBase? {
        outcome := Escape;
      } else {
        outcome := Dispose(Disposition(handler.result));
      }
      mustCancel, cut := false, cancelled;
      // finally: cancel the heartbeat and wait for it
      heartbeat := CancelHeartbeat(heartbeat);
      pc := ReapHeartbeat(outcome);
      j := LeaveHandlerTask(s0, es, j + 1, outcome);
    }

    /** From the gather of the `finally` on. */
    method LeaveHandlerTask(ghost s0: State, es: seq<Event>, i: nat, pending: Pending) returns (j: nat)
      requires At(s0, es, i) && pc == ReapHeartbeat(pending) && autoExtend
      modifies this
      ensures At(s0, es, j) && pc.Finished?
    {
      hide Inv, Valid, Exec;
      j := Park(s0, es, i);
      if mustCancel {
        pc, cut := Finished(CancelledOut), true;
        return j + 1;
      }
      if pending.Propagate? {
        pc := Finished(CancelledOut);
        return j + 1;
      }
      if pending.Escape? {
        pc := Finished(Crashed);
        return j + 1;
      }
      // The heartbeat's verdict wins.
      var outcome := if leaseLost then LeaseLost else pending;
      if outcome.LeaseLost? {
        pc := Finished(Completed);
        return j + 1;
      }
      calls := calls + [outcome.call];
      pc := InCall;
      j := AwaitCall(s0, es, j + 1);
    }

    /** _run_job.  It does what the first n events of the script say, ends, and has then
        called the server exactly as the handler's outcome and the lease ask. */
    method RunJob(es: seq<Event>) returns (n: nat)
      requires Abs() == Init(autoExtend) && Valid(Abs(), es) && Exec(Abs(), es).pc.Finished?
      modifies this
      ensures n <= |es| && Valid(Init(autoExtend), es[..n]) && Abs() == Exec(Init(autoExtend), es[..n])
      ensures pc.Finished? && calls == OwedCalls(Abs()) && |calls| <= 1
      ensures calls == [] <==> leaseLost || cut || Uncaught(Abs())
      ensures calls != [] ==> FitsOutcome(handler, calls)
      ensures !HeartbeatAlive(Abs()) && !handler.Running?
    {
      ghost var s0 := Abs();
      assert es[..0] == [];
      n := Park(s0, es, 0);
      if es[n].StartCancelled? {
        pc, cut := Finished(CancelledOut), true;
        n := n + 1;
      } else if es[n].beginning.NoHandler? {
        calls := calls + [Nack(Default, NO_HANDLER_REASON)];
        pc := InCall;
        n := AwaitCall(s0, es, n + 1);
      } else if autoExtend {
        n := RunWithAutoExtend(s0, es, n);
      } else {
        n := RunPlain(s0, es, n);
      }
      if calls != [] {
        CallsFitOutcome(Abs());
      }
    }
  }
}
