/** Worker.run as the source writes it: a loop with awaits, a batch loop, a drain and a
    cancellation branch over fields that the completion callbacks also update.  The
    method executes a script of events: at every await it first lets the environment's
    events happen (jobs advance, callbacks run, the signal fires, time passes) and then
    resumes as the script says.  It is proved to be a run of WorkerLoop, so all that
    WorkerRuns proves holds of it. */
module Worker {
  import JobRun
  import opened JobPool
  import opened Options
  import opened Clock
  import Race
  import opened WorkerLoop
  import WorkerRuns

  /** An event of the environment, not a segment of run itself. */
  predicate IsBackground(e: Event) {
    e.Signal? || e.Tick? || e.JobStep? || e.DoneCallback? || e.PermitTaken?
  }

  lemma {:induction false} RunSplits(s: State, es: seq<Event>, i: nat)
    requires Valid(s, es) && i <= |es|
    ensures Valid(s, es[..i]) && Valid(Exec(s, es[..i]), es[i..])
    decreases |es|
  {
    if i == 0 {
      assert es[0..] == es;
    } else {
      var before, rest := es[..i], es[1..];
      RunSplits(Apply(s, es[0]), rest, i - 1);
      assert before[0] == es[0] && before[1..] == rest[..i - 1];
      assert rest[i - 1..] == es[i..];
    }
  }

  /** The next event of a valid run is enabled, and taking it extends the run. */
  lemma NextEvent(s: State, es: seq<Event>, i: nat)
    requires Inv(s) && Valid(s, es) && i < |es|
    ensures Valid(s, es[..i]) && Valid(s, es[..i + 1])
    ensures var s' := Exec(s, es[..i]);
            Inv(s') && Enabled(s', es[i]) && Exec(s, es[..i + 1]) == Apply(s', es[i])
  {
    hide Inv, Enabled, Apply;
    RunSplits(s, es, i);
    RunKeepsInv(s, es[..i]);
    var s' := Exec(s, es[..i]);
    assert es[i..][0] == es[i];
    assert [es[i]][1..] == [];
    assert Valid(s', [es[i]]) && Exec(s', [es[i]]) == Apply(s', es[i]);
    WorkerRuns.RunsCompose(s, es[..i], [es[i]]);
    assert es[..i] + [es[i]] == es[..i + 1];
  }

  /** How control leaves a piece of the loop: `continue`, `break`, or an exception. */
  datatype Next = Again | Leave | Cancelled | Crash

  class Worker {
    const cfg: Config
    var permits: int                 // the run's semaphore
    var inFlight: int
    var tasks: map<nat, JobRun.State>
    var shutdown: bool
    var now: int
    ghost var phase: Phase
    ghost var settled: map<nat, JobRun.State>
    ghost var spawned: seq<Job>
    ghost var delivered: seq<Job>
    ghost var abandoned: seq<Job>
    var nextTask: nat                // key for the next spawned task

    ghost function Abs(): State
      reads this
    {
      State(cfg, phase, Pool(permits, inFlight, tasks, settled, spawned), shutdown, now,
            delivered, abandoned)
    }

    ghost predicate Ready()
      reads this
    {
      Inv(Abs()) && nextTask == |spawned|
    }

    constructor (maxInFlight: int, maxJobs: Option<nat>, waitTimeout: int,
                 reserveErrorBackoff: int, autoExtend: bool, now: int)
      requires waitTimeout > 0 && (maxJobs.Some? ==> maxJobs.value >= 1)
      ensures cfg.maxInFlight == if maxInFlight < 1 then 1 else maxInFlight
      ensures cfg.maxJobs == maxJobs && cfg.waitTimeout == waitTimeout
      ensures cfg.reserveErrorBackoff == reserveErrorBackoff && cfg.autoExtend == autoExtend
      ensures Abs() == Init(cfg, false, now) && Ready()
    {
      this.cfg := Config(Max(1, maxInFlight), maxJobs, waitTimeout, reserveErrorBackoff, autoExtend);
      this.permits := Max(1, maxInFlight);
      this.inFlight := 0;
      this.tasks := map[];
      this.shutdown := false;
      this.now := now;
      this.phase := Top;
      this.settled := map[];
      this.spawned := [];
      this.delivered := [];
      this.abandoned := [];
      this.nextTask := 0;
    }

    /** _reserve_opts_with_capacity.  Where run calls it, holding a permit, it asks for at
        least one job and for no more than there is room for, and for all of that unless
        the caller's max_jobs is less. */
    method ReserveOptsWithCapacity() returns (maxJobs: nat)
      ensures maxJobs == RequestedJobs(cfg, inFlight)
      ensures Ready() && phase == AwaitPermit(true) ==>
                && 1 <= maxJobs <= permits + 1
                && (cfg.maxJobs.Some? ==> maxJobs <= cfg.maxJobs.value)
                && (maxJobs == permits + 1 || Some(maxJobs) == cfg.maxJobs)
    {
      var capacity := Max(1, cfg.maxInFlight - inFlight);
      maxJobs := capacity;
      if cfg.maxJobs.Some? {
        maxJobs := Min(cfg.maxJobs.value, capacity);
      }
    }

    /** _spawn */
    method SpawnTask(job: Job)
      requires nextTask == |spawned|
      modifies this`inFlight, this`tasks, this`spawned, this`nextTask
      ensures Abs() == old(Abs()).(pool := Spawn(old(Abs()).pool, job, cfg.autoExtend))
      ensures nextTask == |spawned|
      ensures inFlight == old(inFlight) + 1 && spawned == old(spawned) + [job]
      ensures tasks.Keys == old(tasks).Keys + {|old(spawned)|}
      ensures tasks[|old(spawned)|].autoExtend == cfg.autoExtend && tasks[|old(spawned)|].pc.Created?
      ensures forall t :: t in old(tasks) && t != |old(spawned)| ==> tasks[t] == old(tasks)[t]
    {
      inFlight := inFlight + 1;
      tasks := tasks[nextTask := JobRun.Init(cfg.autoExtend)];
      spawned := spawned + [job];
      nextTask := nextTask + 1;
    }

    /** The _done callback. */
    method TaskDone(t: nat)
      requires t in tasks
      modifies this`inFlight, this`tasks, this`settled, this`permits
      ensures Abs() == old(Abs()).(pool := Done(old(Abs()).pool, t))
    {
      settled := settled[t := tasks[t]];
      tasks := tasks - {t};
      permits := permits + 1;
      inFlight := inFlight - 1;
    }

    /** `for t in list(tasks): t.cancel()` */
    method CancelTasks()
      modifies this`tasks
      ensures Abs() == old(Abs()).(pool := CancelAll(old(Abs()).pool))
    {
      var rest := tasks.Keys;
      while rest != {}
        invariant tasks.Keys == old(tasks).Keys && rest <= tasks.Keys
        invariant forall t :: t in rest ==> tasks[t] == old(tasks)[t]
        invariant forall t :: t in tasks && t !in rest ==> tasks[t] == JobRun.RequestCancel(old(tasks)[t])
        decreases rest
      {
        var t :| t in rest;
        tasks := tasks[t := JobRun.RequestCancel(tasks[t])];
        rest := rest - {t};
      }
      assert tasks == CancelAll(old(Abs()).pool).tasks;
    }

    /** One event of the environment. */
    method Happen(e: Event)
      requires Ready() && Enabled(Abs(), e) && IsBackground(e)
      modifies this`permits, this`inFlight, this`tasks, this`shutdown, this`now, this`phase, this`settled
      ensures Abs() == Apply(old(Abs()), e) && Ready()
    {
      hide Inv;
      WorkerRuns.StepKeepsInv(Abs(), e);
      match e
      case Signal => shutdown := true;
      case Tick(elapsed) => now := now + elapsed;
      case JobStep(t, step) => tasks := tasks[t := JobRun.Apply(tasks[t], step)];
      case DoneCallback(t) => TaskDone(t);
      case PermitTaken => permits := permits - 1; phase := AwaitPermit(true);
    }

    /** The run `es` from `s0`, of which the first i events have happened. */
    ghost predicate At(s0: State, es: seq<Event>, i: nat)
      reads this
    {
      && Inv(s0) && Valid(s0, es) && Exited(Exec(s0, es))
      && i <= |es| && Valid(s0, es[..i]) && Abs() == Exec(s0, es[..i])
      && Ready()
    }

    /** The script resumes run with its event number i. */
    ghost predicate Resumes(s0: State, es: seq<Event>, i: nat)
      reads this
    {
      && i < |es| && At(s0, es, i)
      && !IsBackground(es[i]) && Enabled(Abs(), es[i])
      && Valid(s0, es[..i + 1]) && Exec(s0, es[..i + 1]) == Apply(Abs(), es[i])
      && Inv(Apply(Abs(), es[i]))
    }

    /** A piece of the loop that began at event i has run up to event j. */
    ghost predicate After(s0: State, es: seq<Event>, i: nat, j: nat, next: Next)
      reads this
    {
      && i <= j && At(s0, es, j)
      && match next
         case Again => phase.Top?
         case Leave => phase.Draining?
         case Cancelled => phase.Reaping?
         case Crash => phase.Crashed?
    }

    /** Parked at an await: the environment moves until the script resumes run. */
    method Park(ghost s0: State, es: seq<Event>, i: nat) returns (j: nat)
      requires At(s0, es, i) && !Exited(Abs())
      modifies this`permits, this`inFlight, this`tasks, this`shutdown, this`now, this`phase, this`settled
      ensures i <= j && Resumes(s0, es, j)
      ensures phase == old(phase) || (old(phase).AwaitPermit? && phase.AwaitPermit?)
    {
      hide Inv, Valid, Exec;
      j := i;
      while j < |es| && IsBackground(es[j])
        invariant i <= j <= |es| && At(s0, es, j)
        invariant phase == old(phase) || (old(phase).AwaitPermit? && phase.AwaitPermit?)
      {
        NextEvent(s0, es, j);
        Happen(es[j]);
        j := j + 1;
      }
      assert es[..|es|] == es;
      NextEvent(s0, es, j);
      WorkerRuns.StepKeepsInv(Abs(), es[j]);
    }

    /** `_or_shutdown(asyncio.sleep(...))` and the `break` or `continue` after it. */
    method Sleep(ghost s0: State, es: seq<Event>, i: nat) returns (j: nat, next: Next)
      requires At(s0, es, i) && (phase.AwaitErrorBackoff? || phase.AwaitEmptyBackoff?)
      modifies this
      ensures After(s0, es, i, j, next)
    {
      hide Inv, Valid, Exec;
      j := Park(s0, es, i);
      if es[j].sleepExit.ShutdownWon? {
        phase, next := Draining, Leave;
      } else if es[j].sleepExit.CancelPropagated? {
        CancelTasks();
        phase, next := Reaping, Cancelled;
      } else {
        phase, next := Top, Again;
      }
      j := j + 1;
    }

    /** `await sem.acquire()` for the next job of the batch, which then starts. */
    method StartNext(ghost s0: State, es: seq<Event>, i: nat, job: Job, ghost rest: seq<Job>)
      returns (j: nat, next: Next)
      requires At(s0, es, i) && phase == AwaitBatchPermit([job] + rest)
      modifies this
      ensures i <= j && At(s0, es, j)
      ensures if next.Cancelled? then phase.Reaping?
              else next.Again? && phase == if rest == [] then Top else AwaitBatchPermit(rest)
    {
      hide Inv, Valid, Exec;
      j := Park(s0, es, i);
      assert ([job] + rest)[1..] == rest;
      if es[j].CancelRun? {
        CancelTasks();
        abandoned := [job] + rest;
        phase, next := Reaping, Cancelled;
      } else {
        permits := permits - 1;
        SpawnTask(job);
        phase, next := if rest == [] then Top else AwaitBatchPermit(rest), Again;
      }
      j := j + 1;
    }

    /** The rest of a batch, one permit per job. */
    method RunBatch(ghost s0: State, es: seq<Event>, i: nat, jobs: seq<Job>) returns (j: nat, next: Next)
      requires At(s0, es, i)
      requires phase == if jobs == [] then Top else AwaitBatchPermit(jobs)
      modifies this
      ensures After(s0, es, i, j, next) && !next.Leave?
    {
      hide Inv, Valid, Exec;
      j, next := i, Again;
      for k := 0 to |jobs|
        invariant i <= j && At(s0, es, j) && next.Again?
        invariant phase == if jobs[k..] == [] then Top else AwaitBatchPermit(jobs[k..])
      {
        assert jobs[k..] == [jobs[k]] + jobs[k + 1..];
        j, next := StartNext(s0, es, j, jobs[k], jobs[k + 1..]);
        if next.Cancelled? {
          return;
        }
      }
    }

    /** `except errors.SeppError`, and what no branch catches. */
    method AfterError(ghost s0: State, es: seq<Event>, i: nat, isSeppError: bool) returns (j: nat, next: Next)
      requires phase.AwaitReserve? && Resumes(s0, es, i)
      requires es[i] == ReserveResumes(Race.Raised(isSeppError))
      modifies this
      ensures After(s0, es, i, j, next)
    {
      hide Inv, Valid, Exec;
      if !isSeppError {
        phase := Crashed;
        return i + 1, Crash;
      }
      permits := permits + 1;
      phase := AwaitErrorBackoff(now + cfg.reserveErrorBackoff);
      j, next := Sleep(s0, es, i + 1);
    }

    /** `if jobs is None` */
    method AfterEmpty(ghost s0: State, es: seq<Event>, i: nat, startedAt: int) returns (j: nat, next: Next)
      requires phase.AwaitReserve? && phase.startedAt == startedAt && Resumes(s0, es, i)
      requires es[i] == ReserveResumes(Race.Result(None))
      modifies this
      ensures After(s0, es, i, j, next)
    {
      hide Inv, Valid, Exec, EarlyEmptyLimit;
      permits := permits + 1;
      if now - startedAt < EarlyEmptyLimit(cfg) {
        phase := AwaitEmptyBackoff(now + EARLY_EMPTY_BACKOFF);
        j, next := Sleep(s0, es, i + 1);
      } else {
        phase := Top;
        return i + 1, Again;
      }
    }

    /** The batch: the first job inherits the permit already held. */
    method StartBatch(ghost s0: State, es: seq<Event>, i: nat, jobs: seq<Job>) returns (j: nat, next: Next)
      requires phase.AwaitReserve? && Resumes(s0, es, i)
      requires es[i] == ReserveResumes(Race.Result(Some(jobs)))
      modifies this
      ensures After(s0, es, i, j, next)
    {
      hide Inv, Valid, Exec;
      delivered := delivered + jobs;
      SpawnTask(jobs[0]);
      phase := if jobs[1..] == [] then Top else AwaitBatchPermit(jobs[1..]);
      j, next := RunBatch(s0, es, i + 1, jobs[1..]);
    }

    /** The reserve's outcome, from the `try` around it to the end of the loop's body. */
    method HandleReserve(ghost s0: State, es: seq<Event>, i: nat, startedAt: int)
      returns (j: nat, next: Next)
      requires At(s0, es, i) && phase.AwaitReserve? && phase.startedAt == startedAt
      modifies this
      ensures After(s0, es, i, j, next)
    {
      hide Inv, Valid, Exec;
      j := Park(s0, es, i);
      match es[j].reserveExit
      case Raised(isSeppError) =>
        j, next := AfterError(s0, es, j, isSeppError);
      case CancelPropagated =>
        CancelTasks();
        phase := Reaping;
        return j + 1, Cancelled;
      case ShutdownWon =>
        permits := permits + 1;
        phase := Draining;
        return j + 1, Leave;
      case Result(None) =>
        j, next := AfterEmpty(s0, es, j, startedAt);
      case Result(Some(jobs)) =>
        j, next := StartBatch(s0, es, j, jobs);
    }

    /** The loop's body, once `_or_shutdown(sem.acquire())` has been called. */
    method AcquireAndReserve(ghost s0: State, es: seq<Event>, i: nat) returns (j: nat, next: Next)
      requires At(s0, es, i) && phase.AwaitPermit?
      modifies this
      ensures After(s0, es, i, j, next)
    {
      hide Inv, Valid, Exec;
      j := Park(s0, es, i);
      if es[j].permitExit.ShutdownWon? {
        phase := Draining;
        return j + 1, Leave;
      }
      if es[j].permitExit.CancelPropagated? {
        CancelTasks();
        phase := Reaping;
        return j + 1, Cancelled;
      }
      var requested := ReserveOptsWithCapacity();
      phase := AwaitReserve(requested, now);
      j, next := HandleReserve(s0, es, j + 1, now);
    }

    /** One turn of the loop, its test included. */
    method Turn(ghost s0: State, es: seq<Event>, i: nat) returns (j: nat, next: Next)
      requires At(s0, es, i) && phase.Top?
      modifies this
      ensures After(s0, es, i, j, next) && i < j
    {
      hide Inv, Valid, Exec;
      j := Park(s0, es, i);
      if shutdown {
        phase := Draining;
        return j + 1, Leave;
      }
      phase := AwaitPermit(false);
      j, next := AcquireAndReserve(s0, es, j + 1);
    }

    /** The gather of the `except CancelledError` branch, and its `raise`. */
    method FinishReaping(ghost s0: State, es: seq<Event>, i: nat) returns (j: nat)
      requires At(s0, es, i) && phase.Reaping?
      modifies this
      ensures i < j && At(s0, es, j) && phase.CancelledOut?
    {
      hide Inv, Valid, Exec;
      j := Park(s0, es, i);
      phase := CancelledOut;
      j := j + 1;
    }

    /** Worker.run.  It does what the first n events of the script say and nothing else,
        and it ends in one of three ways; returning means everything was drained. */
    method Run(es: seq<Event>) returns (ghost n: nat, end: Next)
      requires Ready() && phase.Top? && Valid(Abs(), es) && Exited(Exec(Abs(), es))
      modifies this
      ensures n <= |es| && Valid(old(Abs()), es[..n]) && Abs() == Exec(old(Abs()), es[..n])
      ensures match end
              case Leave => phase.Returned?
              case Cancelled => phase.CancelledOut?
              case Crash => phase.Crashed?
              case Again => false
      ensures phase.Returned? ==>
                && tasks == map[] && inFlight == 0 && permits == cfg.maxInFlight
                && spawned == delivered
                && (forall k: nat :: k < |delivered| ==> WorkerRuns.DisposedOf(Abs(), k))
      ensures phase.CancelledOut? ==> tasks == map[] && inFlight == 0
    {
      ghost var s0 := Abs();
      assert es[..0] == [];
      var i, next := 0, Again;
      while next.Again?
        invariant After(s0, es, 0, i, next)
        decreases |es| - i, next.Again?
      {
        i, next := Turn(s0, es, i);
      }
      end := next;
      if next.Cancelled? {
        i := FinishReaping(s0, es, i);
      } else if next.Leave? {
        i, end := Drain(s0, es, i);
      }
      n := i;
      Summary();
    }

    /** `await asyncio.gather(*tasks)`; a cancellation there is passed on to the tasks and
        surfaces once they have ended. */
    method Drain(ghost s0: State, es: seq<Event>, i: nat) returns (j: nat, end: Next)
      requires At(s0, es, i) && phase.Draining?
      modifies this
      ensures i < j && At(s0, es, j)
      ensures if end.Leave? then phase.Returned? else end.Cancelled? && phase.CancelledOut?
    {
      hide Inv, Valid, Exec;
      j := Park(s0, es, i);
      if es[j].CancelRun? {
        CancelTasks();
        phase := Reaping;
        j := FinishReaping(s0, es, j + 1);
        end := Cancelled;
      } else {
        phase, end := Returned, Leave;
        j := j + 1;
      }
    }

    lemma Summary()
      requires Ready()
      ensures phase.Returned? ==>
                && tasks == map[] && inFlight == 0 && permits == cfg.maxInFlight
                && spawned == delivered
                && (forall k: nat :: k < |delivered| ==> WorkerRuns.DisposedOf(Abs(), k))
      ensures phase.CancelledOut? ==> tasks == map[] && inFlight == 0
    {
    }
  }
}
