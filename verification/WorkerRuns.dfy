/** What Worker.run guarantees over whole runs: conservation of permits and of jobs, the
    drain, free-capacity requests that never block, bounded shutdown and the poll rate. */
module WorkerRuns {
  import JobRun
  import opened JobPool
  import opened Options
  import opened Clock
  import Race
  import opened WorkerLoop

  // ------------------------------------------------------- permits, jobs and the drain

  lemma InitIsSound(cfg: Config, shutdown: bool, now: int)
    requires GoodConfig(cfg)
    ensures Inv(Init(cfg, shutdown, now))
  {
  }

  /** At every step free permits, the loop's permit and the running jobs add up to
      max_in_flight (less what a cancelled run gave up), the task set has exactly
      in-flight members, and so concurrency never exceeds the bound. */
  lemma PermitConservation(cfg: Config, shutdown: bool, now: int, es: seq<Event>)
    requires GoodConfig(cfg) && Valid(Init(cfg, shutdown, now), es)
    ensures var s := Exec(Init(cfg, shutdown, now), es);
            && s.pool.permits >= 0
            && (!CutShort(s) ==> s.pool.permits + Held(s) + s.pool.inFlight == cfg.maxInFlight)
            && s.pool.inFlight == |s.pool.tasks|
            && |s.pool.tasks| <= cfg.maxInFlight
  {
    InitIsSound(cfg, shutdown, now);
    RunKeepsInv(Init(cfg, shutdown, now), es);
  }

  /** The jobs that a completed reserve returns to the loop. */
  function Brought(e: Event): seq<Job> {
    match e
    case ReserveResumes(Result(Some(jobs))) => jobs
    case _ => []
  }

  /** All of a run, in order. */
  function Reserved(es: seq<Event>): seq<Job> {
    if es == [] then [] else Brought(es[0]) + Reserved(es[1..])
  }

  lemma StepDelivers(s: State, e: Event)
    requires Enabled(s, e)
    ensures Apply(s, e).delivered == s.delivered + Brought(e)
  {
    assert s.delivered + [] == s.delivered;
  }

  lemma {:induction false} DeliveredIsReserved(s: State, es: seq<Event>)
    requires Valid(s, es)
    ensures Exec(s, es).delivered == s.delivered + Reserved(es)
    decreases |es|
  {
    if es == [] {
      assert s.delivered + [] == s.delivered;
    } else {
      StepDelivers(s, es[0]);
      hide Enabled, Apply, Brought;
      DeliveredIsReserved(Apply(s, es[0]), es[1..]);
      assert (s.delivered + Brought(es[0])) + Reserved(es[1..]) == s.delivered + (Brought(es[0]) + Reserved(es[1..]));
    }
  }

  lemma ReserveKeepsMode(s: State, exit: Race.Exit<Option<seq<Job>>>)
    requires InMode(s.pool, s.cfg.autoExtend) && Enabled(s, ReserveResumes(exit))
    ensures InMode(AfterReserve(s, exit).pool, s.cfg.autoExtend)
  {
    if exit.CancelPropagated? {
      CancelAllKeepsMode(s.pool, s.cfg.autoExtend);
    } else if exit.Result? && exit.value.Some? {
      SpawnKeepsMode(s.pool, exit.value.value[0], s.cfg.autoExtend);
    }
  }

  lemma SegmentKeepsMode(s: State, e: Event)
    requires InMode(s.pool, s.cfg.autoExtend) && Enabled(s, e)
    ensures InMode(Apply(s, e).pool, s.cfg.autoExtend)
  {
    match e
    case JobStep(t, step) => StepKeepsMode(s.pool, t, step, s.cfg.autoExtend);
    case DoneCallback(t) => DoneKeepsMode(s.pool, t, s.cfg.autoExtend);
    case BatchPermit => SpawnKeepsMode(Acquire(s.pool), s.phase.pending[0], s.cfg.autoExtend);
    case ReserveResumes(exit) => ReserveKeepsMode(s, exit);
    case PermitResumes(_) => CancelAllKeepsMode(s.pool, s.cfg.autoExtend);
    case SleepResumes(_) => CancelAllKeepsMode(s.pool, s.cfg.autoExtend);
    case CancelRun => CancelAllKeepsMode(s.pool, s.cfg.autoExtend);
    case _ =>
  }

  lemma {:induction false} RunKeepsMode(s: State, es: seq<Event>)
    requires InMode(s.pool, s.cfg.autoExtend) && Valid(s, es)
    ensures InMode(Exec(s, es).pool, s.cfg.autoExtend)
    decreases |es|
  {
    if es != [] {
      SegmentKeepsMode(s, es[0]);
      assert Apply(s, es[0]).cfg == s.cfg;
      hide InMode, Enabled, Apply;
      RunKeepsMode(Apply(s, es[0]), es[1..]);
    }
  }

  /** At every step the jobs that the reserves returned are, in order, those spawned and then
      those still pending in the batch; a cancellation is all that makes the loop give one
      up; and every spawned job runs in the worker's mode. */
  lemma JobsAreConserved(cfg: Config, shutdown: bool, now: int, es: seq<Event>)
    requires GoodConfig(cfg) && Valid(Init(cfg, shutdown, now), es)
    ensures var s := Exec(Init(cfg, shutdown, now), es);
            && s.delivered == Reserved(es)
            && InMode(s.pool, cfg.autoExtend)
            && s.pool.spawned <= s.delivered
            && s.delivered == s.pool.spawned + Pending(s) + s.abandoned
            && (!CutShort(s) ==> s.abandoned == [])
            && (forall k: nat :: k < |s.pool.spawned| <==> k in s.pool.tasks || k in s.pool.settled)
  {
    InitIsSound(cfg, shutdown, now);
    RunKeepsInv(Init(cfg, shutdown, now), es);
    DeliveredIsReserved(Init(cfg, shutdown, now), es);
    assert [] + Reserved(es) == Reserved(es);
    RunKeepsMode(Init(cfg, shutdown, now), es);
  }

  /** The task of the k-th job has ended having made exactly the call it owed. */
  ghost predicate DisposedOf(s: State, k: nat) {
    && k in s.pool.settled
    && var job := s.pool.settled[k];
       && job.pc.Finished?
       && job.calls == JobRun.OwedCalls(job)
       && |job.calls| <= 1
       && (job.calls != [] ==> JobRun.FitsOutcome(job.handler, job.calls))
       && (job.calls == [] <==> job.leaseLost || job.cut || JobRun.Uncaught(job))
       && !JobRun.HeartbeatAlive(job) && !job.handler.Running?
  }

  /** When run returns, every job any reserve delivered was spawned, once and in order,
      no task is alive, every job was disposed of, and every permit is back. */
  lemma ReturnMeansDrained(cfg: Config, shutdown: bool, now: int, es: seq<Event>)
    requires GoodConfig(cfg) && Valid(Init(cfg, shutdown, now), es)
    requires Exec(Init(cfg, shutdown, now), es).phase.Returned?
    ensures var s := Exec(Init(cfg, shutdown, now), es);
            && s.pool.spawned == s.delivered == Reserved(es)
            && s.pool.tasks == map[] && s.pool.inFlight == 0
            && s.pool.permits == cfg.maxInFlight
            && (forall k: nat :: k < |s.delivered| ==> DisposedOf(s, k))
  {
    InitIsSound(cfg, shutdown, now);
    RunKeepsInv(Init(cfg, shutdown, now), es);
    JobsAreConserved(cfg, shutdown, now, es);
    DisposedIffNoTask(Exec(Init(cfg, shutdown, now), es));
  }

  /** A cancelled run leaves no task behind either; the jobs it gives up are a tail of
      the batch it was spawning. */
  lemma CancellationLeaksNoTask(cfg: Config, shutdown: bool, now: int, es: seq<Event>)
    requires GoodConfig(cfg) && Valid(Init(cfg, shutdown, now), es)
    requires Exec(Init(cfg, shutdown, now), es).phase.CancelledOut?
    ensures var s := Exec(Init(cfg, shutdown, now), es);
            && s.pool.tasks == map[] && s.pool.inFlight == 0
            && s.delivered == s.pool.spawned + s.abandoned
            && (forall k: nat :: k < |s.pool.spawned| ==> DisposedOf(s, k))
  {
    InitIsSound(cfg, shutdown, now);
    RunKeepsInv(Init(cfg, shutdown, now), es);
    DisposedIffNoTask(Exec(Init(cfg, shutdown, now), es));
  }

  /** The events of one trip from the loop's head to a started reserve. */
  const POLL: seq<Event> := [TestShutdown, PermitTaken, PermitResumes(Race.Result(()))]

  lemma PollStartsReserve(s: State)
    requires s.phase.Top? && !s.shutdown && s.pool.permits > 0
    ensures Valid(s, POLL)
    ensures Exec(s, POLL) == s.(pool := Acquire(s.pool),
                                phase := AwaitReserve(RequestedJobs(s.cfg, s.pool.inFlight), s.now))
  {
  }

  lemma {:induction false} RunsCompose(s: State, before: seq<Event>, after: seq<Event>)
    requires Valid(s, before) && Valid(Exec(s, before), after)
    ensures Valid(s, before + after)
    ensures Exec(s, before + after) == Exec(Exec(s, before), after)
    decreases |before|
  {
    if before == [] {
      assert before + after == after;
    } else {
      assert (before + after)[1..] == before[1..] + after;
      RunsCompose(Apply(s, before[0]), before[1..], after);
    }
  }

  /** A whole trip: a poll, and then the reserve resumes with `exit`. */
  lemma PollEnds(s: State, exit: Race.Exit<Option<seq<Job>>>)
    requires s.phase.Top? && !s.shutdown && s.pool.permits > 0
    requires exit.Raised? || (exit.Result? && exit.value.Some? && exit.value.value != [])
    ensures Valid(s, POLL + [ReserveResumes(exit)])
    ensures Exec(s, POLL + [ReserveResumes(exit)])
         == AfterReserve(s.(pool := Acquire(s.pool),
                            phase := AwaitReserve(RequestedJobs(s.cfg, s.pool.inFlight), s.now)), exit)
  {
    PollStartsReserve(s);
    var e := ReserveResumes(exit);
    var s' := Exec(s, POLL);
    assert Valid(s', [e]) && Exec(s', [e]) == Apply(s', e);
    RunsCompose(s, POLL, [e]);
  }

  /** The third way out does leak.  An exception from reserve that is no SeppError leaves
      run at once: the second poll of this run crashes while the first one's job runs. */
  lemma ForeignExceptionLeaksTasks() returns (cfg: Config, es: seq<Event>)
    ensures GoodConfig(cfg) && Valid(Init(cfg, false, 0), es)
    ensures Exec(Init(cfg, false, 0), es).phase.Crashed?
    ensures Exec(Init(cfg, false, 0), es).pool.tasks != map[]
  {
    cfg := Config(2, None, 1_000_000, 1_000_000, false);
    var delivery := Race.Result(Some([Job("a", 1)]));
    var crash := Race.Raised(false);
    var s := Init(cfg, false, 0);
    PollEnds(s, delivery);
    var s' := Exec(s, POLL + [ReserveResumes(delivery)]);
    PollEnds(s', crash);
    assert 0 in s'.pool.tasks;
    es := (POLL + [ReserveResumes(delivery)]) + (POLL + [ReserveResumes(crash)]);
    RunsCompose(s, POLL + [ReserveResumes(delivery)], POLL + [ReserveResumes(crash)]);
  }

  lemma DisposedIffNoTask(s: State)
    requires Inv(s)
    ensures s.pool.tasks == map[] <==> forall k: nat :: k < |s.pool.spawned| ==> DisposedOf(s, k)
  {
    forall k: nat | k in s.pool.settled ensures DisposedOf(s, k) {
      if s.pool.settled[k].calls != [] {
        JobRun.CallsFitOutcome(s.pool.settled[k]);
      }
    }
    if s.pool.tasks != map[] {
      var k :| k in s.pool.tasks;
      assert k < |s.pool.spawned| && !DisposedOf(s, k);
    }
  }

  lemma LastSegment(s: State, last: Event)
    requires Inv(s) && !Exited(s) && Enabled(s, last) && Exited(Apply(s, last))
    ensures Apply(s, last).pool.tasks == map[]
       <==> !(last == ReserveResumes(Race.Raised(false)) && s.pool.inFlight > 0)
  {
    hide JobRun.Inv;
  }

  /** And that is all that leaks: whichever segment ends the run, every spawned job has
      been disposed of by then exactly unless an exception from reserve that is no
      SeppError comes while jobs are in flight. */
  lemma DrainedExactly(cfg: Config, shutdown: bool, now: int, es: seq<Event>, last: Event)
    requires GoodConfig(cfg) && Valid(Init(cfg, shutdown, now), es)
    requires var s := Exec(Init(cfg, shutdown, now), es);
             !Exited(s) && Enabled(s, last) && Exited(Apply(s, last))
    ensures var s := Exec(Init(cfg, shutdown, now), es);
            var s' := Apply(s, last);
            var leaves := last == ReserveResumes(Race.Raised(false)) && s.pool.inFlight > 0;
            && (s'.pool.tasks == map[] <==> !leaves)
            && ((forall k: nat :: k < |s'.pool.spawned| ==> DisposedOf(s', k)) <==> !leaves)
  {
    hide Enabled, Apply, Exited, Inv, DisposedOf;
    InitIsSound(cfg, shutdown, now);
    RunKeepsInv(Init(cfg, shutdown, now), es);
    var s := Exec(Init(cfg, shutdown, now), es);
    StepKeepsInv(s, last);
    LastSegment(s, last);
    DisposedIffNoTask(Apply(s, last));
  }

  // ----------------------------------------------- every job task is a run of its own

  predicate CancelsTasks(e: Event) {
    || (e.PermitResumes? && e.permitExit.CancelPropagated?)
    || (e.ReserveResumes? && e.reserveExit.CancelPropagated?)
    || (e.SleepResumes? && e.sleepExit.CancelPropagated?)
    || e.CancelRun?
  }

  /** What a segment is to task t. */
  function Part(s: State, e: Event, t: nat): seq<JobRun.Event> {
    if e.JobStep? && e.task == t then [e.step]
    else if CancelsTasks(e) && t in s.pool.tasks then [JobRun.CancelFromOutside]
    else []
  }

  ghost function History(s: State, es: seq<Event>, t: nat): seq<JobRun.Event>
    requires Valid(s, es)
    decreases |es|
  {
    if es == [] then [] else Part(s, es[0], t) + History(Apply(s, es[0]), es[1..], t)
  }

  function TaskOf(s: State, t: nat): JobRun.State {
    Task(s.pool, t, s.cfg.autoExtend)
  }

  /** At most one step. */
  function Moved(job: JobRun.State, part: seq<JobRun.Event>): JobRun.State {
    if part != [] && JobRun.Enabled(job, part[0]) then JobRun.Apply(job, part[0]) else job
  }

  lemma MovedIsRun(job: JobRun.State, part: seq<JobRun.Event>)
    requires |part| <= 1 && (part != [] ==> JobRun.Enabled(job, part[0]))
    ensures JobRun.Valid(job, part) && JobRun.Exec(job, part) == Moved(job, part)
  {
    hide JobRun.Enabled, JobRun.Apply;
    if part != [] {
      assert part[1..] == [];
    }
  }

  lemma PartIsPossible(s: State, e: Event, t: nat)
    requires Enabled(s, e)
    ensures |Part(s, e, t)| <= 1
    ensures Part(s, e, t) != [] ==> JobRun.Enabled(TaskOf(s, t), Part(s, e, t)[0])
  {
  }

  lemma JobStepMovesTask(s: State, u: nat, step: JobRun.Event, t: nat)
    requires Enabled(s, JobStep(u, step))
    ensures TaskOf(Apply(s, JobStep(u, step)), t) == Moved(TaskOf(s, t), Part(s, JobStep(u, step), t))
  {
    hide JobRun.Apply, JobRun.Enabled;
    StepMovesTask(s.pool, u, step, s.cfg.autoExtend, t);
  }

  lemma CancelMovesTask(s: State, e: Event, t: nat)
    requires Enabled(s, e) && CancelsTasks(e)
    ensures TaskOf(Apply(s, e), t) == Moved(TaskOf(s, t), Part(s, e, t))
  {
    CancelAllMovesTask(s.pool, s.cfg.autoExtend, t);
    assert JobRun.Enabled(TaskOf(s, t), JobRun.CancelFromOutside);
    hide JobRun.Apply, JobRun.Enabled, CancelAll;
    assert Apply(s, e).pool == CancelAll(s.pool);
  }

  lemma ReserveMovesNoTask(s: State, exit: Race.Exit<Option<seq<Job>>>, t: nat)
    requires Sound(s.pool) && Enabled(s, ReserveResumes(exit)) && !exit.CancelPropagated?
    ensures TaskOf(Apply(s, ReserveResumes(exit)), t) == TaskOf(s, t)
  {
    hide JobRun.Apply, JobRun.Inv;
    if exit.Result? && exit.value.Some? {
      SpawnBeginsTask(s.pool, exit.value.value[0], s.cfg.autoExtend, t);
    }
  }

  lemma LoopMovesNoTask(s: State, e: Event, t: nat)
    requires Sound(s.pool) && Enabled(s, e) && !e.JobStep? && !e.ReserveResumes? && !CancelsTasks(e)
    ensures TaskOf(Apply(s, e), t) == TaskOf(s, t)
  {
    hide JobRun.Apply, JobRun.Inv;
    match e
    case DoneCallback(u) => DoneKeepsTask(s.pool, u, s.cfg.autoExtend, t);
    case BatchPermit => SpawnBeginsTask(Acquire(s.pool), s.phase.pending[0], s.cfg.autoExtend, t);
    case _ =>
  }

  lemma SegmentMovesTask(s: State, e: Event, t: nat)
    requires Sound(s.pool) && Enabled(s, e)
    ensures TaskOf(Apply(s, e), t) == Moved(TaskOf(s, t), Part(s, e, t))
  {
    hide Enabled, Apply, TaskOf, Sound;
    if e.JobStep? {
      JobStepMovesTask(s, e.task, e.step, t);
    } else if CancelsTasks(e) {
      CancelMovesTask(s, e, t);
    } else if e.ReserveResumes? {
      ReserveMovesNoTask(s, e.reserveExit, t);
    } else {
      LoopMovesNoTask(s, e, t);
    }
  }

  lemma PartIsRun(s: State, e: Event, t: nat)
    requires Sound(s.pool) && Enabled(s, e)
    ensures JobRun.Valid(TaskOf(s, t), Part(s, e, t))
    ensures JobRun.Exec(TaskOf(s, t), Part(s, e, t)) == TaskOf(Apply(s, e), t)
  {
    hide Enabled, Apply, TaskOf, Moved, Part;
    PartIsPossible(s, e, t);
    SegmentMovesTask(s, e, t);
    MovedIsRun(TaskOf(s, t), Part(s, e, t));
  }

  lemma {:induction false} TaskIsRun(s: State, es: seq<Event>, t: nat)
    requires Inv(s) && Valid(s, es)
    ensures JobRun.Valid(TaskOf(s, t), History(s, es, t))
    ensures JobRun.Exec(TaskOf(s, t), History(s, es, t)) == TaskOf(Exec(s, es), t)
    decreases |es|
  {
    if es != [] {
      StepKeepsInv(s, es[0]);
      PartIsRun(s, es[0], t);
      TaskIsRun(Apply(s, es[0]), es[1..], t);
      hide Inv, Enabled, Apply, TaskOf, Part;
      JobRun.RunsCompose(TaskOf(s, t), Part(s, es[0], t), History(Apply(s, es[0]), es[1..], t));
    }
  }

  /** Inside every run of the worker, each spawned job's task is a run of the one-job
      protocol from its beginning in the worker's mode, so all that is proved of one job
      holds of it: its call, if it made one, is what its own handler's end asks for. */
  lemma JobTasksAreRuns(cfg: Config, shutdown: bool, now: int, es: seq<Event>, t: nat)
    requires GoodConfig(cfg) && Valid(Init(cfg, shutdown, now), es)
    requires t < |Exec(Init(cfg, shutdown, now), es).pool.spawned|
    ensures var s, history := Exec(Init(cfg, shutdown, now), es), History(Init(cfg, shutdown, now), es, t);
            && (t in s.pool.tasks || t in s.pool.settled)
            && JobRun.Valid(JobRun.Init(cfg.autoExtend), history)
            && JobRun.Exec(JobRun.Init(cfg.autoExtend), history)
               == (if t in s.pool.tasks then s.pool.tasks[t] else s.pool.settled[t])
            && (TaskOf(s, t).calls != [] ==>
                  JobRun.FitsOutcome(if JobRun.Fate(history).Some? then JobRun.Ended(JobRun.Fate(history).value)
                                     else JobRun.NotStarted, TaskOf(s, t).calls))
  {
    InitIsSound(cfg, shutdown, now);
    RunKeepsInv(Init(cfg, shutdown, now), es);
    TaskIsRun(Init(cfg, shutdown, now), es, t);
    var s, history := Exec(Init(cfg, shutdown, now), es), History(Init(cfg, shutdown, now), es, t);
    if TaskOf(s, t).calls != [] {
      JobRun.TheCallFits(cfg.autoExtend, history);
    }
  }

  // --------------------------------------------------------- what ends the run, and how

  /** Neither a cancellation of run nor an exception from reserve that is no SeppError. */
  predicate Graceful(e: Event) {
    match e
    case PermitResumes(exit) => !exit.CancelPropagated?
    case ReserveResumes(exit) => !exit.CancelPropagated? && exit != Race.Raised(false)
    case SleepResumes(exit) => !exit.CancelPropagated?
    case CancelRun => false
    case _ => true
  }

  predicate AnyCut(es: seq<Event>) {
    es != [] && (!Graceful(es[0]) || AnyCut(es[1..]))
  }

  predicate Signalled(es: seq<Event>) {
    es != [] && (es[0].Signal? || Signalled(es[1..]))
  }

  function Elapsed(es: seq<Event>): nat {
    if es == [] then 0 else (if es[0].Tick? then es[0].elapsed else 0) + Elapsed(es[1..])
  }

  /** The loop stops only for the signal. */
  predicate StopsForSignal(s: State) {
    s.phase.Draining? || s.phase.Returned? ==> s.shutdown
  }

  lemma {:induction false} RunEndsFor(s: State, es: seq<Event>)
    requires Valid(s, es) && StopsForSignal(s)
    ensures var s' := Exec(s, es);
            && StopsForSignal(s')
            && (CutShort(s') <==> CutShort(s) || AnyCut(es))
            && (s'.shutdown <==> s.shutdown || Signalled(es))
            && s'.now == s.now + Elapsed(es)
    decreases |es|
  {
    if es != [] {
      var s' := Apply(s, es[0]);
      assert StopsForSignal(s') && s'.now == s.now + if es[0].Tick? then es[0].elapsed else 0;
      assert CutShort(s') <==> CutShort(s) || !Graceful(es[0]);
      RunEndsFor(s', es[1..]);
    }
  }

  /** Errors, empty answers and batches never stop the loop: it drains and returns only if
      the signal has fired, and leaves by an exception exactly if run was cancelled or a
      foreign exception came. */
  lemma RunEndsExactlyFor(cfg: Config, shutdown: bool, now: int, es: seq<Event>)
    requires Valid(Init(cfg, shutdown, now), es)
    ensures var s := Exec(Init(cfg, shutdown, now), es);
            && (s.phase.Draining? || s.phase.Returned? ==> shutdown || Signalled(es))
            && (CutShort(s) <==> AnyCut(es))
            && s.now == now + Elapsed(es)
  {
    RunEndsFor(Init(cfg, shutdown, now), es);
  }

  /** When run is cancelled every job task that has not ended is told so, each in the segment
      that handles the cancellation; JobRun.CancellationIsNotLost says what comes of it. */
  lemma CancelledRunTellsTasks(s: State, e: Event)
    requires Enabled(s, e) && !s.phase.Reaping? && Apply(s, e).phase.Reaping?
    ensures Apply(s, e).pool.tasks.Keys == s.pool.tasks.Keys
    ensures forall t :: t in s.pool.tasks ==>
              && JobRun.Told(Apply(s, e).pool.tasks[t])
              && Apply(s, e).pool.tasks[t] == JobRun.Apply(s.pool.tasks[t], JobRun.CancelFromOutside)
  {
    CancelAllTells(s.pool);
    hide CancelAll, JobRun.Told, JobRun.Apply;
    assert Apply(s, e).pool == CancelAll(s.pool);
  }

  // ------------------------------------------------------------- free-capacity requests

  /** The server returns no more jobs than it was asked for. */
  predicate ObeysLimit(s: State, e: Event) {
    s.phase.AwaitReserve? && e.ReserveResumes? && e.reserveExit.Result? && e.reserveExit.value.Some? ==>
      |e.reserveExit.value.value| <= s.phase.requested
  }

  ghost predicate ServerObeys(s: State, es: seq<Event>)
    requires Valid(s, es)
    decreases |es|
  {
    es == [] || (ObeysLimit(s, es[0]) && ServerObeys(Apply(s, es[0]), es[1..]))
  }

  /** A request never exceeds the room there is, nor does the rest of a batch. */
  predicate RoomForBatch(s: State) {
    && (s.phase.AwaitReserve? ==> 1 <= s.phase.requested <= s.pool.permits + 1)
    && (s.phase.AwaitBatchPermit? ==> |s.phase.pending| <= s.pool.permits)
  }

  /** When a reserve starts the clamp to 1 is inactive, since the loop already holds a
      permit: the request is the free capacity, capped by the caller's max_jobs, and its
      time is taken then. */
  lemma RequestIsFreeCapacity(s: State)
    requires Inv(s) && s.phase == AwaitPermit(true)
    ensures var s' := Apply(s, PermitResumes(Race.Result(())));
            && s'.phase.AwaitReserve? && s'.phase.startedAt == s.now
            && var free := s.cfg.maxInFlight - s.pool.inFlight;
               s'.phase.requested
               == if s.cfg.maxJobs.Some? && s.cfg.maxJobs.value < free then s.cfg.maxJobs.value else free
    ensures s.cfg.maxInFlight - s.pool.inFlight == s.pool.permits + 1 >= 1
    ensures RequestedJobs(s.cfg, s.pool.inFlight)
         == if s.cfg.maxJobs.Some? then Min(s.cfg.maxJobs.value, s.pool.permits + 1)
            else s.pool.permits + 1
    ensures RequestedJobs(s.cfg, s.pool.inFlight) >= 1
  {
  }

  lemma StepKeepsRoom(s: State, e: Event)
    requires Inv(s) && RoomForBatch(s) && Enabled(s, e) && ObeysLimit(s, e)
    ensures RoomForBatch(Apply(s, e))
  {
  }

  lemma StepKeepsInv(s: State, e: Event)
    requires Inv(s) && Enabled(s, e)
    ensures Inv(Apply(s, e))
  {
    StepKeepsPool(s, e);
    StepKeepsPermits(s, e);
    StepKeepsLedgers(s, e);
  }

  lemma {:induction false} RunKeepsRoom(s: State, es: seq<Event>)
    requires Inv(s) && RoomForBatch(s) && Valid(s, es) && ServerObeys(s, es)
    ensures RoomForBatch(Exec(s, es))
    decreases |es|
  {
    if es != [] {
      StepKeepsInv(s, es[0]);
      StepKeepsRoom(s, es[0]);
      RunKeepsRoom(Apply(s, es[0]), es[1..]);
    }
  }

  /** Against a server that honours max_jobs, no sem.acquire() in the batch loop ever
      waits: whatever tasks finish meanwhile, there is a free permit for every job left. */
  lemma BatchNeverBlocks(cfg: Config, shutdown: bool, now: int, es: seq<Event>)
    requires GoodConfig(cfg) && Valid(Init(cfg, shutdown, now), es)
    requires ServerObeys(Init(cfg, shutdown, now), es)
    ensures var s := Exec(Init(cfg, shutdown, now), es);
            s.phase.AwaitBatchPermit? ==> |s.phase.pending| <= s.pool.permits && Enabled(s, BatchPermit)
  {
    InitIsSound(cfg, shutdown, now);
    RunKeepsInv(Init(cfg, shutdown, now), es);
    RunKeepsRoom(Init(cfg, shutdown, now), es);
  }

  // ------------------------------------------------------------------ bounded shutdown

  /** The reserve calls started along a run. */
  function ReservesStarted(es: seq<Event>): nat {
    if es == [] then 0
    else (if es[0].PermitResumes? && es[0].permitExit.Result? then 1 else 0) + ReservesStarted(es[1..])
  }

  /** The batches handed to the loop along a run. */
  function Batches(es: seq<Event>): nat {
    if es == [] then 0
    else (if es[0].ReserveResumes? && es[0].reserveExit.Result? && es[0].reserveExit.value.Some? then 1 else 0)
         + Batches(es[1..])
  }

  /** After the signal at most one more reserve starts, and only if the loop was waiting
      for a permit when the signal came (LoopRace.ReserveStartsExactlyOnTie says when it
      then does); and at most one more batch arrives. */
  lemma {:induction false} AtMostOneLateReserve(s: State, es: seq<Event>)
    requires s.shutdown && Valid(s, es)
    ensures ReservesStarted(es) <= if s.phase.AwaitPermit? then 1 else 0
    ensures Batches(es) <= if s.phase.AwaitPermit? || s.phase.AwaitReserve? then 1 else 0
    decreases |es|
  {
    if es != [] {
      AtMostOneLateReserve(Apply(s, es[0]), es[1..]);
    }
  }

  /** Steps that bring the run nearer its end: the loop's own segments, completion
      callbacks, and the advances of a job.  The rest is the signal, time, heartbeats
      going round and cancellation requests. */
  predicate Moves(e: Event) {
    match e
    case Signal => false
    case Tick(_) => false
    case JobStep(_, step) => JobRun.Advances(step)
    case _ => true
  }

  function CountMoves(es: seq<Event>): nat {
    if es == [] then 0 else (if Moves(es[0]) then 1 else 0) + CountMoves(es[1..])
  }

  function TaskRank(tasks: map<nat, JobRun.State>, t: nat): nat {
    if t in tasks then JobRun.Rank(tasks[t]) + 1 else 0
  }

  /** The steps left to the first n jobs. */
  function RankSum(tasks: map<nat, JobRun.State>, n: nat): nat {
    if n == 0 then 0 else RankSum(tasks, n - 1) + TaskRank(tasks, n - 1)
  }

  /** The segments left to the loop; a job still in the batch costs one acquire and, once
      spawned, seven steps more. */
  function LoopRank(s: State): nat {
    match s.phase
    case AwaitPermit(acquired) => if acquired then 6 else 7
    case AwaitReserve(_, _) => 5
    case AwaitBatchPermit(pending) => 8 * |pending| + 3
    case AwaitErrorBackoff(_) => 4
    case AwaitEmptyBackoff(_) => 4
    case Top => 3
    case Draining => 2
    case Reaping => 1
    case _ => 0
  }

  function Measure(s: State): nat {
    LoopRank(s) + RankSum(s.pool.tasks, |s.pool.spawned|)
  }

  lemma {:induction false} RankSumChange(a: map<nat, JobRun.State>, b: map<nat, JobRun.State>, t: nat, n: nat)
    requires forall k: nat :: k != t ==> TaskRank(b, k) == TaskRank(a, k)
    ensures RankSum(b, n) == RankSum(a, n) + if t < n then TaskRank(b, t) - TaskRank(a, t) else 0
  {
    if n > 0 {
      RankSumChange(a, b, t, n - 1);
    }
  }

  lemma {:induction false} RankSumFalls(a: map<nat, JobRun.State>, b: map<nat, JobRun.State>, n: nat)
    requires forall k: nat :: TaskRank(b, k) <= TaskRank(a, k)
    ensures RankSum(b, n) <= RankSum(a, n)
  {
    if n > 0 {
      RankSumFalls(a, b, n - 1);
    }
  }

  /** A job step changes one task's rank; an advance lowers it. */
  lemma JobStepLowersRank(s: State, t: nat, step: JobRun.Event)
    requires Sound(s.pool) && t in s.pool.tasks && JobRun.Enabled(s.pool.tasks[t], step)
    ensures var n := |s.pool.spawned|;
            && RankSum(Step(s.pool, t, step).tasks, n) <= RankSum(s.pool.tasks, n)
            && (JobRun.Advances(step) ==> RankSum(Step(s.pool, t, step).tasks, n) < RankSum(s.pool.tasks, n))
  {
    JobRun.RankFalls(s.pool.tasks[t], step);
    RankSumChange(s.pool.tasks, Step(s.pool, t, step).tasks, t, |s.pool.spawned|);
  }

  lemma CallbackLowersRank(s: State, t: nat)
    requires Sound(s.pool) && t in s.pool.tasks
    ensures RankSum(Done(s.pool, t).tasks, |s.pool.spawned|) < RankSum(s.pool.tasks, |s.pool.spawned|)
  {
    RankSumChange(s.pool.tasks, Done(s.pool, t).tasks, t, |s.pool.spawned|);
  }

  lemma CancelKeepsRank(s: State)
    requires Sound(s.pool)
    ensures RankSum(CancelAll(s.pool).tasks, |s.pool.spawned|) <= RankSum(s.pool.tasks, |s.pool.spawned|)
  {
    forall t: nat ensures TaskRank(CancelAll(s.pool).tasks, t) <= TaskRank(s.pool.tasks, t) {
      if t in s.pool.tasks {
        JobRun.RankFalls(s.pool.tasks[t], JobRun.CancelFromOutside);
      }
    }
    RankSumFalls(s.pool.tasks, CancelAll(s.pool).tasks, |s.pool.spawned|);
  }

  /** A spawned job brings seven steps: six of its task, and the callback. */
  lemma SpawnAddsSeven(p: Pool, job: Job, autoExtend: bool)
    requires Sound(p)
    ensures RankSum(Spawn(p, job, autoExtend).tasks, |p.spawned| + 1) == RankSum(p.tasks, |p.spawned|) + 7
  {
    var q := Spawn(p, job, autoExtend);
    RankSumChange(p.tasks, q.tasks, |p.spawned|, |p.spawned|);
  }

  lemma BatchPaysForItself(s: State, jobs: seq<Job>)
    requires Sound(s.pool) && s.phase.AwaitReserve? && jobs != []
    ensures Measure(SpawnInBatch(s.(delivered := s.delivered + jobs), jobs[0], jobs[1..]))
          < Measure(s) + 8 * |jobs|
  {
    SpawnAddsSeven(s.pool, jobs[0], s.cfg.autoExtend);
  }

  lemma BatchPermitLowersMeasure(s: State)
    requires Sound(s.pool) && s.phase.AwaitBatchPermit? && s.phase.pending != [] && s.pool.permits > 0
    ensures Measure(SpawnInBatch(s.(pool := Acquire(s.pool)), s.phase.pending[0], s.phase.pending[1..]))
          < Measure(s)
  {
    SpawnAddsSeven(Acquire(s.pool), s.phase.pending[0], s.cfg.autoExtend);
  }

  lemma ReapingLowersMeasure(s: State)
    requires Sound(s.pool) && LoopRank(s) > 1
    ensures Measure(StartReaping(s)) < Measure(s)
  {
    CancelKeepsRank(s);
  }

  /** The measure, less eight for every job delivered since the beginning. */
  function Balance(s: State): int {
    Measure(s) - 8 * |s.delivered|
  }

  lemma ReserveLowersBalance(s: State, exit: Race.Exit<Option<seq<Job>>>)
    requires Sound(s.pool) && Enabled(s, ReserveResumes(exit))
    ensures Balance(AfterReserve(s, exit)) < Balance(s)
  {
    if exit.CancelPropagated? {
      ReapingLowersMeasure(s);
    } else if exit.Result? && exit.value.Some? {
      BatchPaysForItself(s, exit.value.value);
    } else {
      assert AfterReserve(s, exit).pool.tasks == s.pool.tasks;
    }
  }

  lemma JobStepLowersBalance(s: State, t: nat, step: JobRun.Event)
    requires Sound(s.pool) && Enabled(s, JobStep(t, step))
    ensures Balance(Apply(s, JobStep(t, step))) + (if JobRun.Advances(step) then 1 else 0) <= Balance(s)
  {
    JobStepLowersRank(s, t, step);
  }

  lemma CallbackLowersBalance(s: State, t: nat)
    requires Sound(s.pool) && Enabled(s, DoneCallback(t))
    ensures Balance(Apply(s, DoneCallback(t))) < Balance(s)
  {
    CallbackLowersRank(s, t);
  }

  lemma PauseLowersBalance(s: State, e: Event)
    requires Sound(s.pool) && Enabled(s, e) && (e.PermitResumes? || e.SleepResumes? || e.CancelRun?)
    ensures Balance(Apply(s, e)) < Balance(s)
  {
    hide RankSum, RequestedJobs;
    CancelKeepsRank(s);
  }

  lemma QuietStepLowersBalance(s: State, e: Event)
    requires s.shutdown && Enabled(s, e)
    requires e.Signal? || e.Tick? || e.PermitTaken? || e.TestShutdown? || e.Drained? || e.Reaped?
    ensures Balance(Apply(s, e)) + (if Moves(e) then 1 else 0) <= Balance(s)
  {
  }

  /** Whatever the server returns: a move lowers the measure, unless it delivers a batch,
      which raises it by less than eight a job. */
  lemma MeasureFalls(s: State, e: Event)
    requires Inv(s) && s.shutdown && Enabled(s, e)
    ensures Balance(Apply(s, e)) + (if Moves(e) then 1 else 0) <= Balance(s)
  {
    if e.ReserveResumes? {
      assert Apply(s, e) == AfterReserve(s, e.reserveExit);
    }
    if e.BatchPermit? {
      BatchPermitLowersMeasure(s);
      assert Balance(Apply(s, e)) < Balance(s);
    }
    hide Enabled, Apply, AfterReserve, Balance, Sound, PermitsConserved, LedgersAgree;
    match e
    case JobStep(t, step) => JobStepLowersBalance(s, t, step);
    case DoneCallback(t) => CallbackLowersBalance(s, t);
    case BatchPermit =>
    case ReserveResumes(exit) => ReserveLowersBalance(s, exit);
    case PermitResumes(_) => PauseLowersBalance(s, e);
    case SleepResumes(_) => PauseLowersBalance(s, e);
    case CancelRun => PauseLowersBalance(s, e);
    case _ => QuietStepLowersBalance(s, e);
  }

  lemma {:induction false} MovesAreBounded(s: State, es: seq<Event>)
    requires Inv(s) && s.shutdown && Valid(s, es)
    ensures CountMoves(es) + Balance(Exec(s, es)) <= Balance(s)
    decreases |es|
  {
    hide Inv, Enabled, Balance, Moves;
    if es != [] {
      StepKeepsInv(s, es[0]);
      MeasureFalls(s, es[0]);
      MovesAreBounded(Apply(s, es[0]), es[1..]);
    }
  }

  lemma {:induction false} RankSumBound(tasks: map<nat, JobRun.State>, live: set<nat>, n: nat)
    requires forall t: nat :: t < n && t in tasks ==> t in live
    ensures RankSum(tasks, n) <= 7 * |live|
  {
    if n == 0 {
    } else if n - 1 in tasks {
      RankSumBound(tasks, live - {n - 1}, n - 1);
    } else {
      RankSumBound(tasks, live, n - 1);
    }
  }

  lemma MeasureBound(s: State)
    requires Inv(s)
    ensures Measure(s) <= 7 * s.cfg.maxInFlight + 8 * |Pending(s)| + 7
  {
    RankSumBound(s.pool.tasks, s.pool.tasks.Keys, |s.pool.spawned|);
  }

  /** Bounded shutdown, whatever the server returns and whenever the signal came: seven
      moves for each task that may be alive, eight for each job of the batch in hand and of
      the one batch that may yet arrive, and seven for the loop. */
  lemma ShutdownIsBounded(cfg: Config, now: int, before: seq<Event>, after: seq<Event>)
    requires GoodConfig(cfg) && Valid(Init(cfg, false, now), before)
    requires var s := Exec(Init(cfg, false, now), before);
             s.shutdown && Valid(s, after)
    ensures var s := Exec(Init(cfg, false, now), before);
            var late := |Exec(s, after).delivered| - |s.delivered|;
            CountMoves(after) <= 7 * cfg.maxInFlight + 8 * (|Pending(s)| + late) + 7
    ensures ReservesStarted(after) <= 1 && Batches(after) <= 1
  {
    var s := Exec(Init(cfg, false, now), before);
    InitIsSound(cfg, false, now);
    RunKeepsInv(Init(cfg, false, now), before);
    MovesAreBounded(s, after);
    MeasureBound(s);
    AtMostOneLateReserve(s, after);
  }

  /** The jobs a server that honours max_jobs may still deliver. */
  function LateJobs(s: State): nat {
    match s.phase
    case AwaitPermit(_) => s.cfg.maxInFlight
    case AwaitReserve(requested, _) => requested
    case _ => 0
  }

  lemma StepSpendsLateJobs(s: State, e: Event)
    requires Inv(s) && RoomForBatch(s) && s.shutdown && Enabled(s, e) && ObeysLimit(s, e)
    ensures |Apply(s, e).delivered| + LateJobs(Apply(s, e)) <= |s.delivered| + LateJobs(s)
  {
  }

  lemma {:induction false} LateJobsAreFew(s: State, es: seq<Event>)
    requires Inv(s) && RoomForBatch(s) && s.shutdown && Valid(s, es) && ServerObeys(s, es)
    ensures |Exec(s, es).delivered| <= |s.delivered| + LateJobs(s)
    decreases |es|
  {
    hide Inv, RoomForBatch, ObeysLimit, Enabled, LateJobs;
    if es != [] {
      StepKeepsInv(s, es[0]);
      StepKeepsRoom(s, es[0]);
      StepSpendsLateJobs(s, es[0]);
      LateJobsAreFew(Apply(s, es[0]), es[1..]);
    }
  }

  /** If the server honours max_jobs, no more than 15 * max_in_flight + 7 moves. */
  lemma ObedientShutdownIsShort(cfg: Config, now: int, before: seq<Event>, after: seq<Event>)
    requires GoodConfig(cfg)
    requires Valid(Init(cfg, false, now), before) && ServerObeys(Init(cfg, false, now), before)
    requires var s := Exec(Init(cfg, false, now), before);
             s.shutdown && Valid(s, after) && ServerObeys(s, after)
    ensures CountMoves(after) <= 15 * cfg.maxInFlight + 7
  {
    var s := Exec(Init(cfg, false, now), before);
    ShutdownIsBounded(cfg, now, before, after);
    InitIsSound(cfg, false, now);
    RunKeepsInv(Init(cfg, false, now), before);
    RunKeepsRoom(Init(cfg, false, now), before);
    LateJobsAreFew(s, after);
  }

  ghost predicate AllGraceful(es: seq<Event>) {
    forall i :: 0 <= i < |es| ==> Graceful(es[i])
  }

  lemma {:induction false} GracefulRunIsNotCut(s: State, es: seq<Event>)
    requires Valid(s, es) && AllGraceful(es) && !CutShort(s)
    ensures !CutShort(Exec(s, es))
    decreases |es|
  {
    if es != [] {
      assert Graceful(es[0]);
      GracefulRunIsNotCut(Apply(s, es[0]), es[1..]);
    }
  }

  /** After the signal a run that is not over can always make a graceful move, and one that
      delivers nothing: the loop itself, a callback, or a job (whose move may be its
      handler returning). */
  lemma ShutdownNeverStuck(s: State) returns (e: Event)
    requires Inv(s) && s.shutdown && !Exited(s)
    ensures Enabled(s, e) && Moves(e) && Graceful(e)
    ensures Apply(s, e).delivered == s.delivered
  {
    match s.phase
    case Top => e := TestShutdown;
    case AwaitPermit(acquired) =>
      e := PermitResumes(if acquired then Race.Result(()) else Race.ShutdownWon);
    case AwaitReserve(_, _) => e := ReserveResumes(Race.ShutdownWon);
    case AwaitErrorBackoff(_) => e := SleepResumes(Race.ShutdownWon);
    case AwaitEmptyBackoff(_) => e := SleepResumes(Race.ShutdownWon);
    case AwaitBatchPermit(_) =>
      if s.pool.permits > 0 { e := BatchPermit; } else { e := SomeJobMoves(s); }
    case Draining =>
      if s.pool.tasks == map[] { e := Drained; } else { e := SomeJobMoves(s); }
    case _ =>
      if s.pool.tasks == map[] { e := Reaped; } else { e := SomeJobMoves(s); }
  }

  /** So shutdown ends, and ends in a return.  Take any run that is not cancelled and not
      hit by a foreign exception.  However far it has got since the signal: if it is over it
      has returned, if no graceful move is left to it it has returned, and otherwise it can
      go on to its return. */
  lemma ShutdownReturns(cfg: Config, now: int, before: seq<Event>, after: seq<Event>) returns (rest: seq<Event>)
    requires GoodConfig(cfg) && Valid(Init(cfg, false, now), before) && AllGraceful(before)
    requires var s := Exec(Init(cfg, false, now), before);
             s.shutdown && Valid(s, after) && AllGraceful(after)
    ensures var s := Exec(Exec(Init(cfg, false, now), before), after);
            && (Exited(s) ==> s.phase.Returned?)
            && ((forall e :: Enabled(s, e) && Moves(e) ==> !Graceful(e)) ==> s.phase.Returned?)
            && (rest == [] <==> s.phase.Returned?)
            && Valid(s, rest) && AllGraceful(rest) && Exec(s, rest).phase.Returned?
  {
    var s := Exec(Init(cfg, false, now), before);
    InitIsSound(cfg, false, now);
    RunKeepsInv(Init(cfg, false, now), before);
    RunKeepsInv(s, after);
    GracefulRunIsNotCut(Init(cfg, false, now), before);
    GracefulRunIsNotCut(s, after);
    SignalStays(s, after);
    if !Exited(Exec(s, after)) {
      var e := ShutdownNeverStuck(Exec(s, after));
    }
    rest := GoesOnToReturn(Exec(s, after));
  }

  lemma {:induction false} SignalStays(s: State, es: seq<Event>)
    requires s.shutdown && Valid(s, es)
    ensures Exec(s, es).shutdown
    decreases |es|
  {
    if es != [] {
      SignalStays(Apply(s, es[0]), es[1..]);
    }
  }

  lemma {:induction false} GoesOnToReturn(s: State) returns (es: seq<Event>)
    requires Inv(s) && s.shutdown && !CutShort(s)
    ensures Valid(s, es) && AllGraceful(es) && Exec(s, es).phase.Returned?
    ensures es == [] <==> s.phase.Returned?
    decreases Measure(s)
  {
    if s.phase.Returned? {
      return [];
    }
    var e := ShutdownNeverStuck(s);
    StepKeepsInv(s, e);
    MeasureFalls(s, e);
    var s' := Apply(s, e);
    hide Inv, Enabled, Apply, Moves, Measure;
    assert Valid(s, [e]) && Exec(s, [e]) == s' by {
      assert [e][1..] == [];
    }
    GracefulRunIsNotCut(s, [e]);
    SignalStays(s, [e]);
    var rest := GoesOnToReturn(s');
    assert ([e] + rest)[1..] == rest;
    es := [e] + rest;
  }

  lemma SomeJobMoves(s: State) returns (e: Event)
    requires Inv(s) && s.pool.tasks != map[]
    ensures Enabled(s, e) && Moves(e) && Graceful(e)
    ensures Apply(s, e).delivered == s.delivered
  {
    var t :| t in s.pool.tasks;
    if s.pool.tasks[t].pc.Finished? {
      e := DoneCallback(t);
    } else {
      JobRun.NeverStuck(s.pool.tasks[t]);
      e := JobStep(t, JobRun.NextMove(s.pool.tasks[t]));
    }
  }

  // -------------------------------------------------------------------------- poll rate

  /** The step that ends a poll which brought no jobs, back to the loop's head. */
  predicate EndsIdlePoll(s: State, e: Event) {
    || (e.SleepResumes? && e.sleepExit.Result?)
    || (s.phase.AwaitReserve? && e.ReserveResumes? && e.reserveExit == Race.Result(None)
        && s.now - s.phase.startedAt >= EarlyEmptyLimit(s.cfg))
  }

  ghost function IdlePolls(s: State, es: seq<Event>): nat
    requires Valid(s, es)
    decreases |es|
  {
    if es == [] then 0
    else (if EndsIdlePoll(s, es[0]) then 1 else 0) + IdlePolls(Apply(s, es[0]), es[1..])
  }

  /** min(100 ms, wait_timeout / 2, reserve_error_backoff) */
  function Pace(cfg: Config): int {
    Min(EarlyEmptyLimit(cfg), cfg.reserveErrorBackoff)
  }

  /** When the poll in progress began, or at the latest could have. */
  function PollStart(s: State): int {
    match s.phase
    case AwaitReserve(_, startedAt) => Min(startedAt, s.now)
    case AwaitErrorBackoff(until) => Min(s.now, until - Pace(s.cfg))
    case AwaitEmptyBackoff(until) => Min(s.now, until - Pace(s.cfg))
    case _ => s.now
  }

  lemma StepKeepsPace(s: State, e: Event)
    requires Enabled(s, e)
    ensures PollStart(Apply(s, e)) >= PollStart(s) + if EndsIdlePoll(s, e) then Pace(s.cfg) else 0
  {
  }

  function Product(n: nat, pace: int): int {
    if n == 0 then 0 else pace + Product(n - 1, pace)
  }

  lemma {:induction false} ProductIsProduct(n: nat, pace: int)
    ensures Product(n, pace) == n * pace
  {
    if n > 0 {
      ProductIsProduct(n - 1, pace);
    }
  }

  lemma {:induction false} IdlePollsTakeTime(s: State, es: seq<Event>)
    requires Valid(s, es)
    ensures Exec(s, es).now >= PollStart(s) + Product(IdlePolls(s, es), Pace(s.cfg))
    decreases |es|
  {
    if es != [] {
      StepKeepsPace(s, es[0]);
      IdlePollsTakeTime(Apply(s, es[0]), es[1..]);
    }
  }

  /** The loop is backing off until `until`. */
  predicate BacksOff(s: State, until: int) {
    s.phase == AwaitErrorBackoff(until) || s.phase == AwaitEmptyBackoff(until)
  }

  lemma {:induction false} BackoffHolds(s: State, es: seq<Event>, until: int)
    requires Valid(s, es) && (BacksOff(s, until) || s.now >= until)
    ensures BacksOff(Exec(s, es), until) || CutShort(Exec(s, es)) || Exec(s, es).phase.Draining?
            || Exec(s, es).phase.Returned? || Exec(s, es).now >= until
    decreases |es|
  {
    if es != [] && (BacksOff(Apply(s, es[0]), until) || Apply(s, es[0]).now >= until) {
      BackoffHolds(Apply(s, es[0]), es[1..], until);
    } else if es != [] {
      GoneForGood(Apply(s, es[0]), es[1..]);
    }
  }

  lemma {:induction false} GoneForGood(s: State, es: seq<Event>)
    requires Valid(s, es) && (CutShort(s) || s.phase.Draining? || s.phase.Returned?)
    ensures CutShort(Exec(s, es)) || Exec(s, es).phase.Draining? || Exec(s, es).phase.Returned?
    decreases |es|
  {
    if es != [] {
      GoneForGood(Apply(s, es[0]), es[1..]);
    }
  }

  /** Once a race was lost to the signal, wherever it was, the loop is over: no permit, no
      reserve and no backoff is waited for any more. */
  lemma ShutdownWonEndsLoop(s: State, e: Event, es: seq<Event>)
    requires Enabled(s, e) && Valid(Apply(s, e), es)
    requires e == PermitResumes(Race.ShutdownWon) || e == SleepResumes(Race.ShutdownWon)
             || e == ReserveResumes(Race.ShutdownWon)
    ensures var s' := Exec(Apply(s, e), es);
            s'.phase.Draining? || s'.phase.Returned? || s'.phase.Reaping? || s'.phase.CancelledOut?
    ensures ReservesStarted(es) == 0
  {
    DrainsToTheEnd(Apply(s, e), es);
  }

  lemma {:induction false} DrainsToTheEnd(s: State, es: seq<Event>)
    requires Valid(s, es)
    requires s.phase.Draining? || s.phase.Returned? || s.phase.Reaping? || s.phase.CancelledOut?
    ensures var s' := Exec(s, es);
            s'.phase.Draining? || s'.phase.Returned? || s'.phase.Reaping? || s'.phase.CancelledOut?
    ensures ReservesStarted(es) == 0
    decreases |es|
  {
    if es != [] {
      DrainsToTheEnd(Apply(s, es[0]), es[1..]);
    }
  }

  /** How long the loop waits after a reserve that brought no jobs: reserve_error_backoff
      after an error, 250 ms after an empty answer that came short of 100 ms and of half the
      wait window, and not at all after any other empty answer. */
  function WaitAfter(s: State, exit: Race.Exit<Option<seq<Job>>>): int
    requires s.phase.AwaitReserve?
  {
    match exit
    case Raised(_) => s.cfg.reserveErrorBackoff
    case Result(None) =>
      if s.now - s.phase.startedAt < 100_000 && s.now - s.phase.startedAt < DivRound(s.cfg.waitTimeout, 2)
      then 250_000 else 0
    case _ => 0
  }

  /** No reserve starts before that wait is over, and a late empty answer makes none. */
  lemma NextReserveWaits(s: State, exit: Race.Exit<Option<seq<Job>>>, es: seq<Event>)
    requires Enabled(s, ReserveResumes(exit)) && (exit == Race.Raised(true) || exit == Race.Result(None))
    requires Valid(Apply(s, ReserveResumes(exit)), es)
    ensures Exec(Apply(s, ReserveResumes(exit)), es).phase.AwaitReserve? ==>
              Exec(Apply(s, ReserveResumes(exit)), es).now >= s.now + WaitAfter(s, exit)
    ensures exit == Race.Result(None) && WaitAfter(s, exit) == 0 ==> Apply(s, ReserveResumes(exit)).phase.Top?
  {
    var s' := Apply(s, ReserveResumes(exit));
    BackoffHolds(s', es, s.now + WaitAfter(s, exit));
  }

  /** From any state on, n idle polls take at least n times
      min(100 ms, wait_timeout / 2, reserve_error_backoff). */
  lemma PollRate(s: State, es: seq<Event>)
    requires Valid(s, es)
    ensures var pace := Min(Min(100_000, DivRound(s.cfg.waitTimeout, 2)), s.cfg.reserveErrorBackoff);
            && Exec(s, es).now >= PollStart(s) + IdlePolls(s, es) * pace
            && (s.phase.Top? ==> Exec(s, es).now - s.now >= IdlePolls(s, es) * pace)
  {
    IdlePollsTakeTime(s, es);
    ProductIsProduct(IdlePolls(s, es), Pace(s.cfg));
  }
}
