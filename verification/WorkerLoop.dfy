/** The worker's reserve -> spawn -> drain loop as a transition system (Worker.run,
    _spawn and its _done callback, _reserve_opts_with_capacity).

    Code between two awaits is atomic, so a state is the loop parked at an await together
    with the shared counters, and an event is one segment of the loop, one step of a job
    task, one completion callback, the shutdown signal, or time passing.  A job task is a
    JobRun.State; the race with the shutdown signal is summarised by Race.Exit.

    Assumptions: one run at a time per worker, starting with nothing in flight; a
    cancelled sem.acquire() holds no permit; time does not run backwards. */
module WorkerLoop {
  import JobRun
  import opened JobPool
  import opened Options
  import opened Clock
  import Race

  /** Times are microseconds. */
  datatype Config = Config(
    maxInFlight: nat,
    maxJobs: Option<nat>,
    waitTimeout: int,
    reserveErrorBackoff: int,
    autoExtend: bool)

  const EARLY_EMPTY_THRESHOLD := 100_000
  const EARLY_EMPTY_BACKOFF := 250_000

  datatype Phase =
    | Top                                           // about to test `while not shutdown`
    | AwaitPermit(acquired: bool)
    | AwaitReserve(requested: nat, startedAt: int)
    | AwaitErrorBackoff(until: int)
    | AwaitEmptyBackoff(until: int)
    | AwaitBatchPermit(pending: seq<Job>)           // jobs of the batch not yet spawned
    | Draining
    | Reaping                                       // cancelled: job tasks told to stop
    | Returned
    | CancelledOut
    | Crashed                                       // an exception that is no SeppError

  datatype State = State(
    cfg: Config,
    phase: Phase,
    pool: Pool,
    shutdown: bool,
    now: int,
    delivered: seq<Job>,   // history: jobs returned by completed reserves
    abandoned: seq<Job>)   // history: rest of a batch given up by a cancellation

  datatype Event =
    | Signal
    | Tick(elapsed: nat)
    | JobStep(task: nat, step: JobRun.Event)
    | DoneCallback(task: nat)
    | PermitTaken
    | TestShutdown
    | PermitResumes(permitExit: Race.Exit<()>)
    | ReserveResumes(reserveExit: Race.Exit<Option<seq<Job>>>)
    | SleepResumes(sleepExit: Race.Exit<()>)
    | BatchPermit
    | Drained
    | CancelRun
    | Reaped

  /** Worker.__init__ clamps max_in_flight; ReserveOptions accepts only these values. */
  predicate GoodConfig(cfg: Config) {
    cfg.maxInFlight >= 1 && cfg.waitTimeout > 0 && (cfg.maxJobs.Some? ==> cfg.maxJobs.value >= 1)
  }

  function Init(cfg: Config, shutdown: bool, now: int): State {
    State(cfg, Top, Empty(cfg.maxInFlight), shutdown, now, [], [])
  }

  function EarlyEmptyLimit(cfg: Config): int {
    Min(EARLY_EMPTY_THRESHOLD, DivRound(cfg.waitTimeout, 2))
  }

  /** _reserve_opts_with_capacity */
  function RequestedJobs(cfg: Config, inFlight: int): nat {
    var capacity := Max(1, cfg.maxInFlight - inFlight);
    if cfg.maxJobs.Some? then Min(cfg.maxJobs.value, capacity) else capacity
  }

  function Freed(s: State): State {
    s.(pool := Release(s.pool))
  }

  /** Spawn `job`, then park at the next permit or go back to the loop's head. */
  function SpawnInBatch(s: State, job: Job, rest: seq<Job>): State {
    s.(pool := Spawn(s.pool, job, s.cfg.autoExtend),
       phase := if rest == [] then Top else AwaitBatchPermit(rest))
  }

  /** The `except CancelledError` branch, up to the gather. */
  function StartReaping(s: State): State {
    s.(phase := Reaping, pool := CancelAll(s.pool),
       abandoned := if s.phase.AwaitBatchPermit? then s.phase.pending else s.abandoned)
  }

  predicate Exited(s: State) {
    s.phase.Returned? || s.phase.CancelledOut? || s.phase.Crashed?
  }

  predicate Enabled(s: State, e: Event) {
    match e
    case Signal => true
    case Tick(_) => true
    case JobStep(t, step) => t in s.pool.tasks && JobRun.Enabled(s.pool.tasks[t], step)
    case DoneCallback(t) => t in s.pool.tasks && s.pool.tasks[t].pc.Finished?
    case PermitTaken => s.phase.AwaitPermit? && !s.phase.acquired && s.pool.permits > 0
    case TestShutdown => s.phase.Top?
    case PermitResumes(exit) =>
      && s.phase.AwaitPermit?
      && Race.Admissible(exit, s.shutdown)
      && !exit.Raised?
      && (exit.Result? ==> s.phase.acquired)
      && (exit.ShutdownWon? ==> !s.phase.acquired)
    case ReserveResumes(exit) =>
      && s.phase.AwaitReserve?
      && Race.Admissible(exit, s.shutdown)
      && (exit.Result? && exit.value.Some? ==> exit.value.value != [])
    case SleepResumes(exit) =>
      && (s.phase.AwaitErrorBackoff? || s.phase.AwaitEmptyBackoff?)
      && Race.Admissible(exit, s.shutdown)
      && !exit.Raised?
      && (exit.Result? ==> s.phase.until <= s.now)
    case BatchPermit => s.phase.AwaitBatchPermit? && s.phase.pending != [] && s.pool.permits > 0
    case Drained => s.phase.Draining? && s.pool.tasks == map[]
    case CancelRun => s.phase.AwaitBatchPermit? || s.phase.Draining?
    case Reaped => s.phase.Reaping? && s.pool.tasks == map[]
  }

  function Apply(s: State, e: Event): State
    requires Enabled(s, e)
  {
    match e
    case Signal => s.(shutdown := true)
    case Tick(elapsed) => s.(now := s.now + elapsed)
    case JobStep(t, step) => s.(pool := Step(s.pool, t, step))
    case DoneCallback(t) => s.(pool := Done(s.pool, t))
    case PermitTaken => s.(pool := Acquire(s.pool), phase := AwaitPermit(true))
    case TestShutdown => s.(phase := if s.shutdown then Draining else AwaitPermit(false))
    case PermitResumes(exit) =>
      (match exit
       case ShutdownWon => s.(phase := Draining)
       case CancelPropagated => StartReaping(s)
       case _ => s.(phase := AwaitReserve(RequestedJobs(s.cfg, s.pool.inFlight), s.now)))
    case ReserveResumes(exit) => AfterReserve(s, exit)
    case SleepResumes(exit) =>
      (match exit
       case ShutdownWon => s.(phase := Draining)
       case CancelPropagated => StartReaping(s)
       case _ => s.(phase := Top))
    case BatchPermit =>
      SpawnInBatch(s.(pool := Acquire(s.pool)), s.phase.pending[0], s.phase.pending[1..])
    case Drained => s.(phase := Returned)
    case CancelRun => StartReaping(s)
    case Reaped => s.(phase := CancelledOut)
  }

  function AfterReserve(s: State, exit: Race.Exit<Option<seq<Job>>>): State
    requires s.phase.AwaitReserve?
    requires exit.Result? && exit.value.Some? ==> exit.value.value != []
  {
    match exit
    case Raised(isSeppError) =>
      if isSeppError then
        Freed(s).(phase := AwaitErrorBackoff(s.now + s.cfg.reserveErrorBackoff))
      else
        s.(phase := Crashed)
    case CancelPropagated => StartReaping(s)
    case ShutdownWon => Freed(s).(phase := Draining)
    case Result(None) =>
      Freed(s).(phase :=
        if s.now - s.phase.startedAt < EarlyEmptyLimit(s.cfg)
        then AwaitEmptyBackoff(s.now + EARLY_EMPTY_BACKOFF)
        else Top)
    case Result(Some(jobs)) =>
      // The first job inherits the permit the loop already holds.
      SpawnInBatch(s.(delivered := s.delivered + jobs), jobs[0], jobs[1..])
  }

  ghost predicate Valid(s: State, es: seq<Event>)
    decreases |es|
  {
    es == [] || (Enabled(s, es[0]) && Valid(Apply(s, es[0]), es[1..]))
  }

  ghost function Exec(s: State, es: seq<Event>): (s': State)
    requires Valid(s, es)
    ensures s'.cfg == s.cfg
    decreases |es|
  {
    if es == [] then s else Exec(Apply(s, es[0]), es[1..])
  }

  // ---------------------------------------------------------------- the invariant

  function Held(s: State): nat {
    if s.phase.AwaitReserve? || (s.phase.AwaitPermit? && s.phase.acquired) then 1 else 0
  }

  predicate CutShort(s: State) {
    s.phase.Reaping? || s.phase.CancelledOut? || s.phase.Crashed?
  }

  function Pending(s: State): seq<Job> {
    if s.phase.AwaitBatchPermit? then s.phase.pending else []
  }

  /** Free permits, the permit the loop holds and the running jobs add up. */
  predicate PermitsConserved(s: State) {
    var total := s.pool.permits + Held(s) + s.pool.inFlight;
    if CutShort(s) then total <= s.cfg.maxInFlight else total == s.cfg.maxInFlight
  }

  predicate LedgersAgree(s: State) {
    && s.delivered == s.pool.spawned + Pending(s) + s.abandoned
    && (s.abandoned != [] ==> s.phase.Reaping? || s.phase.CancelledOut?)
    && (s.phase.AwaitBatchPermit? ==> s.phase.pending != [])
    && (s.phase.Returned? || s.phase.CancelledOut? ==> s.pool.tasks == map[])
  }

  ghost predicate Inv(s: State) {
    GoodConfig(s.cfg) && PermitsConserved(s) && LedgersAgree(s) && Sound(s.pool)
  }

  lemma ReserveKeepsPool(s: State, exit: Race.Exit<Option<seq<Job>>>)
    requires Sound(s.pool) && Enabled(s, ReserveResumes(exit))
    ensures Sound(AfterReserve(s, exit).pool)
  {
    if exit.CancelPropagated? {
      CancelAllIsSound(s.pool);
    } else if exit.Result? && exit.value.Some? {
      SpawnIsSound(s.pool, exit.value.value[0], s.cfg.autoExtend);
    }
  }

  lemma StepKeepsPool(s: State, e: Event)
    requires Sound(s.pool) && Enabled(s, e)
    ensures Sound(Apply(s, e).pool)
  {
    match e
    case JobStep(t, step) => StepIsSound(s.pool, t, step);
    case DoneCallback(t) => DoneIsSound(s.pool, t);
    case BatchPermit => SpawnIsSound(Acquire(s.pool), s.phase.pending[0], s.cfg.autoExtend);
    case ReserveResumes(exit) => ReserveKeepsPool(s, exit);
    case PermitResumes(_) => CancelAllIsSound(s.pool);
    case SleepResumes(_) => CancelAllIsSound(s.pool);
    case CancelRun => CancelAllIsSound(s.pool);
    case _ =>
  }

  lemma StepKeepsPermits(s: State, e: Event)
    requires PermitsConserved(s) && Enabled(s, e)
    ensures PermitsConserved(Apply(s, e))
  {
  }

  lemma StepKeepsLedgers(s: State, e: Event)
    requires LedgersAgree(s) && Enabled(s, e)
    ensures LedgersAgree(Apply(s, e))
  {
    if e.ReserveResumes? {
      ReserveKeepsLedgers(s, e.reserveExit);
    }
  }

  lemma ReserveKeepsLedgers(s: State, exit: Race.Exit<Option<seq<Job>>>)
    requires LedgersAgree(s) && Enabled(s, ReserveResumes(exit))
    ensures LedgersAgree(AfterReserve(s, exit))
  {
    if exit.Result? && exit.value.Some? {
      var jobs := exit.value.value;
      assert jobs == [jobs[0]] + jobs[1..];
    }
  }

  lemma {:induction false} RunKeepsInv(s: State, es: seq<Event>)
    requires Inv(s) && Valid(s, es)
    ensures Inv(Exec(s, es))
    decreases |es|
  {
    hide PermitsConserved, LedgersAgree, Sound, Enabled;
    if es != [] {
      StepKeepsPool(s, es[0]);
      StepKeepsPermits(s, es[0]);
      StepKeepsLedgers(s, es[0]);
      RunKeepsInv(Apply(s, es[0]), es[1..]);
    }
  }
}
