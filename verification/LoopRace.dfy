/** The worker loop and a race of _or_shutdown together, while the loop waits for a permit
    or sleeps: `await self._or_shutdown(sem.acquire())` and the two backoff sleeps.
    WorkerLoop lets the race leave by any exit that its guards admit; here the race is run
    step by step beside the loop, and the guards are proved of every exit it can take.

    Assumption: a cancelled sem.acquire() or asyncio.sleep() raises CancelledError, and the
    acquire then holds no permit. */
module LoopRace {
  import opened WorkerLoop
  import JobRun
  import Race
  import WorkerRuns

  type RaceState = Race.State<()>

  datatype Sys = Sys(loop: State, race: RaceState)

  datatype Step =
    | Elsewhere(loopEvent: Event)        // a job, a callback, the clock
    | SignalFires
    | AwaitedEnds                        // the acquire gets its permit, the sleep its time
    | AwaitedCancelled
    | InRace(raceEvent: Race.Event<()>)  // the signal's waiter, or the caller

  predicate Races(phase: Phase) {
    phase == AwaitPermit(false) || phase.AwaitErrorBackoff? || phase.AwaitEmptyBackoff?
  }

  function Begin(loop: State): Sys {
    Sys(loop, Race.Init(loop.shutdown))
  }

  predicate Ripe(loop: State) {
    match loop.phase
    case AwaitPermit(acquired) => !acquired && loop.pool.permits > 0
    case AwaitErrorBackoff(until) => until <= loop.now
    case AwaitEmptyBackoff(until) => until <= loop.now
    case _ => false
  }

  predicate CanStep(s: Sys, e: Step) {
    match e
    case Elsewhere(le) => (le.Tick? || le.JobStep? || le.DoneCallback?) && Enabled(s.loop, le)
    case SignalFires => true
    case AwaitedEnds => s.race.task == Race.Running(false) && Ripe(s.loop)
    case AwaitedCancelled => s.race.task == Race.Running(true)
    case InRace(re) => !re.SignalFires? && !re.TaskEnds? && Race.Enabled(s.race, re)
  }

  /** What the loop sees of a step. */
  function Seen(s: Sys, e: Step): seq<Event> {
    match e
    case Elsewhere(le) => [le]
    case SignalFires => [Signal]
    case AwaitedEnds => if s.loop.phase.AwaitPermit? then [PermitTaken] else []
    case _ => []
  }

  function After(s: Sys, e: Step): Sys
    requires CanStep(s, e)
  {
    match e
    case Elsewhere(le) => s.(loop := Apply(s.loop, le))
    case SignalFires => Sys(Apply(s.loop, Signal), Race.Apply(s.race, Race.SignalFires))
    case AwaitedEnds =>
      Sys(if s.loop.phase.AwaitPermit? then Apply(s.loop, PermitTaken) else s.loop,
          Race.Apply(s.race, Race.TaskEnds(Race.Value(()))))
    case AwaitedCancelled => s.(race := Race.Apply(s.race, Race.TaskEnds(Race.ChildCancelled)))
    case InRace(re) => s.(race := Race.Apply(s.race, re))
  }

  ghost predicate CanRun(s: Sys, es: seq<Step>)
    decreases |es|
  {
    es == [] || (CanStep(s, es[0]) && CanRun(After(s, es[0]), es[1..]))
  }

  ghost function Ran(s: Sys, es: seq<Step>): Sys
    requires CanRun(s, es)
    decreases |es|
  {
    if es == [] then s else Ran(After(s, es[0]), es[1..])
  }

  ghost function LoopEvents(s: Sys, es: seq<Step>): seq<Event>
    requires CanRun(s, es)
    decreases |es|
  {
    if es == [] then [] else Seen(s, es[0]) + LoopEvents(After(s, es[0]), es[1..])
  }

  const GOT: Race.Child<()> := Race.Done(Race.Value(()))
  const STOPPED: Race.Child<()> := Race.Done(Race.ChildCancelled)

  /** What ties the two together. */
  ghost predicate Coupled(s: Sys) {
    && Race.Inv(s.race)
    && s.loop.shutdown == s.race.signal
    && (s.race.task.Done? ==> s.race.task == GOT || s.race.task == STOPPED)
    && (s.race.task == STOPPED ==> s.race.taskCancelled)
    && (s.race.task.Running? && s.race.task.cancelRequested ==> s.race.taskCancelled)
    && (s.race.pc.ReapTask? ==> s.race.task != GOT)
    && (s.race.pc == Race.Exited(Race.ShutdownWon) ==> s.race.task == STOPPED)
    && match s.loop.phase
       case AwaitPermit(acquired) => acquired == (s.race.task == GOT)
       case AwaitErrorBackoff(until) => s.race.task == GOT ==> until <= s.loop.now
       case AwaitEmptyBackoff(until) => s.race.task == GOT ==> until <= s.loop.now
       case _ => false
  }

  lemma StepKeepsCoupling(s: Sys, e: Step)
    requires Coupled(s) && CanStep(s, e)
    ensures Coupled(After(s, e))
  {
    hide JobRun.Enabled, JobRun.Apply;
  }

  lemma SeenIsRun(s: Sys, e: Step)
    requires Coupled(s) && CanStep(s, e)
    ensures Valid(s.loop, Seen(s, e)) && Exec(s.loop, Seen(s, e)) == After(s, e).loop
  {
  }

  lemma {:induction false} RunKeepsCoupling(s: Sys, es: seq<Step>)
    requires Coupled(s) && CanRun(s, es)
    ensures Coupled(Ran(s, es))
    ensures Valid(s.loop, LoopEvents(s, es)) && Exec(s.loop, LoopEvents(s, es)) == Ran(s, es).loop
    decreases |es|
  {
    if es != [] {
      hide Coupled, CanStep, After, Seen;
      var s' := After(s, es[0]);
      StepKeepsCoupling(s, es[0]);
      SeenIsRun(s, es[0]);
      RunKeepsCoupling(s', es[1..]);
      WorkerRuns.RunsCompose(s.loop, Seen(s, es[0]), LoopEvents(s', es[1..]));
    }
  }

  /** The segment of run that the race's exit resumes. */
  function Resumption(s: Sys): Event
    requires s.race.pc.Exited?
  {
    if s.loop.phase.AwaitPermit? then PermitResumes(s.race.pc.exit) else SleepResumes(s.race.pc.exit)
  }

  /** The guards of the loop hold of every exit the race can take, so the loop as it is
      modelled goes through all that the loop and the race do together. */
  lemma LoopCoversRace(loop: State, es: seq<Step>)
    requires Races(loop.phase) && CanRun(Begin(loop), es)
    ensures var s := Ran(Begin(loop), es);
            && Valid(loop, LoopEvents(Begin(loop), es))
            && Exec(loop, LoopEvents(Begin(loop), es)) == s.loop
            && (s.race.pc.Exited? ==> Enabled(s.loop, Resumption(s)))
  {
    RunKeepsCoupling(Begin(loop), es);
  }

  /** When the loop raced for a permit and was not cancelled, a reserve starts exactly when
      the acquire was in the done set as asyncio.wait returned, so that after the signal it
      does only on a tie; and it then holds the permit, which otherwise nobody does. */
  lemma ReserveStartsExactlyOnTie(loop: State, es: seq<Step>)
    requires loop.phase == AwaitPermit(false) && CanRun(Begin(loop), es)
    requires var s := Ran(Begin(loop), es);
             s.race.pc.Exited? && !s.race.callerCancelled
    ensures var s := Ran(Begin(loop), es);
            && Enabled(s.loop, Resumption(s))
            && (Apply(s.loop, Resumption(s)).phase.AwaitReserve? <==> s.race.inDone)
            && (Apply(s.loop, Resumption(s)).phase.Draining? <==> !s.race.inDone)
            && (s.race.inDone <==> s.loop.phase == AwaitPermit(true))
            && (!s.race.inDone ==> s.loop.shutdown)
  {
    LoopCoversRace(loop, es);
    RunKeepsCoupling(Begin(loop), es);
    LoopStaysAtPermit(Begin(loop), es);
  }

  lemma {:induction false} LoopStaysAtPermit(s: Sys, es: seq<Step>)
    requires s.loop.phase.AwaitPermit? && CanRun(s, es)
    ensures Ran(s, es).loop.phase.AwaitPermit?
    decreases |es|
  {
    if es != [] {
      LoopStaysAtPermit(After(s, es[0]), es[1..]);
    }
  }

  /** The step that the race's next move is. */
  function NextStep(s: Sys): Step {
    if Race.NextMove(s.race).TaskEnds? then AwaitedCancelled else InRace(Race.NextMove(s.race))
  }

  /** After the signal the race has an end, whatever the semaphore and the clock do: one more
      step of it can always be taken, each brings it nearer (Race.RaceIsShort), and then
      the loop resumes. */
  lemma RaceGoesOn(s: Sys)
    requires Coupled(s) && s.loop.shutdown && !s.race.pc.Exited?
    ensures CanStep(s, NextStep(s)) && Race.Rank(After(s, NextStep(s)).race) < Race.Rank(s.race)
  {
    Race.NeverStuck(s.race);
    Race.MovesLowerRank(s.race, Race.NextMove(s.race));
  }
}
