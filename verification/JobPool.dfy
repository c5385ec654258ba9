/** The worker's bookkeeping of its job tasks: the semaphore, the in-flight counter and
    the task set (Worker._spawn with its _done callback, and the cancellation of every
    task).  A task is a JobRun.State; the k-th spawned job has key k. */
module JobPool {
  import JobRun

  /** One delivery: a job id and the attempt number the server gave it. */
  datatype Job = Job(id: string, attempt: nat)

  datatype Pool = Pool(
    permits: int,                     // free permits of the semaphore
    inFlight: int,                    // Worker._in_flight
    tasks: map<nat, JobRun.State>,    // the task set
    settled: map<nat, JobRun.State>,  // history: tasks whose completion callback ran
    spawned: seq<Job>)                // history

  function Empty(permits: int): Pool {
    Pool(permits, 0, map[], map[], [])
  }

  function Acquire(p: Pool): Pool {
    p.(permits := p.permits - 1)
  }

  function Release(p: Pool): Pool {
    p.(permits := p.permits + 1)
  }

  function Spawn(p: Pool, job: Job, autoExtend: bool): Pool {
    p.(inFlight := p.inFlight + 1,
       tasks := p.tasks[|p.spawned| := JobRun.Init(autoExtend)],
       spawned := p.spawned + [job])
  }

  function Step(p: Pool, t: nat, e: JobRun.Event): Pool
    requires t in p.tasks && JobRun.Enabled(p.tasks[t], e)
  {
    p.(tasks := p.tasks[t := JobRun.Apply(p.tasks[t], e)])
  }

  /** The _done callback. */
  function Done(p: Pool, t: nat): Pool
    requires t in p.tasks
  {
    p.(tasks := p.tasks - {t}, settled := p.settled[t := p.tasks[t]],
       permits := p.permits + 1, inFlight := p.inFlight - 1)
  }

  function CancelAll(p: Pool): Pool {
    p.(tasks := map t | t in p.tasks :: JobRun.RequestCancel(p.tasks[t]))
  }

  /** The task set has exactly `inFlight` members; every spawned job is either live or
      settled, never both; every task obeys the one-job protocol. */
  ghost predicate Sound(p: Pool) {
    && p.permits >= 0
    && p.inFlight == |p.tasks|
    && (forall t: nat :: t < |p.spawned| ==> (t in p.tasks) != (t in p.settled))
    && (forall t :: t in p.tasks ==> t < |p.spawned| && JobRun.Inv(p.tasks[t]))
    && (forall t :: t in p.settled ==>
          t < |p.spawned| && JobRun.Inv(p.settled[t]) && p.settled[t].pc.Finished?)
  }

  lemma SpawnIsSound(p: Pool, job: Job, autoExtend: bool)
    requires Sound(p)
    ensures Sound(Spawn(p, job, autoExtend))
  {
    assert JobRun.Inv(JobRun.Init(autoExtend));
    hide JobRun.Inv;
  }

  lemma StepIsSound(p: Pool, t: nat, e: JobRun.Event)
    requires Sound(p) && t in p.tasks && JobRun.Enabled(p.tasks[t], e)
    ensures Sound(Step(p, t, e))
  {
    JobRun.StepKeepsInv(p.tasks[t], e);
  }

  lemma DoneIsSound(p: Pool, t: nat)
    requires Sound(p) && t in p.tasks && p.tasks[t].pc.Finished?
    ensures Sound(Done(p, t))
  {
    assert (p.tasks - {t}).Keys == p.tasks.Keys - {t};
  }

  lemma CancelAllIsSound(p: Pool)
    requires Sound(p)
    ensures Sound(CancelAll(p))
    ensures CancelAll(p).tasks.Keys == p.tasks.Keys
  {
    assert CancelAll(p).tasks.Keys == p.tasks.Keys;
    forall t | t in p.tasks ensures JobRun.Inv(JobRun.RequestCancel(p.tasks[t])) {
      JobRun.StepKeepsInv(p.tasks[t], JobRun.CancelFromOutside);
    }
  }

  /** Every cancelled task that has not ended knows it, and is otherwise as it was. */
  lemma CancelAllTells(p: Pool)
    ensures CancelAll(p).tasks.Keys == p.tasks.Keys
    ensures forall t :: t in p.tasks ==>
              && JobRun.Told(CancelAll(p).tasks[t])
              && CancelAll(p).tasks[t] == JobRun.Apply(p.tasks[t], JobRun.CancelFromOutside)
  {
    assert CancelAll(p).tasks.Keys == p.tasks.Keys;
    hide JobRun.Told, JobRun.RequestCancel, JobRun.Apply;
    forall t | t in p.tasks
      ensures JobRun.Told(CancelAll(p).tasks[t])
      ensures CancelAll(p).tasks[t] == JobRun.Apply(p.tasks[t], JobRun.CancelFromOutside)
    {
      JobRun.RequestIsTold(p.tasks[t]);
    }
  }

  /** Every job task runs in this mode. */
  ghost predicate InMode(p: Pool, autoExtend: bool) {
    && (forall t :: t in p.tasks ==> p.tasks[t].autoExtend == autoExtend)
    && (forall t :: t in p.settled ==> p.settled[t].autoExtend == autoExtend)
  }

  lemma SpawnKeepsMode(p: Pool, job: Job, autoExtend: bool)
    requires InMode(p, autoExtend)
    ensures InMode(Spawn(p, job, autoExtend), autoExtend)
  {
  }

  lemma StepKeepsMode(p: Pool, t: nat, e: JobRun.Event, autoExtend: bool)
    requires InMode(p, autoExtend) && t in p.tasks && JobRun.Enabled(p.tasks[t], e)
    ensures InMode(Step(p, t, e), autoExtend)
  {
    hide JobRun.Apply, JobRun.Enabled;
    JobRun.StepKeepsMode(p.tasks[t], e);
  }

  lemma DoneKeepsMode(p: Pool, t: nat, autoExtend: bool)
    requires InMode(p, autoExtend) && t in p.tasks
    ensures InMode(Done(p, t), autoExtend)
  {
  }

  lemma CancelAllKeepsMode(p: Pool, autoExtend: bool)
    requires InMode(p, autoExtend)
    ensures InMode(CancelAll(p), autoExtend)
  {
    forall t | t in p.tasks ensures JobRun.RequestCancel(p.tasks[t]).autoExtend == autoExtend {
      JobRun.RequestIsTold(p.tasks[t]);
    }
  }

  /** Where task t is, or will begin. */
  function Task(p: Pool, t: nat, autoExtend: bool): JobRun.State {
    if t in p.tasks then p.tasks[t]
    else if t in p.settled then p.settled[t]
    else JobRun.Init(autoExtend)
  }

  lemma SpawnBeginsTask(p: Pool, job: Job, autoExtend: bool, t: nat)
    requires Sound(p)
    ensures Task(Spawn(p, job, autoExtend), t, autoExtend) == Task(p, t, autoExtend)
  {
  }

  lemma StepMovesTask(p: Pool, u: nat, e: JobRun.Event, autoExtend: bool, t: nat)
    requires u in p.tasks && JobRun.Enabled(p.tasks[u], e)
    ensures Task(Step(p, u, e), t, autoExtend)
         == if t == u then JobRun.Apply(Task(p, t, autoExtend), e) else Task(p, t, autoExtend)
  {
    hide JobRun.Apply, JobRun.Enabled;
  }

  lemma DoneKeepsTask(p: Pool, u: nat, autoExtend: bool, t: nat)
    requires Sound(p) && u in p.tasks
    ensures Task(Done(p, u), t, autoExtend) == Task(p, t, autoExtend)
  {
  }

  lemma CancelAllMovesTask(p: Pool, autoExtend: bool, t: nat)
    ensures Task(CancelAll(p), t, autoExtend)
         == if t in p.tasks then JobRun.Apply(Task(p, t, autoExtend), JobRun.CancelFromOutside)
            else Task(p, t, autoExtend)
  {
    hide JobRun.Apply;
    CancelAllTells(p);
  }
}
