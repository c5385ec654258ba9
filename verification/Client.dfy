/** The client calls that build lists from replies (SeppClient.enqueue_batch, enqueue and
    reserve).  `answers(k)` is the server's answer to the k-th try. */
module Client {
  import opened Options
  import opened Status
  import opened Retry
  import Dedup
  import Enqueue
  import Convert
  import JobPool
  import Race
  import WorkerLoop

  datatype Result<+T> = Success(value: T) | Failure(error: SeppError)

  /** One entry of an EnqueueBatchResponse. */
  datatype PbJobResult = Acked(id: nat, deduplicated: bool) | Refused | NoOutcome

  function OutcomeOf(r: PbJobResult): Dedup.Outcome
    requires !r.NoOutcome?
  {
    if r.Acked? then Dedup.Accepted(r.id, r.deduplicated) else Dedup.Rejected
  }

  predicate AllAnswered(results: seq<PbJobResult>) {
    forall i :: 0 <= i < |results| ==> !results[i].NoOutcome?
  }

  function OutcomesOf(results: seq<PbJobResult>): (outcomes: seq<Dedup.Outcome>)
    requires AllAnswered(results)
  {
    seq(|results|, i requires 0 <= i < |results| => OutcomeOf(results[i]))
  }

  /** What a batch call makes of the last answer to a request of n jobs. */
  function BatchResult(n: nat, answer: Answer<seq<PbJobResult>>): Result<seq<Dedup.Outcome>> {
    match answer
    case RpcError(code) => Failure(ClientErrorFromRpc(code))
    case Ok(results) =>
      if |results| != n then Failure(BatchResultCountMismatchError(n, |results|))
      else if !AllAnswered(results) then Failure(MalformedResponseError)
      else Success(OutcomesOf(results))
  }

  function Delivery(j: Convert.PbJob): seq<JobPool.Job> {
    if Convert.JobConverts(j) then [JobPool.Job(j.id, j.attempt)] else []
  }

  /** The jobs of a reserve reply that convert, in order; the others are skipped. */
  function Convertible(jobs: seq<Convert.PbJob>): (delivered: seq<JobPool.Job>)
    ensures |delivered| <= |jobs|
  {
    if jobs == [] then []
    else
      var rest := Convertible(jobs[..|jobs| - 1]);
      var last := jobs[|jobs| - 1];
      rest + Delivery(last)
  }

  lemma ConvertibleLast(jobs: seq<Convert.PbJob>, last: Convert.PbJob)
    ensures Convertible(jobs + [last]) == Convertible(jobs) + Delivery(last)
  {
    var all := jobs + [last];
    assert all[..|all| - 1] == jobs && all[|all| - 1] == last;
    assert Convertible(jobs) + [] == Convertible(jobs);
  }

  lemma {:induction false} ConvertibleConcat(a: seq<Convert.PbJob>, b: seq<Convert.PbJob>)
    ensures Convertible(a + b) == Convertible(a) + Convertible(b)
    decreases |b|
  {
    if b == [] {
      assert a + b == a && Convertible(a) + [] == Convertible(a);
    } else {
      hide Convertible, Delivery;
      var front, last := b[..|b| - 1], b[|b| - 1];
      assert front + [last] == b;
      assert a + (front + [last]) == (a + front) + [last];
      ConvertibleConcat(a, front);
      ConvertibleLast(a + front, last);
      ConvertibleLast(front, last);
      assert (Convertible(a) + Convertible(front)) + Delivery(last)
          == Convertible(a) + (Convertible(front) + Delivery(last));
    }
  }

  /** What determines it: nothing for no job, one delivery for a job that converts and none
      for another, and the second list after the first. */
  lemma ConvertibleInOrder(a: seq<Convert.PbJob>, b: seq<Convert.PbJob>, j: Convert.PbJob)
    ensures Convertible([]) == []
    ensures Convertible([j]) == if Convert.JobConverts(j) then [JobPool.Job(j.id, j.attempt)] else []
    ensures Convertible(a + b) == Convertible(a) + Convertible(b)
  {
    ConvertibleConcat(a, b);
    ConvertibleLast([], j);
    hide Convert.JobConverts;
    assert [] + [j] == [j] && [] + Delivery(j) == Delivery(j);
  }

  /** The job's own answer, as the caller gets it. */
  predicate Answers(r: PbJobResult, o: Dedup.Outcome) {
    match r
    case Acked(id, deduplicated) => o == Dedup.Accepted(id, deduplicated)
    case Refused => o == Dedup.Rejected
    case NoOutcome => false
  }

  /** What a batch call of n jobs makes of an answer, case by case. */
  ghost predicate Concludes(n: nat, answer: Answer<seq<PbJobResult>>, r: Result<seq<Dedup.Outcome>>) {
    match answer
    case RpcError(code) => r == Failure(ClientErrorFromRpc(code))
    case Ok(results) =>
      if |results| != n then r == Failure(BatchResultCountMismatchError(n, |results|))
      else if NoOutcome in results then r == Failure(MalformedResponseError)
      else r.Success? && |r.value| == n && forall i :: 0 <= i < n ==> Answers(results[i], r.value[i])
  }

  predicate SomeCrashes(jobs: seq<Convert.PbJob>) {
    exists k :: 0 <= k < |jobs| && Convert.JobCrashes(jobs[k])
  }

  /** How a call of reserve ends. */
  datatype Reserved = Jobs(jobs: Option<seq<JobPool.Job>>) | Raised(error: SeppError) | RaisedByLibrary

  /** No convertible job means None, so a list is never empty. */
  function ReserveOutcome(maxJobs: nat, answer: Answer<seq<Convert.PbJob>>): Reserved {
    // reserve_options_to_pb: the field is a uint32.
    if !Convert.FitsUInt32(maxJobs) then RaisedByLibrary
    else match answer
    case RpcError(code) => Raised(ReserveErrorFromRpc(code))
    case Ok(jobs) =>
      if SomeCrashes(jobs) then RaisedByLibrary
      else Jobs(if Convertible(jobs) == [] then None else Some(Convertible(jobs)))
  }

  /** What the worker's race makes of it, if the call is not cut short. */
  function ExitOf(r: Reserved): Race.Exit<Option<seq<JobPool.Job>>> {
    match r
    case Jobs(jobs) => Race.Result(jobs)
    case Raised(_) => Race.Raised(true)
    case RaisedByLibrary => Race.Raised(false)
  }

  /** Where an exception comes from that makes Worker.run leave without draining: every
      outcome of reserve is one the loop has a branch for, and the loop is left by an
      exception exactly when the request does not fit its message, or some job of the reply
      has a time out of the protobuf library's range where job_from_pb first looks. */
  lemma RunCrashesExactly(s: WorkerLoop.State, answer: Answer<seq<Convert.PbJob>>)
    requires s.phase.AwaitReserve?
    ensures var exit := ExitOf(ReserveOutcome(s.phase.requested, answer));
            && WorkerLoop.Enabled(s, WorkerLoop.ReserveResumes(exit))
            && (WorkerLoop.AfterReserve(s, exit).phase.Crashed? <==>
                  !Convert.FitsUInt32(s.phase.requested) || (answer.Ok? && SomeCrashes(answer.value)))
            && (!WorkerLoop.AfterReserve(s, exit).phase.Crashed? ==>
                  WorkerLoop.AfterReserve(s, exit).delivered
                  == s.delivered + if answer.Ok? then Convertible(answer.value) else [])
  {
    assert s.delivered + [] == s.delivered;
  }

  /** One such reply, whose only fault is a job enqueued a second after the year 9999. */
  lemma FarTimeCrashesRun(s: WorkerLoop.State) returns (j: Convert.PbJob)
    requires s.phase.AwaitReserve?
    ensures !Convert.JobConverts(j)
    ensures Convert.JobConverts(j.(enqueuedAt := Convert.PbTimestamp(Convert.TIMESTAMP_SECONDS_MAX, 0)))
    ensures j.enqueuedAt == Convert.PbTimestamp(Convert.TIMESTAMP_SECONDS_MAX + 1, 0)
    ensures WorkerLoop.AfterReserve(s, ExitOf(ReserveOutcome(s.phase.requested, Ok([j])))).phase.Crashed?
  {
    hide WorkerLoop.AfterReserve, ReserveOutcome, WorkerLoop.Enabled;
    j := Convert.FarJob();
    assert Convert.JobCrashes([j][0]);
    RunCrashesExactly(s, Ok([j]));
  }

  class SeppClient {
    const policy: Policy

    constructor (policy: Policy)
      ensures Usable(this.policy)
      ensures this.policy == Clamped(policy)
    {
      this.policy := Clamped(policy);
    }

    /** One outcome per submitted job, in order, or the whole call's failure. */
    method EnqueueBatch(jobs: seq<Convert.PbEnqueueRequest>, answers: nat -> Answer<seq<PbJobResult>>,
                        random: nat -> real)
      returns (r: Result<seq<Dedup.Outcome>>, calls: nat)
      requires Usable(policy)
      ensures jobs == [] ==> calls == 0
      ensures jobs != [] ==>
                StopsAt(policy, Enqueue.EnqueueRetryableCodes(Convert.KeysOf(jobs)), answers, calls)
      ensures r == if jobs == [] then Failure(EmptyBatchError) else BatchResult(|jobs|, answers(calls))
      ensures jobs != [] ==> Concludes(|jobs|, answers(calls), r)
    {
      if jobs == [] {
        return Failure(EmptyBatchError), 0;
      }
      var answer, n, _ := WithRetry(policy, Enqueue.EnqueueRetryableCodes(Convert.KeysOf(jobs)), answers, random);
      calls := n;
      if answer.RpcError? {
        return Failure(ClientErrorFromRpc(answer.code)), n;
      }
      var results := answer.value;
      if |results| != |jobs| {
        return Failure(BatchResultCountMismatchError(|jobs|, |results|)), n;
      }
      var out: seq<Dedup.Outcome> := [];
      for k := 0 to |results|
        invariant |out| == k
        invariant forall i :: 0 <= i < k ==> !results[i].NoOutcome? && out[i] == OutcomeOf(results[i])
      {
        if results[k].NoOutcome? {
          return Failure(MalformedResponseError), n;
        }
        out := out + [OutcomeOf(results[k])];
      }
      assert out == OutcomesOf(results);
      return Success(out), n;
    }

    /** A single job: a rejection is raised rather than returned. */
    method EnqueueOne(job: Convert.PbEnqueueRequest, answers: nat -> Answer<seq<PbJobResult>>, random: nat -> real)
      returns (r: Result<Dedup.Outcome>, calls: nat)
      requires Usable(policy)
      ensures StopsAt(policy, Enqueue.EnqueueRetryableCodes([job.idempotencyKey]), answers, calls)
      ensures r.Success? <==>
                answers(calls).Ok? && |answers(calls).value| == 1 && answers(calls).value[0].Acked?
      ensures r.Success? ==> Answers(answers(calls).value[0], r.value)
      ensures answers(calls).Ok? && answers(calls).value == [Refused] ==> r == Failure(JobRejectedError)
      ensures answers(calls).RpcError? ==> r == Failure(ClientErrorFromRpc(answers(calls).code))
    {
      assert Convert.KeysOf([job]) == [job.idempotencyKey];
      var results, n := EnqueueBatch([job], answers, random);
      calls := n;
      if results.Failure? {
        return Failure(results.error), n;
      }
      if results.value[0].Rejected? {
        return Failure(JobRejectedError), n;
      }
      return Success(results.value[0]), n;
    }

    /** Never retried.  Malformed jobs are skipped; the list is no longer than the server's. */
    method Reserve(maxJobs: nat, answer: Answer<seq<Convert.PbJob>>) returns (r: Reserved)
      ensures r == ReserveOutcome(maxJobs, answer)
      ensures answer.RpcError? && maxJobs <= 4_294_967_295 ==> r == Raised(ReserveErrorFromRpc(answer.code))
      ensures r.Jobs? && r.jobs.Some? ==> answer.Ok? && 1 <= |r.jobs.value| <= |answer.value|
    {
      hide Convert.ReservedFromPb, Convert.JobConverts, Convert.JobCrashes;
      if !Convert.FitsUInt32(maxJobs) {
        return RaisedByLibrary;
      }
      if answer.RpcError? {
        return Raised(ReserveErrorFromRpc(answer.code));
      }
      var received := answer.value;
      var jobs: seq<JobPool.Job> := [];
      for k := 0 to |received|
        invariant jobs == Convertible(received[..k])
        invariant forall i :: 0 <= i < k ==> !Convert.JobCrashes(received[i])
      {
        assert received[..k + 1][..k] == received[..k];
        var job := Convert.JobFromPb(received[k]);
        if job.Ok? {
          jobs := jobs + [JobPool.Job(job.value.id, job.value.attempt)];
        } else if !job.error.JobConversionError? {
          return RaisedByLibrary;
        }
      }
      assert received[..|received|] == received;
      return Jobs(if jobs == [] then None else Some(jobs));
    }
  }
}
