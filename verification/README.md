# Verified model of the sepp Python client

A Dafny model of the concurrent and retrying parts of `sepp-py`, the asyncio client of the
sepp job queue, with proofs of what its documentation promises: a worker that neither loses
nor duplicates the jobs it is handed, heartbeats that give a lease up in time, acks and
enqueues that survive lost replies, and conversions that agree with each other.

`dafny verify dfyconfig.toml` checks the whole project.

## How the model is built

Code between two `await`s is atomic. Each protocol is therefore a transition system: a state
(everything parked at its awaits), an `Enabled` predicate and an `Apply` function over events,
and `Valid`/`Exec` for whole runs. The environment (handlers, heartbeats, the server, the
network, the shutdown signal, cancellations, time) chooses the events, so a lemma about
`Exec` of a valid run speaks of every interleaving. Where the source is imperative code, a
class or method written the way the source is (loops, early returns, field updates, in-place
edits) is proved to be a run of, or to compute, its specification: `Worker.Worker.Run`,
`JobTask.JobTask.RunJob` and `Race.OrShutdown.Run` follow a script of events and are proved to
execute exactly a prefix of it. Besides the step-by-step definitions, what a run must come to
is stated from its events alone: the call a job makes from how its handler ended, the exit of
a race from what was done when it woke, a call's result from the last answer it heard, the
jobs spawned from what the reserves returned.

| file | models |
|---|---|
| `JobRun`, `JobTask` | one delivered job: handler, heartbeat, the `lease_lost` box, ack and nack |
| `Race` | racing an awaitable with the shutdown signal |
| `JobPool`, `WorkerLoop`, `WorkerRuns`, `Worker` | the reserve, spawn and drain loop |
| `LoopRace` | the loop and its race over a permit or a sleep, run together |
| `Clock`, `Heartbeat` | microsecond and millisecond arithmetic, the heartbeat's rounds |
| `Status`, `Retry` | status codes and their errors, the retry loop and its backoff |
| `Dedup`, `Enqueue`, `Client` | enqueues against a deduplicating server; the list-building calls |
| `Fencing` | ack, nack and extend by many workers against redelivery |
| `Delivery` | one job and the server together |
| `Traceparent`, `Convert` | trace contexts, primitives, dead-letter replay |

## Assumptions about the environment

- One `run()` at a time per worker, starting with nothing in flight.
- A cancelled `sem.acquire()` holds no permit. A cancelled `gather` cancels its children and
  raises only when they have ended. A cancellation request to the job task goes to its handler
  while the handler runs; a handler that swallows it and returns counts as a normal return and
  is acked.
- Worker and server share a clock that does not run backwards; a sleep lasts at least as long
  as asked; code between two awaits takes no time (`Heartbeat`).
- The server grants a lease, at the reserve and at every extend, until the commit time plus one
  fixed amount (the requested duration under a fixed clamp), and only heartbeat extends touch
  it. `SeppClient.extend(ctx)` does not update the known expiry and is outside this theorem.
- UNAVAILABLE and RESOURCE_EXHAUSTED mean that the send was not and will not be processed.
  Under any other code anything may have happened, and may still happen later (`Enqueue`).
- Every try of a call is a send of its own, which the network delivers at most once, at any
  later moment (`Enqueue`, `Fencing`). `Fencing.HonestExactly` rests on that; the other theorems of
  `Fencing` about what the server does hold as well if it delivers a send many times.
- The protobuf library converts and prints exactly the timestamps of its range, the years 1 to
  9999, and raises ValueError for others and for a `max_jobs` that is no uint32 (`Convert`).
  Durations fit their messages.
- Nobody but the worker that was handed a delivery acks or nacks it (`Delivery` alone).
- A handler may also raise a BaseException that is neither an Exception nor a CancelledError;
  that asyncio stops its event loop for KeyboardInterrupt and SystemExit is outside the model.
- The server deduplicates by key within a window that outlasts the run (`Dedup`), and a
  delivery's acks, nacks and extends are accepted only under its current attempt (`Fencing`).

## Where the code and its documentation part

- `Worker.run` says it returns only when everything has drained. That holds when it returns
  (`WorkerRuns.ReturnMeansDrained`) and a cancelled run leaks no task either
  (`WorkerRuns.CancellationLeaksNoTask`), but an exception from `reserve` that is no `SeppError`
  leaves at once with jobs still running (`WorkerRuns.ForeignExceptionLeaksTasks`), and nothing
  else does (`WorkerRuns.DrainedExactly`). `Client.RunCrashesExactly` names a source of such an
  exception.
- `RetryPolicy` accepts a negative `max_backoff`; the usual closed form of the backoff then
  fails exactly as `Retry.ClosedFormExactly` says.
- A successful ack whose reply is lost is reported as `JobNotFoundError` when retried
  (`Fencing.CommittedAckCanReportNotFound`), as the log message in `_dispose` admits; that is
  so under every policy that retries and under no other (`Fencing.HonestExactly`).
- `reserve` says that a malformed job is skipped rather than failing the whole batch. For a
  time that is not representable the error text prints that time with a library call; that
  call raises in its turn for a time out of the library's range, and `reserve` and then `run`
  end with an exception that is no `SeppError` (`Client.RunCrashesExactly`,
  `Client.FarTimeCrashesRun`).
- The client's README.md (line 182) promises a nack when a handler raises. With auto-extend the handler is called
  before the `try`: if the call itself raises, or returns nothing awaitable, the job is neither
  acked nor nacked and waits for its lease to expire (`JobRun.RaisingCallIsNackedExactly`; what
  then happens exactly is in `JobRun.FinishedJob`).

## Model

| member | source | states |
|---|---|---|
| `JobRun.VerdictIsFinal` | src/sepp/worker.py:430-536 | in every interleaving, if `lease_lost` is ever set then no ack or nack was called before and none is called after |
| `JobRun.FinishedJob` | src/sepp/worker.py:399-497 | a finished job made exactly the one call its outcome asks for, case by case with directive and reason, and none exactly when the lease was lost, a CancelledError reached worker code first, or the handler failed where no branch catches it; it propagated cancelled without a call exactly when a CancelledError surfaced with the box unset, and crashed without one exactly in the last case; handler and heartbeat tasks have ended |
| `JobRun.TheCallFits` | src/sepp/worker.py:471-485 | from the events of a run: if the job called the server it did so once, with an ack if the handler returned, the HandlerError's own directive and reason, the text of another exception, or that there is no handler |
| `JobRun.NoCallHasCause` | src/sepp/worker.py:399-497 | a job that ended with no call saw a verdict of the heartbeat, a cancellation request, a handler that ended cancelled or beyond Exception, or a raising call of the handler under auto-extend; and no handler is asked to stop without one |
| `JobRun.BoxIsSetExactly` | src/sepp/worker.py:518-536 | the box is set exactly by a refused extend or an extend that failed past the expiry, the handler has then been asked to stop and the heartbeat is over; nothing else but a crash ends a heartbeat while the handler is awaited |
| `JobRun.CancellationIsNotLost` | src/sepp/worker.py:430-469 | a cancellation of the job goes to its running handler, and at any other moment before the call no ack and no nack follows |
| `JobRun.LostLeaseEndsQuietly` | src/sepp/worker.py:448-469 | if the box is set when the handler's task has ended, a CancelledError included, and no further cancellation comes, the job task ends with no call and no exception |
| `JobRun.RaisingCallIsNackedExactly` | src/sepp/worker.py:421-441 | when the call of the handler itself raises an exception, the job is nacked exactly without auto-extend; with it the job task crashes |
| `JobRun.CancellationPropagatesExactly` | src/sepp/worker.py:430-469 | a CancelledError that surfaces with the box unset means no ack and no nack and propagates, even if the box is set while the heartbeat is reaped; and no other job ends cancelled without a call |
| `JobRun.StepKeepsInv` | src/sepp/worker.py:430-469 | every segment of the job, its handler and its heartbeat keeps the protocol's invariant; the box is never cleared and calls are never undone |
| `JobRun.RankFalls` | src/sepp/worker.py:399-419 | no event takes a job further from its end, and each advance brings it nearer |
| `JobRun.NeverStuck` | src/sepp/worker.py:430-469 | an unfinished job can always advance, if only by its handler returning |
| `JobTask.JobTask.RunJob` | src/sepp/worker.py:399-419 | the coroutine, for every script of events, is a run of the protocol, makes the one call that the handler's end asks for or none, and leaves no task behind |
| `JobTask.JobTask.RunWithAutoExtend` | src/sepp/worker.py:430-469 | the call of the handler before the try, which nothing catches, and then the rest, follow the protocol |
| `JobTask.JobTask.AwaitHandlerTask` | src/sepp/worker.py:445-461 | the try and the except branches around the handler task, and the start of the finally, follow the protocol |
| `JobTask.JobTask.LeaveHandlerTask` | src/sepp/worker.py:457-469 | the heartbeat is reaped before the box is read for the last time, and only then an ack or nack is called |
| `JobTask.JobTask.RunPlain` | src/sepp/worker.py:421-428 | without auto-extend the handler is called inside the try, and its outcome or that of the call decides alone |
| `JobTask.JobTask.AwaitCall` | src/sepp/worker.py:471-497 | whatever the ack or nack call does, no second call follows |
| `Race.RaceLeaksNothing` | src/sepp/worker.py:358-393 | on every exit both children have ended; the awaited result is returned exactly when it was in the done set, so it wins ties; otherwise it was cancelled and reaped; a CancelledError leaves exactly if the caller was cancelled, while reaping too, or the awaited task was |
| `Race.ExitIsDecidedAtWake` | src/sepp/worker.py:358-393 | from the events of a run: the exit is the cancellation if the caller was ever cancelled, else the task's own result if it was done when asyncio.wait returned, else ShutdownWon |
| `Race.ReapedChildrenAreCancelled` | src/sepp/worker.py:377-392 | a child is only waited for after it was told to stop |
| `Race.RaceIsShort` | src/sepp/worker.py:358-393 | a race makes at most four moves, and once the signal has fired it is over when no move is left, asking of the awaited child only that it end when cancelled |
| `Race.NeverStuck` | src/sepp/worker.py:358-393 | after the signal or a cancellation the race always has a move, and each lowers its rank |
| `Race.StepKeepsInv` | src/sepp/worker.py:358-393 | every step of the race keeps its invariant, with the caller cancelled at any await |
| `Race.OrShutdown.Run` | src/sepp/worker.py:358-393 | the coroutine, for every script, is a run of the race, leaves both children ended, propagates every cancellation of its caller and otherwise returns the result or ShutdownWon as the done set says |
| `Race.OrShutdown.ReapAndLeave` | src/sepp/worker.py:382-393 | after the gather the call leaves by the cancellation, the shutdown or the result the race decided |
| `JobPool.SpawnIsSound` | src/sepp/worker.py:340-356 | spawning keeps counter, task set and ledgers in step |
| `JobPool.DoneIsSound` | src/sepp/worker.py:346-356 | the completion callback keeps counter, task set and ledgers in step |
| `JobPool.StepIsSound` | src/sepp/worker.py:395-419 | a step of one job disturbs no other |
| `JobPool.CancelAllIsSound` | src/sepp/worker.py:316-323 | cancelling every task loses none |
| `JobPool.CancelAllTells` | src/sepp/worker.py:320-321 | and tells every one that has not ended |
| `JobPool.SpawnKeepsMode` | src/sepp/worker.py:340-344 | a spawned job runs with or without auto-extend as the worker is configured |
| `WorkerLoop.StepKeepsPool` | src/sepp/worker.py:266-356 | every segment of the loop keeps the pool sound; no acquire overdraws the semaphore |
| `WorkerLoop.StepKeepsPermits` | src/sepp/worker.py:266-329 | free permits, the loop's permit and running jobs keep adding up on the success, empty, error, shutdown and batch paths |
| `WorkerLoop.StepKeepsLedgers` | src/sepp/worker.py:309-324 | no job delivered to the loop is dropped, duplicated or reordered |
| `WorkerLoop.RunKeepsInv` | src/sepp/worker.py:266-329 | all of these hold at every step of every run |
| `WorkerRuns.PermitConservation` | src/sepp/worker.py:255-356 | at every step the permits are conserved, the task set has in-flight members, and concurrency never exceeds max_in_flight |
| `WorkerRuns.JobsAreConserved` | src/sepp/worker.py:309-324 | at every step the jobs that the completed reserves returned are, in order, the spawned ones and the rest of the batch; only a cancellation gives any up; every job task runs in the worker's mode |
| `WorkerRuns.JobTasksAreRuns` | src/sepp/worker.py:340-356 | inside every run of the worker each spawned job's task is a run of the one-job protocol from its beginning, and its call is what its own handler's end asks for |
| `WorkerRuns.RunEndsExactlyFor` | src/sepp/worker.py:266-329 | errors, empty answers and batches never stop the loop: it drains only for the signal, and is cut short exactly by a cancellation or a foreign exception |
| `WorkerRuns.CancelledRunTellsTasks` | src/sepp/worker.py:316-323 | the segment that handles a cancellation cancels every live task |
| `WorkerRuns.ShutdownWonEndsLoop` | src/sepp/worker.py:270-307 | once a race is lost to the signal, wherever it was, no permit, reserve or backoff is waited for any more |
| `WorkerRuns.ReturnMeansDrained` | src/sepp/worker.py:326-329 | when run returns every delivered job was spawned once and in order and its task has ended, having made the call it owed (none if the lease was lost, it was cancelled, or nothing caught the handler's failure); no task is alive, every permit is back |
| `WorkerRuns.CancellationLeaksNoTask` | src/sepp/worker.py:316-324 | a cancelled run ends with no task alive and gives up only a tail of the batch |
| `WorkerRuns.ForeignExceptionLeaksTasks` | src/sepp/worker.py:275-277 | a run in which a foreign exception from reserve leaves a job running |
| `WorkerRuns.DrainedExactly` | src/sepp/worker.py:266-329 | whichever segment ends a run, all spawned jobs are disposed of by then exactly unless it is a foreign exception from reserve with jobs in flight |
| `WorkerRuns.RequestIsFreeCapacity` | src/sepp/worker.py:331-338 | the request that starts is the free capacity, capped by max_jobs, and the clamp to 1 is inactive |
| `WorkerRuns.StepKeepsRoom` | src/sepp/worker.py:309-338 | a request never exceeds the room there is, nor does the rest of a batch |
| `WorkerRuns.BatchNeverBlocks` | src/sepp/worker.py:309-315 | if the server honours max_jobs, every acquire of the batch loop finds a free permit |
| `WorkerRuns.AtMostOneLateReserve` | src/sepp/worker.py:267-276 | after the signal at most one reserve starts, and only if the loop was waiting for a permit, and at most one batch arrives |
| `LoopRace.ReserveStartsExactlyOnTie` | src/sepp/worker.py:267-276 | the loop and its race run step by step: uncancelled, a reserve starts exactly when the acquire was in the done set, so after the signal only on a tie, and exactly then the loop holds a permit |
| `LoopRace.LoopCoversRace` | src/sepp/worker.py:358-393 | every exit that the race over the acquire or a sleep can take is one the loop's guards admit, and what the loop sees meanwhile is a run of its model |
| `LoopRace.RaceGoesOn` | src/sepp/worker.py:358-393 | after the signal the race beside the loop can always take a step nearer its end, whatever the semaphore and the clock do |
| `WorkerRuns.MeasureFalls` | src/sepp/worker.py:266-329 | after the signal every move of the loop, a callback or a job lowers a measure over loop phase, pending batch and live tasks; a delivered batch of any size raises it by less than eight a job |
| `WorkerRuns.ShutdownIsBounded` | src/sepp/worker.py:242-249 | whenever the signal comes and whatever the server returns, at most 7 * max_in_flight + 8 * jobs + 7 moves remain, where jobs are those of the batch in hand and of the one batch that may still arrive |
| `WorkerRuns.ObedientShutdownIsShort` | src/sepp/worker.py:331-338 | if the server honours max_jobs, at most 15 * max_in_flight + 7 |
| `WorkerRuns.ShutdownReturns` | src/sepp/worker.py:239-249 | a run that is not cancelled and not hit by a foreign exception can only end by returning; it has returned when it has no move left, and until then it can go on to its return |
| `WorkerRuns.ShutdownNeverStuck` | src/sepp/worker.py:242-249 | until shutdown is over the run has a move towards its return, without a cancellation and without a further delivery |
| `WorkerRuns.SomeJobMoves` | src/sepp/worker.py:326-328 | while a task is alive, it or its callback can move |
| `WorkerRuns.StepKeepsPace` | src/sepp/worker.py:274-307 | an idle poll costs at least the pace |
| `WorkerRuns.PollRate` | src/sepp/worker.py:274-307 | n empty or failed reserves take at least n * min(100 ms, wait_timeout / 2, reserve_error_backoff) |
| `WorkerRuns.NextReserveWaits` | src/sepp/worker.py:278-307 | after an error no reserve starts before reserve_error_backoff, after an early empty answer none before 250 ms, and a late empty answer makes no wait |
| `Worker.Worker.Run` | src/sepp/worker.py:239-329 | run, as loops and branches over mutable fields, executes exactly a prefix of any script, and has drained when it returns |
| `Worker.Worker.Turn` | src/sepp/worker.py:267-271 | one turn of the loop, from its test |
| `Worker.Worker.AcquireAndReserve` | src/sepp/worker.py:268-276 | racing the acquire with shutdown, then starting the reserve |
| `Worker.Worker.HandleReserve` | src/sepp/worker.py:275-315 | each outcome of the reserve gives its permit back or passes it to the first job |
| `Worker.Worker.Sleep` | src/sepp/worker.py:283-288 | a backoff sleep continues, stops or cancels as the race says |
| `Worker.Worker.StartNext` | src/sepp/worker.py:314-315 | one permit, one job |
| `Worker.Worker.RunBatch` | src/sepp/worker.py:313-315 | the batch loop spawns the jobs in order |
| `Worker.Worker.Drain` | src/sepp/worker.py:326-329 | the final gather waits for every task, cancelled or not |
| `Worker.Worker.FinishReaping` | src/sepp/worker.py:320-324 | the cancelled run waits for every task before it re-raises |
| `Worker.Worker.SpawnTask` | src/sepp/worker.py:340-344 | counter, task set and ledger grow by one job, which begins in the worker's mode, and no other task changes |
| `Worker.Worker.TaskDone` | src/sepp/worker.py:346-349 | counter, task set and semaphore give one job back |
| `Worker.Worker.CancelTasks` | src/sepp/worker.py:320-321 | every task of the set is asked to stop |
| `Worker.Worker.ReserveOptsWithCapacity` | src/sepp/worker.py:331-338 | called while holding a permit, it asks for at least one job, no more than there is room for, and all of that unless max_jobs is less |
| `Worker.Worker.constructor` | src/sepp/worker.py:147-190 | max_in_flight is clamped to 1, the rest of the configuration is kept, and the worker starts in the initial state |
| `Clock.DivRound` | src/sepp/worker.py:539-540 | timedelta division is to the nearest microsecond, ties to even |
| `Status.ErrorTable` | src/sepp/errors.py:466-526 | which error each status becomes, for every call, and which statuses are retried |
| `Heartbeat.DefaultWakesInTimeExactly` | src/sepp/worker.py:509-516 | the default wake-up falls strictly before the known expiry, wherever in its millisecond now lies, exactly when 2 ms or more remain |
| `Heartbeat.DefaultLeavesTwoThirds` | src/sepp/worker.py:509-516 | with 3 ms or more remaining and r us truly left, at least 2r/3 - 334 us are left at the wake-up |
| `Heartbeat.RequestedThirdIsTooLate` | src/sepp/worker.py:121-126 | a third of the requested lease comes after the expiry if the grant is a third of the request or less |
| `Heartbeat.AutoExtendConfig` | src/sepp/worker.py:175-186 | an explicit interval turns auto-extend on by itself and is raised to 1 ms |
| `Heartbeat.EverySleepLastsAMillisecond` | src/sepp/worker.py:175-184 | both the default and an explicit interval sleep at least 1 ms |
| `Heartbeat.RoundIsAsConfigured` | src/sepp/worker.py:509-536 | an explicit interval is slept as it is and the default one is a third of the remaining lease; only a grant moves the known expiry; a refusal loses the lease, a transient failure exactly past the known expiry |
| `Heartbeat.GivesUpInTime` | src/sepp/worker.py:528-536 | under transient failures at most max(1, remaining ms) extends fail before the lease is declared lost, and by then it is |
| `Heartbeat.BeliefIsConservative` | src/sepp/client.py:153-168 | over any run, lost replies included, the known expiry is at most the server's; sleeping on after a failure implies the lease is alive at the server; a loss is declared less than 1 ms early |
| `Heartbeat.BeatKeepsBelief` | src/sepp/worker.py:516-536 | each round keeps the belief sound and its verdict in line with the clock |
| `Heartbeat.KeepsLeaseAlive` | src/sepp/worker.py:119-127 | with prompt rounds the default cadence never lets the granted lease lapse, whatever was requested |
| `Heartbeat.Beats` | src/sepp/worker.py:499-536 | the loop computes the specified rounds, updates the lease, and sets the box exactly when it cancels the handler |
| `Retry.WithRetry` | src/sepp/client.py:612-648 | between 1 and max_attempts tries; all but the last failed with an allowed code; the last answer is the outcome, and an error only if tries ran out or its code is not allowed; the delays are the backoffs, exactly without jitter, and with it half sure and half scaled by the draw |
| `Retry.StopIsUnique` | src/sepp/client.py:612-648 | the answers determine the number of tries |
| `Retry.Clamped` | src/sepp/client.py:91-94 | the least usable policy above the given one: each field below its floor goes to the floor on its own, and the others are kept |
| `Retry.ClosedFormExactly` | src/sepp/client.py:642-647 | the iterated minimum is initial, then min(initial * multiplier^(k-1), max_backoff), for all k exactly when the ceiling is not negative, growth is off, or the first step stays below it |
| `Retry.BackoffNeverShrinksExactly` | src/sepp/client.py:642-647 | from the second on delays never shrink, exactly when growth is off or no duration is negative |
| `Retry.TotalSleep` | src/sepp/client.py:630-641 | a call sleeps between half of its un-jittered backoffs and all of them |
| `Dedup.ProcessGrows` | src/sepp/v1/queue_pb2_grpc.py:79-101 | a batch only adds to the store and never stores a key twice |
| `Dedup.ProcessOutcomes` | src/sepp/types.py:223-232 | an accepted job's id names the entry that stands for it, a keyless one's a new entry of its own |
| `Dedup.ProcessEntries` | src/sepp/v1/queue_pb2_grpc.py:79-101 | every new entry comes from an accepted job, and no job brings two |
| `Dedup.DeduplicatedExactly` | src/sepp/types.py:223-232 | a job is deduplicated exactly if the store holds its key, and nothing is added then |
| `Enqueue.NoDuplicates` | src/sepp/client.py:651-658 | whatever commits, when, and whoever else enqueues: no key is stored twice, nor a keyless job of the call |
| `Enqueue.AcknowledgedIsStoredOnce` | src/sepp/client.py:301-348 | a job acknowledged in a successful reply is stored exactly once, under the returned id, then and ever after |
| `Enqueue.AtomicIsAllOrNothing` | src/sepp/client.py:364-401 | once one job of an atomic call is stored, all are |
| `Enqueue.DuplicateFreeExactly` | src/sepp/errors.py:476-492 | retrying never duplicates a keyless job exactly when all jobs are keyed, no ambiguous code is retried, or nothing is |
| `Enqueue.AmbiguousRetryDuplicates` | src/sepp/client.py:79-82 | any ambiguous code in the set and a second attempt duplicate a keyless job |
| `Enqueue.ClientCodesAreGuarded` | src/sepp/client.py:651-658 | the client's choice of codes is on the safe side and gives up nothing more than it must |
| `Enqueue.StepKeepsInv` | src/sepp/client.py:612-648 | every serve, reply and foreign enqueue keeps the call's invariant |
| `Enqueue.CallIsRetryLoop` | src/sepp/client.py:612-648 | a finished call tried as often as the retry loop does on the answers heard, and ends with the last |
| `Client.SeppClient.EnqueueBatch` | src/sepp/client.py:301-348 | one outcome per job, in order, each with its own id and deduplicated flag; empty batch, transport error, count mismatch and missing outcome are errors, told apart |
| `Client.SeppClient.EnqueueOne` | src/sepp/client.py:350-362 | succeeds exactly when the single job was acknowledged, with that acknowledgement; a rejection is raised |
| `Client.SeppClient.Reserve` | src/sepp/client.py:403-433 | the convertible jobs in order, None if there are none, never more than the server sent; or a SeppError; or the protobuf library's ValueError, for a max_jobs beyond its field or a time out of its range |
| `Client.ConvertibleInOrder` | src/sepp/client.py:427-433 | a job that converts gives one delivery, another gives none, and the order is the server's |
| `Client.RunCrashesExactly` | src/sepp/_convert.py:209-282 | such a request or time is what makes the loop leave by a foreign exception; otherwise the loop receives exactly the convertible jobs |
| `Client.FarTimeCrashesRun` | src/sepp/_convert.py:270-275 | a reply with one job enqueued a second after the year 9999 is one |
| `Convert.JobFromPb` | src/sepp/_convert.py:256-310 | the job, field by field what the server sent, or an error exactly when a required field is missing or out of range; the library's ValueError exactly when the first unrepresentable time is out of its range |
| `Convert.TimesAreKept` | src/sepp/_convert.py:69-77 | a time is representable exactly from 1970 to 9999, and then kept to the microsecond |
| `Fencing.AtMostOneCommit` | src/sepp/client.py:435-503 | each (job, attempt) has at most one committed ack or nack, whatever is delayed, duplicated, lost or retried |
| `Fencing.OldAttemptsAreFenced` | src/sepp/v1/queue_pb2_grpc.py:121-148 | once a job is redelivered, a request under an older attempt changes nothing, then and later, and is refused with FAILED_PRECONDITION while a newer attempt is in flight and NOT_FOUND otherwise |
| `Fencing.LeaseErrorIsFinal` | src/sepp/errors.py:512-519 | when a call ends in JobNotFoundError or AttemptMismatchError, its delivery is over for good and nothing commits for it any more |
| `Fencing.ReportsWhatItHeard` | src/sepp/errors.py:512-519 | in every run a finished call ends in JobNotFoundError exactly if the last answer it heard was NOT_FOUND, in AttemptMismatchError exactly on FAILED_PRECONDITION, and in success exactly on a success |
| `Fencing.AnswerEndsCallExactly` | src/sepp/client.py:620-648 | an answer ends a call exactly if it is a success, the tries are used up or the status is not transient; otherwise the next try is sent |
| `Fencing.RedeliveryIsNextAttempt` | README.md:110-116 | a lapsed or nacked delivery is followed by the next attempt |
| `Fencing.SuccessIsTheOneCommit` | src/sepp/client.py:435-503 | a successful ack or nack took effect and is the only one for its delivery |
| `Fencing.RetriesAreInvisible` | src/sepp/client.py:612-648 | keeping of each call's sends only the first that reaches the server, whatever came of it, leaves the server in the same state with the same commits in the same order |
| `Fencing.RepeatsChangeNothing` | src/sepp/client.py:612-648 | the same from any state in which the acks and nacks served already are over |
| `Fencing.HonestExactly` | src/sepp/client.py:435-503 | an ack or nack that took effect is never reported to its own caller as a lease error, in any run among any other callers, exactly when the policy does not retry |
| `Fencing.CommittedAckCanReportNotFound` | src/sepp/worker.py:487-493 | for every policy that retries, a run in which an ack or nack commits and its caller sees JobNotFoundError |
| `Fencing.MisreportTakesRetry` | src/sepp/client.py:435-503 | an ack or nack that took effect and is reported as a lease error was sent more than once, under a policy that allows it |
| `Fencing.StepKeepsInv` | src/sepp/client.py:435-534 | every delivery, expiry, serve and reply keeps the fencing invariant |
| `Delivery.DeliveryIsSettledAsHandled` | src/sepp/worker.py:430-497 | job, heartbeat, retried calls and server together: the server takes at most one ack or nack for the delivery, an ack exactly if the handler returned, none if the lease was lost or a cancellation came first, and one if the job's call succeeded |
| `Delivery.ReassignedIsTrue` | src/sepp/worker.py:520-527 | when the heartbeat gives the lease up because the server says so, the delivery is over at the server for good |
| `Delivery.StepKeepsInv` | src/sepp/worker.py:430-536 | every step of the job, the server and the other callers keeps the two in line |
| `Delivery.BeginIsSound` | src/sepp/worker.py:340-344 | the attempt a job is handed out under is new, so nothing can have been sent for it |
| `Traceparent.ValidatorIsGrammar` | src/sepp/types.py:121-142 | the split-and-check validator accepts exactly the strings of length 55 with hyphens at 2, 35 and 52, hex elsewhere, and non-zero trace and span ids |
| `Traceparent.JoinSplit` | src/sepp/types.py:121-126 | splitting and joining gives back the input |
| `Traceparent.PositionalIsValid` | src/sepp/types.py:121-142 | and the four fields are the slices between the hyphens |
| `Traceparent.TraceContextRoundTrip` | src/sepp/_convert.py:113-130 | accepted contexts survive the wire, received ones are kept exactly when valid and then sent on unchanged |
| `Convert.PrimitiveRoundTrip` | src/sepp/_convert.py:80-102 | tags survive both ways: a bool never becomes an int |
| `Convert.BuildCustom` | src/sepp/_convert.py:358-363 | the loop builds the whole map, or fails exactly when a value is unset |
| `Convert.SendCustom` | src/sepp/_convert.py:146-147 | the loop fills the whole map, or fails exactly when a value cannot be sent |
| `Convert.CustomRoundTrip` | src/sepp/_convert.py:146-147 | a received map is sent on entry for entry, tags included |
| `Convert.DeadLetterRecordFromPb` | src/sepp/_convert.py:328-383 | the record, field by field what the server kept, or an error exactly when a required field is missing or out of range, and which |
| `Convert.EnqueueRequestToPb` | src/sepp/_convert.py:133-153 | the message carries queue, type, payload, key, priority and max_attempts as given, every custom entry under its tag, the trace, and the schedule unless it lies before 1970; it fails exactly when a number or a custom value does not fit |
| `Convert.BatchKeepsKeys` | src/sepp/client.py:651-658 | the messages of a batch are keyed exactly where its requests are |
| `Convert.RequestIsChecked` | src/sepp/types.py:213-220 | a request is accepted exactly with a queue, a type and a priority from 0 to 9 or none, and not altered |
| `Convert.ReplayPreservesJob` | src/sepp/types.py:396-410 | a converting record replays exactly when it names its queue, and is then the original job wire to wire: payload, priority, custom entries, valid trace, non-zero max_attempts, no schedule, no key |
| `Convert.ReplaysAreNotRetriedBlindly` | src/sepp/client.py:651-658 | a batch with a replay in it never has an ambiguous code retried |
| `Convert.InjectTraceIntoJobs` | src/sepp/client.py:600-610 | the in-place edit gives the current trace to messages without one and touches nothing else |
| `Convert.InjectionKeepsReplays` | src/sepp/client.py:600-610 | a replay that kept its trace is sent as it is; none gains a key |

## Left out

- Channel set-up, TLS, credentials, metadata, spans, metrics and logging: I/O and calls into libraries.
- asyncio itself: the event loop, the semaphore's waiter queue and the mechanics of cancellation are the assumptions above.
- Timedelta and float rounding inside the retry backoff: durations are real numbers in `Retry`.
- `job_rejection_from_pb`, `server_info_from_pb`, the checks of `ReserveOptions`, handler registration, `connect` and target parsing: field copies, finite tables and one-branch checks.
- Reply lists of `enqueue_atomic`: the same list building as `enqueue_batch`; its commits are modelled.
- Server internals: storage, priorities, scheduling and queue policy; only attempts, deduplication and commit-with-lost-reply are kept.
- The composition of the worker's loop with the server: `Delivery` composes one job of it.
