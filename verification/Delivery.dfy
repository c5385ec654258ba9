/** One delivery from end to end: the job of a worker (JobRun) and the server with all its
    callers (Fencing) together.  The job's ack or nack and its heartbeat's extends are calls
    of Fencing, each with its tries; the job hears what its call ends with, or is cut off
    before and leaves the sends on their way.

    Assumption: nobody but the worker that was handed the delivery acks or nacks it.
    Anybody may extend it, and anything may happen to other deliveries. */
module Delivery {
  import opened Options
  import opened Status
  import Fencing
  import JobRun
  import Retry

  datatype Sys = Sys(
    job: JobRun.State,
    server: Fencing.Sys,
    id: Fencing.JobId,
    attempt: nat,
    policy: Retry.Policy,
    disposal: Option<nat>,    // the number of the ack or nack call, once made
    extension: Option<nat>)   // the number of the last extend call

  datatype Step =
    | Elsewhere(serverEvent: Fencing.Event)         // server, network, retries, other callers
    | InJob(segment: JobRun.Event)                  // a segment of the job that calls nobody
    | Calls(segment: JobRun.Event, number: nat)     // one that makes a call

  /** The moment the server hands the job out, and the worker makes a task of it. */
  function Begin(server: Fencing.Sys, id: Fencing.JobId, policy: Retry.Policy, autoExtend: bool): Sys
    requires Fencing.Enabled(server, Fencing.Deliver(id))
  {
    Sys(JobRun.Init(autoExtend), Fencing.Apply(server, Fencing.Deliver(id)), id, server.slots[id].next,
        policy, None, None)
  }

  function VerbOf(call: JobRun.Call): Fencing.Verb {
    if call.Ack? then Fencing.Ack else Fencing.Nack
  }

  predicate Disposes(job: JobRun.State, e: JobRun.Event)
    requires JobRun.Enabled(job, e)
  {
    |JobRun.Apply(job, e).calls| > |job.calls|
  }

  function RequestOf(s: Sys, e: JobRun.Event, number: nat): Fencing.Request
    requires JobRun.Enabled(s.job, e)
  {
    Fencing.Request(number, s.id, s.attempt,
      if Disposes(s.job, e) then VerbOf(JobRun.Apply(s.job, e).calls[|s.job.calls|]) else Fencing.Extend)
  }

  predicate Mine(s: Sys, r: Fencing.Request) {
    r.job == s.id && r.attempt == s.attempt
  }

  function ResultOf(s: Sys, call: Option<nat>): Option<Fencing.CallResult> {
    if call.Some? && call.value in s.server.calls then s.server.calls[call.value].result else None
  }

  predicate IsLeaseLoss(r: Option<Fencing.CallResult>) {
    r.Some? && r.value.Failed? && Fencing.IsLeaseError(r.value.error)
  }

  /** The job resumes from a call with what the call ended with. */
  predicate Heard(s: Sys, e: JobRun.Event) {
    match e
    case CallReturns => ResultOf(s, s.disposal).Some?
    case ExtendSucceeds => ResultOf(s, s.extension) == Some(Fencing.Succeeded)
    case ExtendReassigned => IsLeaseLoss(ResultOf(s, s.extension))
    case ExtendFails(_) => ResultOf(s, s.extension).Some? && !IsLeaseLoss(ResultOf(s, s.extension))
    case _ => true
  }

  predicate CanStep(s: Sys, e: Step) {
    match e
    case Elsewhere(se) =>
      && Fencing.Enabled(s.server, se)
      && (se.Issue? && Mine(s, se.request) ==> se.request.verb.Extend?)
    case InJob(je) =>
      JobRun.Enabled(s.job, je) && !Disposes(s.job, je) && !je.HeartbeatWakes? && Heard(s, je)
    case Calls(je, number) =>
      && JobRun.Enabled(s.job, je) && (Disposes(s.job, je) || je.HeartbeatWakes?)
      && Fencing.Enabled(s.server, Fencing.Issue(RequestOf(s, je, number), s.policy))
  }

  function After(s: Sys, e: Step): Sys
    requires CanStep(s, e)
  {
    match e
    case Elsewhere(se) => s.(server := Fencing.Apply(s.server, se))
    case InJob(je) => s.(job := JobRun.Apply(s.job, je))
    case Calls(je, number) =>
      var s' := s.(job := JobRun.Apply(s.job, je),
                   server := Fencing.Apply(s.server, Fencing.Issue(RequestOf(s, je, number), s.policy)));
      if Disposes(s.job, je) then s'.(disposal := Some(number)) else s'.(extension := Some(number))
  }

  ghost predicate CanRun(s: Sys, es: seq<Step>)
    decreases |es|
  {
    es == [] || (CanStep(s, es[0]) && CanRun(After(s, es[0]), es[1..]))
  }

  ghost function Ran(s: Sys, es: seq<Step>): Sys
    requires CanRun(s, es)
    decreases |es|
  {
    if es == [] then s else Ran(After(s, es[0]), es[1..])
  }

  // ---------------------------------------------------------------- the invariant

  /** The request of the job's own ack or nack. */
  predicate Disposal(s: Sys, r: Fencing.Request) {
    && |s.job.calls| == 1 && s.disposal.Some?
    && r == Fencing.Request(s.disposal.value, s.id, s.attempt, VerbOf(s.job.calls[0]))
  }

  predicate OwnOrHarmless(s: Sys, r: Fencing.Request) {
    Mine(s, r) && !r.verb.Extend? ==> Disposal(s, r)
  }

  /** Every ack or nack sent for the delivery is the job's own. */
  ghost predicate OnlyOwnSends(s: Sys) {
    forall c :: c in s.server.sent ==> OwnOrHarmless(s, c.request)
  }

  ghost predicate OnlyOwnCalls(s: Sys) {
    && (forall k :: k in s.server.calls ==> OwnOrHarmless(s, s.server.calls[k].request))
    && (s.job.calls == [] <==> s.disposal.None?)
    && (s.disposal.Some? ==>
          s.disposal.value in s.server.calls && Disposal(s, s.server.calls[s.disposal.value].request))
    && (s.extension.Some? ==>
          && s.extension.value in s.server.calls
          && Mine(s, s.server.calls[s.extension.value].request)
          && s.server.calls[s.extension.value].request.verb.Extend?)
  }

  ghost predicate Inv(s: Sys) {
    && JobRun.Inv(s.job) && Fencing.Inv(s.server) && Fencing.SendsSound(s.server)
    && (s.id, s.attempt) in s.server.handed
    && |s.job.calls| <= 1
    && OnlyOwnSends(s) && OnlyOwnCalls(s)
  }

  lemma CallsAreFew(job: JobRun.State, e: JobRun.Event)
    requires JobRun.Inv(job) && JobRun.Enabled(job, e)
    ensures Disposes(job, e) ==> job.calls == [] && |JobRun.Apply(job, e).calls| == 1
    ensures !Disposes(job, e) ==> JobRun.Apply(job, e).calls == job.calls
  {
  }

  lemma ServerStepKeepsOwn(s: Sys, e: Fencing.Event)
    requires Inv(s) && CanStep(s, Elsewhere(e))
    ensures OnlyOwnSends(After(s, Elsewhere(e))) && OnlyOwnCalls(After(s, Elsewhere(e)))
  {
    hide JobRun.Inv, Fencing.Inv, Fencing.SlotsAfter, Fencing.ReplyTo;
    var s' := After(s, Elsewhere(e));
    forall c | c in s'.server.sent ensures OwnOrHarmless(s', c.request) {
      if c !in s.server.sent && e.Answered? {
        assert c.request == s.server.calls[e.call].request;
      }
    }
  }

  lemma JobCallKeepsOwn(s: Sys, e: JobRun.Event, number: nat)
    requires Inv(s) && CanStep(s, Calls(e, number))
    ensures OnlyOwnSends(After(s, Calls(e, number))) && OnlyOwnCalls(After(s, Calls(e, number)))
  {
    CallsAreFew(s.job, e);
    hide JobRun.Inv, JobRun.Apply, JobRun.Enabled, Fencing.Inv, Fencing.SlotsAfter;
  }

  lemma StepKeepsInv(s: Sys, e: Step)
    requires Inv(s) && CanStep(s, e)
    ensures Inv(After(s, e))
  {
    match e
    case Elsewhere(se) =>
      Fencing.StepKeepsInv(s.server, se);
      Fencing.StepKeepsSends(s.server, se);
      ServerStepKeepsOwn(s, se);
    case InJob(je) =>
      JobRun.StepKeepsInv(s.job, je);
      CallsAreFew(s.job, je);
    case Calls(je, number) =>
      JobRun.StepKeepsInv(s.job, je);
      CallsAreFew(s.job, je);
      Fencing.StepKeepsInv(s.server, Fencing.Issue(RequestOf(s, je, number), s.policy));
      Fencing.StepKeepsSends(s.server, Fencing.Issue(RequestOf(s, je, number), s.policy));
      JobCallKeepsOwn(s, je, number);
  }

  lemma {:induction false} RunKeepsInv(s: Sys, es: seq<Step>)
    requires Inv(s) && CanRun(s, es)
    ensures Inv(Ran(s, es))
    ensures Ran(s, es).id == s.id && Ran(s, es).attempt == s.attempt
    decreases |es|
  {
    if es != [] {
      StepKeepsInv(s, es[0]);
      hide Inv, CanStep;
      RunKeepsInv(After(s, es[0]), es[1..]);
    }
  }

  /** The attempt is new: nobody can have sent anything under it. */
  lemma BeginIsSound(server: Fencing.Sys, id: Fencing.JobId, policy: Retry.Policy, autoExtend: bool)
    requires Fencing.Inv(server) && Fencing.SendsSound(server) && Fencing.Enabled(server, Fencing.Deliver(id))
    ensures Inv(Begin(server, id, policy, autoExtend))
  {
    var e := Fencing.Deliver(id);
    Fencing.StepKeepsInv(server, e);
    Fencing.StepKeepsSends(server, e);
    var s := Begin(server, id, policy, autoExtend);
    assert (id, s.attempt) !in server.handed by {
      assert !Fencing.Dead(server.slots, id, s.attempt) && !Fencing.Current(server.slots, id, s.attempt);
    }
  }

  // ---------------------------------------------------------------------- theorems

  lemma CommitIsOwn(s: Sys, r: Fencing.Request)
    requires Inv(s) && r in s.server.commits && Mine(s, r)
    ensures Disposal(s, r)
  {
    assert Fencing.CommitAnswered(s.server, r);
    var k: nat :| (Fencing.Send(r, k), Fencing.Done) in s.server.replies;
    assert Fencing.Send(r, k) in s.server.sent;
    assert OwnOrHarmless(s, r);
  }

  /** The server took at most one ack or nack for the delivery; that one is what the
      handler's outcome asks for, and there is none unless the job owed one; and there is
      one if the job's call succeeded. */
  ghost predicate SettledAsHandled(s: Sys) {
    var commits := s.server.commits;
    && (forall i, j :: 0 <= i < j < |commits| && Mine(s, commits[i]) ==> !Mine(s, commits[j]))
    && (forall r :: r in commits && Mine(s, r) ==>
          && s.job.calls == JobRun.OwedCalls(s.job) && s.job.calls != []
          && r.verb == VerbOf(s.job.calls[0])
          && (r.verb.Ack? <==> s.job.handler == JobRun.Ended(JobRun.Returned))
          && !s.job.leaseLost && !s.job.cut && !JobRun.Uncaught(s.job))
    && (ResultOf(s, s.disposal) == Some(Fencing.Succeeded) ==> exists r :: r in commits && Mine(s, r))
  }

  lemma Settled(s: Sys)
    requires Inv(s)
    ensures SettledAsHandled(s)
  {
    forall r | r in s.server.commits && Mine(s, r)
      ensures s.job.calls == JobRun.OwedCalls(s.job) && s.job.calls != [] && r.verb == VerbOf(s.job.calls[0])
    {
      CommitIsOwn(s, r);
    }
    if ResultOf(s, s.disposal) == Some(Fencing.Succeeded) {
      var c := s.server.calls[s.disposal.value];
      assert Fencing.CallSound(s.server, c);
      assert c.request in s.server.commits && Mine(s, c.request);
    }
    forall i, j | 0 <= i < j < |s.server.commits| && Mine(s, s.server.commits[i])
      ensures !Mine(s, s.server.commits[j])
    {
      var a, b := s.server.commits[i], s.server.commits[j];
      assert (a.job, a.attempt) != (b.job, b.attempt);
    }
  }

  /** From the handler to the server.  However often the job's ack or nack is retried,
      delayed or lost, the server takes at most one for the delivery, an ack exactly if the
      handler returned, and none if the lease was lost or a cancellation came first; at
      every moment of the run, and so ever after. */
  lemma DeliveryIsSettledAsHandled(duplicates: bool, before: seq<Fencing.Event>, id: Fencing.JobId,
                                   policy: Retry.Policy, autoExtend: bool, es: seq<Step>)
    requires Fencing.Valid(Fencing.Init(duplicates), before)
    requires var server := Fencing.Exec(Fencing.Init(duplicates), before);
             Fencing.Enabled(server, Fencing.Deliver(id)) && CanRun(Begin(server, id, policy, autoExtend), es)
    ensures var s := Ran(Begin(Fencing.Exec(Fencing.Init(duplicates), before), id, policy, autoExtend), es);
            SettledAsHandled(s) && s.id == id
  {
    hide SettledAsHandled, Inv;
    var server := Fencing.Exec(Fencing.Init(duplicates), before);
    Fencing.RunKeepsInv(Fencing.Init(duplicates), before);
    Fencing.InitSends(duplicates);
    Fencing.RunKeepsSends(Fencing.Init(duplicates), before);
    BeginIsSound(server, id, policy, autoExtend);
    RunKeepsInv(Begin(server, id, policy, autoExtend), es);
    Settled(Ran(Begin(server, id, policy, autoExtend), es));
  }

  /** When the heartbeat gives a lease up because the server says it was reassigned, it was:
      the delivery is over at the server, for good. */
  lemma ReassignedIsTrue(s: Sys)
    requires Inv(s) && CanStep(s, InJob(JobRun.ExtendReassigned))
    ensures Fencing.Dead(s.server.slots, s.id, s.attempt)
  {
    var c := s.server.calls[s.extension.value];
    assert Fencing.CallSound(s.server, c);
    var code :| (Fencing.Awaited(c), Fencing.Refused(code)) in s.server.replies;
  }
}
