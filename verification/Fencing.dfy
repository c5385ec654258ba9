/** Attempt fencing: many workers acking, nacking and extending through retried calls,
    against a server that redelivers a job under a higher attempt when its lease lapses
    (SeppClient.ack, nack, _extend_inner; the server as its stub docs and README.md
    "Leases and redelivery" describe it).

    A call sends its request once a try, and these sends are told apart.  The network may
    delay, reorder and lose: the server may serve a send at any later moment, before or
    after later ones.  It serves each at most once, or, if the network also duplicates, any
    number of times; only the last theorem depends on which.  A client hears a status of
    the server's only if the server produced it for the send it is waiting for.  Any other
    status may reach it at any time, whether or not the request took effect. */
module Fencing {
  import opened Status
  import opened Options
  import Retry

  type JobId = string

  /** What the server keeps of a job. */
  datatype Slot = Ready(next: nat) | InFlight(attempt: nat) | Gone

  datatype Verb = Ack | Nack | Extend

  datatype Request = Request(call: nat, job: JobId, attempt: nat, verb: Verb)

  /** Try number `try` of a call. */
  datatype Send = Send(request: Request, try: nat)

  datatype Reply = Done | Refused(code: Code)

  datatype CallResult = Succeeded | Failed(error: SeppError)

  datatype CallState =
    CallState(request: Request, policy: Retry.Policy, tries: nat, result: Option<CallResult>)

  datatype Sys = Sys(
    slots: map<JobId, Slot>,
    calls: map<nat, CallState>,
    duplicates: bool,                    // the network may deliver a send more than once
    handed: set<(JobId, nat)>,           // history: deliveries made
    sent: set<Send>,                     // history
    replies: set<(Send, Reply)>,         // history
    commits: seq<Request>)               // history: acks and nacks that took effect

  datatype Event =
    | NewJob(job: JobId)
    | Deliver(job: JobId)
    | Expire(job: JobId, dead: bool)
    | Remove(job: JobId)                 // an operator dead-letters or deletes the job
    | Issue(request: Request, policy: Retry.Policy)
    | Serve(served: Send, deadLetters: bool)
    | Answered(call: nat, answer: Retry.Answer<()>)

  function Init(duplicates: bool): Sys {
    Sys(map[], map[], duplicates, {}, {}, {}, [])
  }

  /** What the server answers. */
  function ReplyTo(slots: map<JobId, Slot>, r: Request): Reply {
    if r.job !in slots || !slots[r.job].InFlight? then Refused(NotFound)
    else if slots[r.job].attempt != r.attempt then Refused(FailedPrecondition)
    else Done
  }

  /** Serving this request takes the job out of its current delivery. */
  predicate Commits(slots: map<JobId, Slot>, r: Request) {
    !r.verb.Extend? && ReplyTo(slots, r).Done?
  }

  function Requeued(attempt: nat, dead: bool): Slot {
    if dead then Gone else Ready(attempt + 1)
  }

  function SlotsAfterServe(slots: map<JobId, Slot>, r: Request, deadLetters: bool): map<JobId, Slot> {
    if !Commits(slots, r) then slots
    else slots[r.job := if r.verb.Ack? then Gone else Requeued(r.attempt, deadLetters)]
  }

  /** The server's own part of an event. */
  function SlotsAfter(slots: map<JobId, Slot>, e: Event): map<JobId, Slot> {
    match e
    case NewJob(job) => if job in slots then slots else slots[job := Ready(1)]
    case Deliver(job) =>
      if job in slots && slots[job].Ready? then slots[job := InFlight(slots[job].next)] else slots
    case Expire(job, dead) =>
      if job in slots && slots[job].InFlight? then slots[job := Requeued(slots[job].attempt, dead)] else slots
    case Remove(job) => if job in slots then slots[job := Gone] else slots
    case Serve(send, deadLetters) => SlotsAfterServe(slots, send.request, deadLetters)
    case _ => slots
  }

  predicate Enabled(s: Sys, e: Event) {
    match e
    case NewJob(job) => job !in s.slots
    case Deliver(job) => job in s.slots && s.slots[job].Ready?
    case Expire(job, _) => job in s.slots && s.slots[job].InFlight?
    case Remove(job) => job in s.slots
    case Issue(r, _) => r.call !in s.calls && (r.job, r.attempt) in s.handed
    case Serve(send, _) => send in s.sent && (!s.duplicates ==> !Served(s, send))
    case Answered(call, answer) =>
      && call in s.calls && s.calls[call].result.None?
      && var send := Awaited(s.calls[call]);
         match answer
         case Ok(_) => (send, Done) in s.replies
         case RpcError(code) => code in {NotFound, FailedPrecondition} ==> (send, Refused(code)) in s.replies
  }

  predicate Served(s: Sys, send: Send) {
    exists p :: p in s.replies && p.0 == send
  }

  /** The send a call is waiting for, or the last one it made. */
  function Awaited(c: CallState): Send {
    Send(c.request, c.tries)
  }

  function Apply(s: Sys, e: Event): Sys
    requires Enabled(s, e)
  {
    var s' := s.(slots := SlotsAfter(s.slots, e));
    match e
    case Deliver(job) => s'.(handed := s.handed + {(job, s.slots[job].next)})
    case Issue(r, policy) =>
      s'.(sent := s.sent + {Send(r, 1)}, calls := s.calls[r.call := CallState(r, policy, 1, None)])
    case Serve(send, _) =>
      s'.(replies := s.replies + {(send, ReplyTo(s.slots, send.request))},
          commits := s.commits + Committed(s.slots, e))
    case Answered(call, answer) =>
      var c := AfterAnswer(s.calls[call], answer);
      s'.(calls := s.calls[call := c], sent := if c.result.None? then s.sent + {Awaited(c)} else s.sent)
    case _ => s'
  }

  /** The ack or nack that takes effect at the server in this event, if any. */
  function Committed(slots: map<JobId, Slot>, e: Event): seq<Request> {
    if e.Serve? && Commits(slots, e.served.request) then [e.served.request] else []
  }

  /** One turn of the retry loop, and the error the caller gets when it ends. */
  function AfterAnswer(c: CallState, answer: Retry.Answer<()>): CallState {
    match answer
    case Ok(_) => c.(result := Some(Succeeded))
    case RpcError(code) =>
      if Retry.GivesUp(c.policy, RETRYABLE_CODES, c.tries, code)
      then c.(result := Some(Failed(LeaseErrorFromRpc(code))))
      else c.(tries := c.tries + 1)
  }

  ghost predicate Valid(s: Sys, es: seq<Event>)
    decreases |es|
  {
    es == [] || (Enabled(s, es[0]) && Valid(Apply(s, es[0]), es[1..]))
  }

  ghost function Exec(s: Sys, es: seq<Event>): Sys
    requires Valid(s, es)
    decreases |es|
  {
    if es == [] then s else Exec(Apply(s, es[0]), es[1..])
  }

  // -------------------------------------------------------------------- invariants

  /** The delivery can never be in flight again. */
  predicate Dead(slots: map<JobId, Slot>, job: JobId, attempt: nat) {
    && job in slots
    && match slots[job]
       case Ready(next) => attempt < next
       case InFlight(current) => attempt < current
       case Gone => true
  }

  predicate Current(slots: map<JobId, Slot>, job: JobId, attempt: nat) {
    job in slots && slots[job] == InFlight(attempt)
  }

  ghost predicate DeliveriesSound(s: Sys) {
    && (forall d :: d in s.handed ==> Dead(s.slots, d.0, d.1) || Current(s.slots, d.0, d.1))
    && (forall c :: c in s.sent ==> (c.request.job, c.request.attempt) in s.handed)
    && (forall k :: k in s.calls ==> (s.calls[k].request.job, s.calls[k].request.attempt) in s.handed)
  }

  ghost predicate CommitsSound(s: Sys) {
    && (forall r :: r in s.commits ==> Dead(s.slots, r.job, r.attempt))
    && (forall i, j :: 0 <= i < j < |s.commits| ==>
          (s.commits[i].job, s.commits[i].attempt) != (s.commits[j].job, s.commits[j].attempt))
  }

  ghost predicate RepliesSound(s: Sys) {
    forall p :: p in s.replies ==>
      var r := p.0.request;
      if p.1.Refused? then Dead(s.slots, r.job, r.attempt)
      else !r.verb.Extend? ==> r in s.commits
  }

  predicate IsLeaseError(e: SeppError) {
    e.JobNotFoundError? || e.AttemptMismatchError?
  }

  ghost predicate CallsSound(s: Sys) {
    forall c :: c in s.calls && s.calls[c].result.Some? ==> CallSound(s, s.calls[c])
  }

  ghost predicate CallSound(s: Sys, c: CallState)
    requires c.result.Some?
  {
    match c.result.value
    case Succeeded => (Awaited(c), Done) in s.replies
    case Failed(error) =>
      IsLeaseError(error) ==> exists code :: (Awaited(c), Refused(code)) in s.replies
  }

  ghost predicate Inv(s: Sys) {
    DeliveriesSound(s) && CommitsSound(s) && RepliesSound(s) && CallsSound(s)
  }

  lemma DeadStaysDead(slots: map<JobId, Slot>, e: Event, job: JobId, attempt: nat)
    requires Dead(slots, job, attempt)
    ensures Dead(SlotsAfter(slots, e), job, attempt)
  {
  }

  /** A dead delivery's requests are refused and change nothing. */
  lemma DeadIsInert(slots: map<JobId, Slot>, r: Request, deadLetters: bool)
    requires Dead(slots, r.job, r.attempt)
    ensures ReplyTo(slots, r).Refused?
    ensures SlotsAfterServe(slots, r, deadLetters) == slots
  {
  }

  lemma CurrentOrDead(slots: map<JobId, Slot>, e: Event, job: JobId, attempt: nat)
    requires Dead(slots, job, attempt) || Current(slots, job, attempt)
    ensures Dead(SlotsAfter(slots, e), job, attempt) || Current(SlotsAfter(slots, e), job, attempt)
  {
  }

  lemma StepKeepsDeliveries(s: Sys, e: Event)
    requires DeliveriesSound(s) && Enabled(s, e)
    ensures DeliveriesSound(Apply(s, e))
  {
    hide Dead, SlotsAfter;
    var s' := Apply(s, e);
    forall d | d in s'.handed ensures Dead(s'.slots, d.0, d.1) || Current(s'.slots, d.0, d.1) {
      if d in s.handed {
        CurrentOrDead(s.slots, e, d.0, d.1);
      } else {
        NewlyHanded(s, e.job);
      }
    }
  }

  lemma NewlyHanded(s: Sys, job: JobId)
    requires Enabled(s, Deliver(job))
    ensures Current(SlotsAfter(s.slots, Deliver(job)), job, s.slots[job].next)
  {
  }

  lemma StepKeepsCommits(s: Sys, e: Event)
    requires CommitsSound(s) && Enabled(s, e)
    ensures CommitsSound(Apply(s, e))
  {
    var s' := Apply(s, e);
    forall r | r in s.commits ensures Dead(s'.slots, r.job, r.attempt) {
      DeadStaysDead(s.slots, e, r.job, r.attempt);
    }
  }

  lemma StepKeepsReplies(s: Sys, e: Event)
    requires DeliveriesSound(s) && RepliesSound(s) && Enabled(s, e)
    ensures RepliesSound(Apply(s, e))
  {
    var s' := Apply(s, e);
    forall p | p in s'.replies && p.1.Refused?
      ensures Dead(s'.slots, p.0.request.job, p.0.request.attempt)
    {
      if p !in s.replies {
        assert p.0 in s.sent;
      }
      DeadStaysDead(s.slots, e, p.0.request.job, p.0.request.attempt);
    }
  }

  lemma StepKeepsCalls(s: Sys, e: Event)
    requires CallsSound(s) && Enabled(s, e)
    ensures CallsSound(Apply(s, e))
  {
    hide SlotsAfter;
    var s' := Apply(s, e);
    forall c | c in s'.calls && s'.calls[c].result.Some? ensures CallSound(s', s'.calls[c]) {
      if c in s.calls && s.calls[c].result.Some? {
        assert s'.calls[c] == s.calls[c];
        assert CallSound(s, s.calls[c]);
      }
    }
  }

  lemma StepKeepsInv(s: Sys, e: Event)
    requires Inv(s) && Enabled(s, e)
    ensures Inv(Apply(s, e))
  {
    StepKeepsDeliveries(s, e);
    StepKeepsCommits(s, e);
    StepKeepsReplies(s, e);
    StepKeepsCalls(s, e);
  }

  lemma {:induction false} RunKeepsInv(s: Sys, es: seq<Event>)
    requires Inv(s) && Valid(s, es)
    ensures Inv(Exec(s, es))
    ensures s.commits <= Exec(s, es).commits
    decreases |es|
  {
    hide Inv;
    if es != [] {
      StepKeepsInv(s, es[0]);
      RunKeepsInv(Apply(s, es[0]), es[1..]);
    }
  }

  // ---------------------------------------------------------------------- theorems

  /** Each delivery (job, attempt) has at most one committed ack or nack, whatever the
      workers, the network and lease expiry do. */
  lemma AtMostOneCommit(duplicates: bool, es: seq<Event>, i: nat, j: nat)
    requires Valid(Init(duplicates), es)
    requires i < |Exec(Init(duplicates), es).commits| && j < |Exec(Init(duplicates), es).commits|
    ensures var commits := Exec(Init(duplicates), es).commits;
            commits[i].job == commits[j].job && commits[i].attempt == commits[j].attempt ==> i == j
  {
    RunKeepsInv(Init(duplicates), es);
    var commits := Exec(Init(duplicates), es).commits;
    if i < j {
      assert (commits[i].job, commits[i].attempt) != (commits[j].job, commits[j].attempt);
    } else if j < i {
      assert (commits[j].job, commits[j].attempt) != (commits[i].job, commits[i].attempt);
    }
  }

  lemma {:induction false} DeadForever(s: Sys, es: seq<Event>, job: JobId, attempt: nat)
    requires Valid(s, es) && Dead(s.slots, job, attempt)
    ensures Dead(Exec(s, es).slots, job, attempt)
    ensures forall r :: r in Exec(s, es).commits && r.job == job && r.attempt == attempt ==> r in s.commits
    decreases |es|
  {
    if es != [] {
      var s' := Apply(s, es[0]);
      DeadStaysDead(s.slots, es[0], job, attempt);
      if es[0].Serve? && es[0].served.request.job == job && es[0].served.request.attempt == attempt {
        DeadIsInert(s.slots, es[0].served.request, es[0].deadLetters);
      }
      DeadForever(s', es[1..], job, attempt);
    }
  }

  /** Once a job has been redelivered, no request carrying an older attempt changes
      anything at the server: it is refused, then and at any later moment. */
  lemma OldAttemptsAreFenced(duplicates: bool, before: seq<Event>, after: seq<Event>,
                             job: JobId, older: nat, newer: nat, r: Request, deadLetters: bool)
    requires Valid(Init(duplicates), before) && Valid(Exec(Init(duplicates), before), after)
    requires (job, newer) in Exec(Init(duplicates), before).handed && older < newer
    requires r.job == job && r.attempt == older
    ensures var s := Exec(Exec(Init(duplicates), before), after);
            && SlotsAfterServe(s.slots, r, deadLetters) == s.slots
            && ReplyTo(s.slots, r)
               == Refused(if exists a :: Current(s.slots, job, a) then FailedPrecondition else NotFound)
  {
    RunKeepsInv(Init(duplicates), before);
    var s := Exec(Init(duplicates), before);
    assert Dead(s.slots, job, newer) || Current(s.slots, job, newer);
    DeadForever(s, after, job, older);
    DeadIsInert(Exec(s, after).slots, r, deadLetters);
    var slots := Exec(s, after).slots;
    if job in slots && slots[job].InFlight? {
      assert Current(slots, job, slots[job].attempt);
    }
  }

  /** Attempts count up by one: a lapsed or nacked delivery that is not dead-lettered is
      followed by the next attempt. */
  lemma RedeliveryIsNextAttempt(slots: map<JobId, Slot>, job: JobId, attempt: nat, r: Request)
    requires Current(slots, job, attempt)
    requires r.job == job && r.attempt == attempt && r.verb.Nack?
    ensures Current(SlotsAfter(SlotsAfter(slots, Expire(job, false)), Deliver(job)), job, attempt + 1)
    ensures Current(SlotsAfter(SlotsAfterServe(slots, r, false), Deliver(job)), job, attempt + 1)
  {
  }

  /** A lease error is a final verdict.  When an ack, nack or extend ends with
      JobNotFoundError or AttemptMismatchError, its delivery is over for good: it is not in
      flight, never will be, and no ack or nack for it commits from then on. */
  lemma LeaseErrorIsFinal(duplicates: bool, before: seq<Event>, after: seq<Event>, call: nat)
    requires Valid(Init(duplicates), before) && Valid(Exec(Init(duplicates), before), after)
    requires var s := Exec(Init(duplicates), before);
             && call in s.calls && s.calls[call].result.Some?
             && s.calls[call].result.value.Failed? && IsLeaseError(s.calls[call].result.value.error)
    ensures var s, s' := Exec(Init(duplicates), before), Exec(Exec(Init(duplicates), before), after);
            var r := s.calls[call].request;
            && Dead(s.slots, r.job, r.attempt) && Dead(s'.slots, r.job, r.attempt)
            && forall c :: c in s'.commits && c.job == r.job && c.attempt == r.attempt ==> c in s.commits
  {
    RunKeepsInv(Init(duplicates), before);
    var s := Exec(Init(duplicates), before);
    var r := s.calls[call].request;
    assert CallSound(s, s.calls[call]);
    var code :| (Awaited(s.calls[call]), Refused(code)) in s.replies;
    DeadForever(s, after, r.job, r.attempt);
  }

  /** Success is exactly one commit: when an ack or nack succeeds, it took effect, and no
      other ack or nack for its delivery did or will. */
  lemma SuccessIsTheOneCommit(duplicates: bool, before: seq<Event>, after: seq<Event>, call: nat)
    requires Valid(Init(duplicates), before) && Valid(Exec(Init(duplicates), before), after)
    requires var s := Exec(Init(duplicates), before);
             call in s.calls && s.calls[call].result == Some(Succeeded) && !s.calls[call].request.verb.Extend?
    ensures var r := Exec(Init(duplicates), before).calls[call].request;
            var commits := Exec(Exec(Init(duplicates), before), after).commits;
            && r in commits
            && forall c :: c in commits && c.job == r.job && c.attempt == r.attempt ==> c == r
  {
    RunKeepsInv(Init(duplicates), before);
    var s := Exec(Init(duplicates), before);
    var r := s.calls[call].request;
    assert CallSound(s, s.calls[call]);
    assert (Awaited(s.calls[call]), Done) in s.replies && r in s.commits;
    RunKeepsInv(s, after);
    DeadForever(s, after, r.job, r.attempt);
    forall c | c in s.commits && c.job == r.job && c.attempt == r.attempt ensures c == r {
      var i :| 0 <= i < |s.commits| && s.commits[i] == c;
      var j :| 0 <= j < |s.commits| && s.commits[j] == r;
      AtMostOneCommit(duplicates, before, i, j);
    }
  }

  // ------------------------------------------------------------ retries are invisible

  /** The events of a run without the retries: of all the sends of a request only the one
      served first is kept, whatever came of it. */
  function FirstServes(es: seq<Event>, seen: set<Request>): seq<Event> {
    if es == [] then []
    else if !es[0].Serve? then [es[0]] + FirstServes(es[1..], seen)
    else
      var r := es[0].served.request;
      (if r in seen then [] else [es[0]]) + FirstServes(es[1..], seen + {r})
  }

  /** The server alone: what it keeps, and what took effect there. */
  datatype Server = Server(slots: map<JobId, Slot>, commits: seq<Request>)

  function ServerOf(s: Sys): Server {
    Server(s.slots, s.commits)
  }

  function ServerAfter(v: Server, e: Event): Server {
    Server(SlotsAfter(v.slots, e), v.commits + Committed(v.slots, e))
  }

  function Replay(v: Server, es: seq<Event>): Server
    decreases |es|
  {
    if es == [] then v else Replay(ServerAfter(v, es[0]), es[1..])
  }

  /** The acks and nacks served already: their deliveries are over. */
  ghost predicate SeenAreDead(slots: map<JobId, Slot>, seen: set<Request>) {
    forall r :: r in seen && !r.verb.Extend? ==> Dead(slots, r.job, r.attempt)
  }

  function SeenAfter(seen: set<Request>, e: Event): set<Request> {
    if e.Serve? then seen + {e.served.request} else seen
  }

  lemma FirstServeEndsDelivery(s: Sys, e: Event, seen: set<Request>)
    requires DeliveriesSound(s) && Enabled(s, e) && SeenAreDead(s.slots, seen)
    ensures SeenAreDead(SlotsAfter(s.slots, e), SeenAfter(seen, e))
  {
    hide Enabled;
    forall r | r in seen && !r.verb.Extend? ensures Dead(SlotsAfter(s.slots, e), r.job, r.attempt) {
      DeadStaysDead(s.slots, e, r.job, r.attempt);
    }
    if e.Serve? && !e.served.request.verb.Extend? {
      ServedIsDead(s, e);
    }
  }

  lemma ServedIsDead(s: Sys, e: Event)
    requires DeliveriesSound(s) && Enabled(s, e) && e.Serve? && !e.served.request.verb.Extend?
    ensures Dead(SlotsAfter(s.slots, e), e.served.request.job, e.served.request.attempt)
  {
    var r := e.served.request;
    assert e.served in s.sent;
    assert Dead(s.slots, r.job, r.attempt) || Current(s.slots, r.job, r.attempt) by {
      assert (r.job, r.attempt) in s.handed;
    }
  }

  /** A retry that reaches the server changes nothing, be it of a request that was refused
      or of one that committed. */
  lemma RepeatIsInert(v: Server, e: Event, seen: set<Request>)
    requires SeenAreDead(v.slots, seen) && e.Serve? && e.served.request in seen
    ensures ServerAfter(v, e) == v
  {
    var r := e.served.request;
    if !r.verb.Extend? {
      DeadIsInert(v.slots, r, e.deadLetters);
    }
    assert v.commits + [] == v.commits;
  }

  lemma ServerPart(s: Sys, e: Event)
    requires Enabled(s, e)
    ensures ServerOf(Apply(s, e)) == ServerAfter(ServerOf(s), e)
  {
  }

  lemma FirstServesReplay(v: Server, es: seq<Event>, seen: set<Request>)
    requires es != [] && SeenAreDead(v.slots, seen)
    ensures Replay(v, FirstServes(es, seen))
         == Replay(ServerAfter(v, es[0]), FirstServes(es[1..], SeenAfter(seen, es[0])))
  {
    var rest := FirstServes(es[1..], SeenAfter(seen, es[0]));
    if es[0].Serve? && es[0].served.request in seen {
      RepeatIsInert(v, es[0], seen);
      assert FirstServes(es, seen) == rest;
    } else {
      assert FirstServes(es, seen) == [es[0]] + rest;
      assert ([es[0]] + rest)[1..] == rest;
    }
  }

  lemma {:induction false} RepeatsChangeNothing(s: Sys, es: seq<Event>, seen: set<Request>)
    requires Inv(s) && Valid(s, es) && SeenAreDead(s.slots, seen)
    ensures Replay(ServerOf(s), FirstServes(es, seen)) == ServerOf(Exec(s, es))
    decreases |es|
  {
    if es != [] {
      FirstServeEndsDelivery(s, es[0], seen);
      FirstServesReplay(ServerOf(s), es, seen);
      hide Inv, DeliveriesSound, SeenAreDead, Enabled, Apply, SlotsAfter, ServerAfter, Replay, FirstServes;
      StepKeepsInv(s, es[0]);
      ServerPart(s, es[0]);
      RepeatsChangeNothing(Apply(s, es[0]), es[1..], SeenAfter(seen, es[0]));
    }
  }

  /** Retrying leaves the server as one send would.  Take any run, and of all the sends of
      each call let only the first that reaches the server reach it: the server ends in the
      same state, having committed the same acks and nacks in the same order.  In
      particular no retry commits after a first try that was refused. */
  lemma RetriesAreInvisible(duplicates: bool, es: seq<Event>)
    requires Valid(Init(duplicates), es)
    ensures Replay(Server(map[], []), FirstServes(es, {})) == ServerOf(Exec(Init(duplicates), es))
  {
    RepeatsChangeNothing(Init(duplicates), es, {});
  }

  // ----------------------------------------------------- what a call makes of answers

  /** The last answer a call heard along a run. */
  function LastAnswer(es: seq<Event>, call: nat): Option<Retry.Answer<()>> {
    if es == [] then None
    else
      var e := es[|es| - 1];
      if e.Answered? && e.call == call then Some(e.answer) else LastAnswer(es[..|es| - 1], call)
  }

  /** What a caller is told on an answer: the two refusals are lease errors, nothing else is. */
  predicate Reports(result: CallResult, answer: Retry.Answer<()>) {
    match answer
    case Ok(_) => result == Succeeded
    case RpcError(NotFound) => result == Failed(JobNotFoundError)
    case RpcError(FailedPrecondition) => result == Failed(AttemptMismatchError)
    case RpcError(_) => result.Failed? && !IsLeaseError(result.error)
  }

  /** An answer ends its call exactly if it is a success, the tries are used up, or the
      status is not one of the four transient ones; otherwise the next try is sent. */
  lemma AnswerEndsCallExactly(s: Sys, call: nat, answer: Retry.Answer<()>)
    requires Enabled(s, Answered(call, answer))
    ensures var c, s' := s.calls[call], Apply(s, Answered(call, answer));
            && (s'.calls[call].result.Some? <==>
                  answer.Ok? || c.tries >= c.policy.maxAttempts ||
                  !(answer.code.Unavailable? || answer.code.DeadlineExceeded? || answer.code.Aborted?
                    || answer.code.ResourceExhausted?))
            && (s'.calls[call].result.Some? ==> Reports(s'.calls[call].result.value, answer))
            && (s'.calls[call].result.None? ==>
                  s'.calls[call].tries == c.tries + 1 && Send(c.request, c.tries + 1) in s'.sent)
  {
  }

  lemma {:induction false} ResultFollowsAnswer(s: Sys, es: seq<Event>, before: seq<Event>, call: nat)
    requires Valid(s, es)
    requires call in s.calls && s.calls[call].result.Some? ==>
               LastAnswer(before, call).Some? && Reports(s.calls[call].result.value, LastAnswer(before, call).value)
    ensures var s' := Exec(s, es);
            call in s'.calls && s'.calls[call].result.Some? ==>
              && LastAnswer(before + es, call).Some?
              && Reports(s'.calls[call].result.value, LastAnswer(before + es, call).value)
    decreases |es|
  {
    if es == [] {
      assert before + es == before;
    } else {
      var e := es[0];
      var seen := before + [e];
      assert seen[..|seen| - 1] == before;
      if e.Answered? && e.call == call {
        AnswerEndsCallExactly(s, call, e.answer);
      }
      assert call in Apply(s, e).calls && Apply(s, e).calls[call].result.Some? && !(e.Answered? && e.call == call) ==>
        call in s.calls && Apply(s, e).calls[call] == s.calls[call];
      hide Enabled, Apply, Reports;
      ResultFollowsAnswer(Apply(s, e), es[1..], seen, call);
      assert seen + es[1..] == before + es;
    }
  }

  /** In every run a finished call reports the last answer it heard: JobNotFoundError exactly
      on NOT_FOUND, AttemptMismatchError exactly on FAILED_PRECONDITION, success exactly on
      a success.  With LeaseErrorIsFinal: a lease error is exactly a refusal heard. */
  lemma ReportsWhatItHeard(duplicates: bool, es: seq<Event>, call: nat)
    requires Valid(Init(duplicates), es)
    requires var s := Exec(Init(duplicates), es);
             call in s.calls && s.calls[call].result.Some?
    ensures var result, heard := Exec(Init(duplicates), es).calls[call].result.value, LastAnswer(es, call);
            && heard.Some? && Reports(result, heard.value)
            && (result == Failed(JobNotFoundError) <==> heard.value == Retry.RpcError(NotFound))
            && (result == Failed(AttemptMismatchError) <==> heard.value == Retry.RpcError(FailedPrecondition))
            && (result.Succeeded? <==> heard.value.Ok?)
  {
    ResultFollowsAnswer(Init(duplicates), es, [], call);
    assert [] + es == es;
  }

  // ------------------------------------------------- when the caller is told the truth

  /** The call's ack or nack took effect, and its caller is told that the lease is lost. */
  ghost predicate Misreported(s: Sys, call: nat) {
    && call in s.calls && s.calls[call].request in s.commits
    && s.calls[call].result.Some? && s.calls[call].result.value.Failed?
    && IsLeaseError(s.calls[call].result.value.error)
  }

  /** Sends belong to calls, one per try; each is answered once unless the network
      duplicates; what is committed was answered so. */
  ghost predicate SendsSound(s: Sys) {
    && (forall c :: c in s.sent ==> 1 <= c.try && SentBy(s, c))
    && (forall p :: p in s.replies ==> p.0 in s.sent)
    && (!s.duplicates ==> forall p, q :: p in s.replies && q in s.replies && p.0 == q.0 ==> p == q)
    && (forall r :: r in s.commits ==> CommitAnswered(s, r))
    && (forall k :: k in s.calls ==> CallCounts(s.calls[k], k))
  }

  predicate CallCounts(c: CallState, k: nat) {
    && c.request.call == k && c.tries >= 1
    && (c.tries > 1 ==> c.policy.maxAttempts > 1)
  }

  ghost predicate SentBy(s: Sys, c: Send) {
    && c.request.call in s.calls
    && s.calls[c.request.call].request == c.request && c.try <= s.calls[c.request.call].tries
  }

  ghost predicate CommitAnswered(s: Sys, r: Request) {
    !r.verb.Extend? && exists k: nat :: (Send(r, k), Done) in s.replies
  }

  lemma SendStaysSent(s: Sys, e: Event, c: Send)
    requires SendsSound(s) && Enabled(s, e) && c in Apply(s, e).sent
    ensures 1 <= c.try && SentBy(Apply(s, e), c)
  {
    hide SlotsAfter, ReplyTo;
    if c in s.sent {
      assert 1 <= c.try && SentBy(s, c);
    } else if e.Answered? {
      assert CallCounts(s.calls[e.call], e.call);
      assert c == Awaited(Apply(s, e).calls[e.call]);
    }
  }

  lemma StepKeepsSends(s: Sys, e: Event)
    requires SendsSound(s) && Enabled(s, e)
    ensures SendsSound(Apply(s, e))
  {
    hide SlotsAfter, ReplyTo;
    var s' := Apply(s, e);
    forall k | k in s'.calls ensures CallCounts(s'.calls[k], k) {
      assert k in s.calls ==> CallCounts(s.calls[k], k);
    }
    forall c | c in s'.sent ensures 1 <= c.try && SentBy(s', c) {
      SendStaysSent(s, e, c);
    }
    forall r | r in s'.commits ensures CommitAnswered(s', r) {
      if r in s.commits {
        var k: nat :| (Send(r, k), Done) in s.replies;
        assert (Send(r, k), Done) in s'.replies;
      } else {
        assert r == e.served.request && (Send(r, e.served.try), Done) in s'.replies;
      }
    }
  }

  lemma {:induction false} RunKeepsSends(s: Sys, es: seq<Event>)
    requires SendsSound(s) && Valid(s, es)
    ensures SendsSound(Exec(s, es))
    decreases |es|
  {
    if es != [] {
      StepKeepsSends(s, es[0]);
      hide SendsSound;
      RunKeepsSends(Apply(s, es[0]), es[1..]);
    }
  }

  lemma InitSends(duplicates: bool)
    ensures SendsSound(Init(duplicates))
  {
  }

  /** The send that committed was answered Done, so the refusal that its caller heard
      answered another, later one. */
  lemma MisreportTakesRetry(s: Sys, call: nat)
    requires Inv(s) && SendsSound(s) && !s.duplicates && Misreported(s, call)
    ensures s.calls[call].policy.maxAttempts > 1 && s.calls[call].tries > 1
  {
    var c := s.calls[call];
    assert CallSound(s, c) && CallCounts(c, call);
    var code :| (Awaited(c), Refused(code)) in s.replies;
    assert CommitAnswered(s, c.request);
    var k: nat :| (Send(c.request, k), Done) in s.replies;
    assert SentBy(s, Send(c.request, k));
    assert k < c.tries;
  }

  lemma {:induction false} RunKeepsNetwork(s: Sys, es: seq<Event>)
    requires Valid(s, es)
    ensures Exec(s, es).duplicates == s.duplicates
    decreases |es|
  {
    if es != [] {
      RunKeepsNetwork(Apply(s, es[0]), es[1..]);
    }
  }

  lemma {:induction false} ExecUnrolls(s: Sys, es: seq<Event>, ss: seq<Sys>)
    requires |ss| == |es| + 1 && ss[0] == s
    requires forall k :: 0 <= k < |es| ==> Enabled(ss[k], es[k]) && ss[k + 1] == Apply(ss[k], es[k])
    ensures Valid(s, es) && Exec(s, es) == ss[|es|]
    decreases |es|
  {
    if es != [] {
      ExecUnrolls(ss[1], es[1..], ss[1..]);
    }
  }

  lemma CallBegins(r: Request, policy: Retry.Policy)
    requires r.job == "a" && r.attempt == 1
    ensures var es := [NewJob("a"), Deliver("a"), Issue(r, policy)];
            && Valid(Init(false), es)
            && Exec(Init(false), es) == Sys(map["a" := InFlight(1)], map[r.call := CallState(r, policy, 1, None)],
                                            false, {("a", 1)}, {Send(r, 1)}, {}, [])
  {
    var s1 := Sys(map["a" := Ready(1)], map[], false, {}, {}, {}, []);
    var s2 := s1.(slots := map["a" := InFlight(1)], handed := {("a", 1)});
    var s3 := s2.(calls := map[r.call := CallState(r, policy, 1, None)], sent := {Send(r, 1)});
    ExecUnrolls(Init(false), [NewJob("a"), Deliver("a"), Issue(r, policy)], [Init(false), s1, s2, s3]);
  }

  /** The first try commits and its reply is lost. */
  lemma ReplyIsLost(s: Sys, r: Request, policy: Retry.Policy)
    requires policy.maxAttempts >= 2 && !r.verb.Extend? && s.replies == {} && s.sent == {Send(r, 1)} && s.commits == []
    requires r.call in s.calls && s.calls[r.call] == CallState(r, policy, 1, None)
    requires Current(s.slots, r.job, r.attempt)
    ensures var es := [Serve(Send(r, 1), false), Answered(r.call, Retry.RpcError(DeadlineExceeded))];
            && Valid(s, es)
            && Exec(s, es) == s.(slots := SlotsAfterServe(s.slots, r, false), replies := {(Send(r, 1), Done)},
                                 calls := s.calls[r.call := CallState(r, policy, 2, None)],
                                 sent := {Send(r, 1), Send(r, 2)}, commits := [r])
  {
    var lost := Answered(r.call, Retry.RpcError(DeadlineExceeded));
    var s1 := s.(slots := SlotsAfterServe(s.slots, r, false), replies := {(Send(r, 1), Done)}, commits := [r]);
    var s2 := s1.(calls := s.calls[r.call := CallState(r, policy, 2, None)], sent := {Send(r, 1), Send(r, 2)});
    ExecUnrolls(s, [Serve(Send(r, 1), false), lost], [s, s1, s2]);
  }

  /** The second is refused. */
  lemma RetryIsRefused(s: Sys, r: Request, policy: Retry.Policy)
    requires s.replies == {(Send(r, 1), Done)} && Send(r, 2) in s.sent && s.commits == [r]
    requires r.call in s.calls && s.calls[r.call] == CallState(r, policy, 2, None)
    requires ReplyTo(s.slots, r) == Refused(NotFound)
    ensures var es := [Serve(Send(r, 2), false), Answered(r.call, Retry.RpcError(NotFound))];
            && Valid(s, es)
            && Exec(s, es).commits == [r]
            && Exec(s, es).calls == s.calls[r.call := CallState(r, policy, 2, Some(Failed(JobNotFoundError)))]
  {
    var refused := Answered(r.call, Retry.RpcError(NotFound));
    var s1 := s.(replies := s.replies + {(Send(r, 2), Refused(NotFound))});
    var s2 := s1.(calls := s.calls[r.call := CallState(r, policy, 2, Some(Failed(JobNotFoundError)))]);
    assert !Served(s, Send(r, 2));
    ExecUnrolls(s, [Serve(Send(r, 2), false), refused], [s, s1, s2]);
  }

  lemma {:induction false} RunsCompose(s: Sys, before: seq<Event>, after: seq<Event>)
    requires Valid(s, before) && Valid(Exec(s, before), after)
    ensures Valid(s, before + after) && Exec(s, before + after) == Exec(Exec(s, before), after)
    decreases |before|
  {
    if before == [] {
      assert before + after == after;
    } else {
      assert (before + after)[1..] == before[1..] + after;
      RunsCompose(Apply(s, before[0]), before[1..], after);
    }
  }

  lemma BadRun(r: Request, policy: Retry.Policy, begin: seq<Event>, lost: seq<Event>, refused: seq<Event>)
    requires policy.maxAttempts >= 2 && !r.verb.Extend? && r.job == "a" && r.attempt == 1
    requires begin == [NewJob("a"), Deliver("a"), Issue(r, policy)]
    requires lost == [Serve(Send(r, 1), false), Answered(r.call, Retry.RpcError(DeadlineExceeded))]
    requires refused == [Serve(Send(r, 2), false), Answered(r.call, Retry.RpcError(NotFound))]
    ensures Valid(Init(false), begin + (lost + refused))
    ensures var s := Exec(Init(false), begin + (lost + refused));
            && s.calls == map[r.call := CallState(r, policy, 2, Some(Failed(JobNotFoundError)))]
            && s.commits == [r]
  {
    CallBegins(r, policy);
    var s := Exec(Init(false), begin);
    hide Valid, Exec, Enabled, Apply;
    ReplyIsLost(s, r, policy);
    var s' := Exec(s, lost);
    assert ReplyTo(s'.slots, r) == Refused(NotFound);
    hide ReplyTo, SlotsAfterServe;
    RetryIsRefused(s', r, policy);
    RunsCompose(s, lost, refused);
    RunsCompose(Init(false), begin, lost + refused);
  }

  /** JobNotFoundError does not mean the ack failed: under any policy that retries, the
      first try may commit and lose its reply, and the second is told that no such job is
      in flight. */
  lemma CommittedAckCanReportNotFound(policy: Retry.Policy, verb: Verb) returns (es: seq<Event>, r: Request)
    requires policy.maxAttempts >= 2 && !verb.Extend?
    ensures Valid(Init(false), es)
    ensures var s := Exec(Init(false), es);
            && Misreported(s, r.call) && s.calls[r.call].policy == policy
            && s.calls[r.call].result == Some(Failed(JobNotFoundError))
            && s.commits == [r]
  {
    r := Request(0, "a", 1, verb);
    var begin := [NewJob("a"), Deliver("a"), Issue(r, policy)];
    var lost := [Serve(Send(r, 1), false), Answered(0, Retry.RpcError(DeadlineExceeded))];
    var refused := [Serve(Send(r, 2), false), Answered(0, Retry.RpcError(NotFound))];
    hide Valid, Exec;
    BadRun(r, policy, begin, lost, refused);
    es := begin + (lost + refused);
  }

  ghost predicate NeverMisreports(p: Retry.Policy) {
    forall es, call ::
      Valid(Init(false), es) && call in Exec(Init(false), es).calls && Exec(Init(false), es).calls[call].policy == p
      ==> !Misreported(Exec(Init(false), es), call)
  }

  /** A caller is never told that the lease of an ack or nack of its own that took effect is
      lost, in any run with any other callers, exactly when its policy does not retry. */
  lemma HonestExactly(p: Retry.Policy)
    ensures NeverMisreports(p) <==> p.maxAttempts <= 1
  {
    if p.maxAttempts <= 1 {
      forall es, call | Valid(Init(false), es) && call in Exec(Init(false), es).calls
                        && Exec(Init(false), es).calls[call].policy == p
        ensures !Misreported(Exec(Init(false), es), call)
      {
        RunKeepsInv(Init(false), es);
        InitSends(false);
        RunKeepsSends(Init(false), es);
        RunKeepsNetwork(Init(false), es);
        if Misreported(Exec(Init(false), es), call) {
          MisreportTakesRetry(Exec(Init(false), es), call);
        }
      }
    } else {
      var es, r := CommittedAckCanReportNotFound(p, Ack);
      assert Misreported(Exec(Init(false), es), r.call);
    }
  }
}
