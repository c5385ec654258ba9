/** One enqueue_batch or enqueue_atomic call against a server that may commit a request
    and still answer with an ambiguous code (SeppClient.enqueue_batch, enqueue_atomic,
    _enqueue_retryable_codes, _with_retry).

    The call sends its request up to max_attempts times.  The server processes each send
    at most once, at any moment after it was sent: before the client hears about it, or
    long after the client gave up on it.  Other clients enqueue in between.  The premise
    of the client's code sets is that UNAVAILABLE and RESOURCE_EXHAUSTED mean the send was
    not and will not be processed; under any other code anything may have happened. */
module Enqueue {
  import opened Status
  import opened Options
  import opened Dedup
  import Retry

  const NOT_COMMITTED: set<Code> := {Unavailable, ResourceExhausted}

  /** What is fixed during a call. */
  datatype Call = Call(jobs: seq<Key>, codes: set<Code>, policy: Retry.Policy, atomic: bool)

  datatype Progress = Active | Finished(answer: Retry.Answer<seq<Outcome>>)

  datatype Sys = Sys(
    store: seq<Entry>,
    sends: nat,                            // sends so far; the last one is being awaited
    processed: map<nat, seq<Outcome>>,     // sends the server processed, with its answer
    barred: set<nat>,                      // sends answered with a NOT_COMMITTED code
    status: Progress)

  datatype Event =
    | Serve(send: nat, accept: seq<bool>)
    | OthersEnqueue(keys: seq<Key>, taken: seq<bool>)
    | Answered(answer: Retry.Answer<seq<Outcome>>)

  /** _enqueue_retryable_codes */
  function EnqueueRetryableCodes(jobs: seq<Key>): set<Code> {
    if forall i :: 0 <= i < |jobs| ==> jobs[i].Some? then RETRYABLE_CODES
    else KEYLESS_ENQUEUE_RETRYABLE_CODES
  }

  ghost predicate FreshStore(store: seq<Entry>) {
    UniqueKeys(store) && forall p :: 0 <= p < |store| ==> store[p].origin.Foreign?
  }

  function Init(store: seq<Entry>): Sys {
    Sys(store, 1, map[], {}, Active)
  }

  ghost predicate Enabled(c: Call, s: Sys, e: Event) {
    match e
    case Serve(k, accept) =>
      && 1 <= k <= s.sends && k !in s.processed && k !in s.barred
      && |accept| == |c.jobs|
      && (c.atomic ==> forall i, j :: 0 <= i < j < |accept| ==> accept[i] == accept[j])
    case OthersEnqueue(keys, taken) => |keys| == |taken|
    case Answered(Ok(outcomes)) =>
      s.status.Active? && s.sends in s.processed && outcomes == s.processed[s.sends]
    case Answered(RpcError(code)) =>
      s.status.Active? && (code in NOT_COMMITTED ==> s.sends !in s.processed)
  }

  ghost function Apply(c: Call, s: Sys, e: Event): Sys
    requires Enabled(c, s, e)
  {
    match e
    case Serve(k, accept) =>
      var r := Process(s.store, c.jobs, accept, true, |c.jobs|);
      s.(store := r.store, processed := s.processed[k := r.outcomes])
    case OthersEnqueue(keys, taken) =>
      s.(store := Process(s.store, keys, taken, false, |keys|).store)
    case Answered(Ok(_)) => s.(status := Finished(e.answer))
    case Answered(RpcError(code)) =>
      var s' := if code in NOT_COMMITTED then s.(barred := s.barred + {s.sends}) else s;
      if Retry.GivesUp(c.policy, c.codes, s.sends, code) then s'.(status := Finished(e.answer))
      else s'.(sends := s.sends + 1)
  }

  ghost predicate Valid(c: Call, s: Sys, es: seq<Event>)
    decreases |es|
  {
    es == [] || (Enabled(c, s, es[0]) && Valid(c, Apply(c, s, es[0]), es[1..]))
  }

  ghost function Exec(c: Call, s: Sys, es: seq<Event>): Sys
    requires Valid(c, s, es)
    decreases |es|
  {
    if es == [] then s else Exec(c, Apply(c, s, es[0]), es[1..])
  }

  // -------------------------------------------------------------------- invariants

  ghost predicate AllKeyed(jobs: seq<Key>) {
    forall i :: 0 <= i < |jobs| ==> jobs[i].Some?
  }

  /** Retrying cannot duplicate: nothing to duplicate, no ambiguous code is retried, or
      nothing is. */
  ghost predicate Guarded(c: Call) {
    AllKeyed(c.jobs) || c.codes <= NOT_COMMITTED || c.policy.maxAttempts <= 1
  }

  /** Sends: only unbarred ones are processed, and all but the last are barred unless the
      whole batch is keyed. */
  ghost predicate SendsSound(c: Call, s: Sys) {
    && s.sends >= 1
    && (forall k :: k in s.processed ==> 1 <= k <= s.sends && k !in s.barred)
    && (!AllKeyed(c.jobs) && Guarded(c) ==> forall k :: 1 <= k < s.sends ==> k in s.barred)
    && (s.status.Finished? && s.status.answer.Ok? ==>
          s.sends in s.processed && s.status.answer.value == s.processed[s.sends])
  }

  /** The answers the server gave still hold of its store. */
  ghost predicate AnswersSound(c: Call, s: Sys) {
    forall k :: k in s.processed ==> AnswerSound(c, s.store, s.processed[k])
  }

  ghost predicate AnswerSound(c: Call, store: seq<Entry>, outcomes: seq<Outcome>) {
    && |outcomes| == |c.jobs|
    && (forall i :: 0 <= i < |outcomes| ==> Stands(store, c.jobs, i, outcomes[i]))
    && (forall i :: 0 <= i < |outcomes| && c.jobs[i].None? && outcomes[i].Accepted? ==>
          store[outcomes[i].id].origin == Mine(i))
    && (c.atomic ==> forall i, j :: 0 <= i < j < |outcomes| ==> outcomes[i].Accepted? == outcomes[j].Accepted?)
  }

  /** The call's own entries match its jobs, and each was accepted by some processing. */
  ghost predicate MineSound(c: Call, s: Sys) {
    && UniqueKeys(s.store)
    && (forall p :: 0 <= p < |s.store| && s.store[p].origin.Mine? ==> OwnEntry(c, s, s.store[p]))
    && (!AllKeyed(c.jobs) && Guarded(c) ==> KeylessOnce(c, s.store))
  }

  ghost predicate OwnEntry(c: Call, s: Sys, e: Entry)
    requires e.origin.Mine?
  {
    && e.origin.index < |c.jobs| && e.key == c.jobs[e.origin.index]
    && exists k :: k in s.processed && |s.processed[k]| == |c.jobs| && s.processed[k][e.origin.index].Accepted?
  }

  /** No job of the call is stored twice without a key. */
  ghost predicate KeylessOnce(c: Call, store: seq<Entry>) {
    forall p, q :: 0 <= p < q < |store| && store[p].origin.Mine? && store[p].key.None? ==>
      store[p].origin != store[q].origin
  }

  ghost predicate Inv(c: Call, s: Sys) {
    SendsSound(c, s) && AnswersSound(c, s) && MineSound(c, s)
  }

  lemma GrowthKeepsAnswer(c: Call, store: seq<Entry>, store': seq<Entry>, outcomes: seq<Outcome>)
    requires AnswerSound(c, store, outcomes) && store <= store'
    ensures AnswerSound(c, store', outcomes)
  {
  }

  lemma ServeKeepsAnswers(c: Call, s: Sys, k: nat, accept: seq<bool>)
    requires AnswersSound(c, s) && Enabled(c, s, Serve(k, accept))
    ensures AnswersSound(c, Apply(c, s, Serve(k, accept)))
  {
    var r := Process(s.store, c.jobs, accept, true, |c.jobs|);
    ProcessGrows(s.store, c.jobs, accept, true, |c.jobs|);
    ProcessOutcomes(s.store, c.jobs, accept, true, |c.jobs|);
    forall j | j in s.processed ensures AnswerSound(c, r.store, s.processed[j]) {
      GrowthKeepsAnswer(c, s.store, r.store, s.processed[j]);
    }
    assert AnswerSound(c, r.store, r.outcomes);
  }

  lemma OthersKeepAnswers(c: Call, s: Sys, keys: seq<Key>, taken: seq<bool>)
    requires AnswersSound(c, s) && |keys| == |taken|
    ensures AnswersSound(c, Apply(c, s, OthersEnqueue(keys, taken)))
  {
    var r := Process(s.store, keys, taken, false, |keys|);
    ProcessGrows(s.store, keys, taken, false, |keys|);
    forall j | j in s.processed ensures AnswerSound(c, r.store, s.processed[j]) {
      GrowthKeepsAnswer(c, s.store, r.store, s.processed[j]);
    }
  }

  /** Under the guard a keyless batch is processed at most once: when it is, no entry of
      the call can be in the store yet. */
  lemma FirstServe(c: Call, s: Sys, k: nat, accept: seq<bool>)
    requires Inv(c, s) && Enabled(c, s, Serve(k, accept))
    requires !AllKeyed(c.jobs) && Guarded(c)
    ensures forall p :: 0 <= p < |s.store| ==> s.store[p].origin.Foreign?
  {
    assert k == s.sends;
    assert s.processed == map[];
  }

  lemma ServeKeepsMine(c: Call, s: Sys, k: nat, accept: seq<bool>)
    requires Inv(c, s) && Enabled(c, s, Serve(k, accept))
    ensures MineSound(c, Apply(c, s, Serve(k, accept)))
  {
    var r := Process(s.store, c.jobs, accept, true, |c.jobs|);
    var s' := Apply(c, s, Serve(k, accept));
    ProcessGrows(s.store, c.jobs, accept, true, |c.jobs|);
    ProcessOutcomes(s.store, c.jobs, accept, true, |c.jobs|);
    ProcessEntries(s.store, c.jobs, accept, true, |c.jobs|);
    forall p | 0 <= p < |r.store| && r.store[p].origin.Mine? ensures OwnEntry(c, s', r.store[p]) {
      if p < |s.store| {
        OldEntryStaysOwn(c, s, s', r.store[p]);
      } else {
        assert k in s'.processed;
      }
    }
    if !AllKeyed(c.jobs) && Guarded(c) {
      FirstServe(c, s, k, accept);
    }
  }

  lemma OldEntryStaysOwn(c: Call, s: Sys, s': Sys, e: Entry)
    requires e.origin.Mine? && OwnEntry(c, s, e)
    requires forall k :: k in s.processed ==> k in s'.processed && s'.processed[k] == s.processed[k]
    ensures OwnEntry(c, s', e)
  {
    var k :| k in s.processed && |s.processed[k]| == |c.jobs| && s.processed[k][e.origin.index].Accepted?;
    assert k in s'.processed;
  }

  lemma OthersKeepMine(c: Call, s: Sys, keys: seq<Key>, taken: seq<bool>)
    requires MineSound(c, s) && |keys| == |taken|
    ensures MineSound(c, Apply(c, s, OthersEnqueue(keys, taken)))
  {
    var s' := Apply(c, s, OthersEnqueue(keys, taken));
    ProcessGrows(s.store, keys, taken, false, |keys|);
    ProcessEntries(s.store, keys, taken, false, |keys|);
    forall p | 0 <= p < |s'.store| && s'.store[p].origin.Mine? ensures OwnEntry(c, s', s'.store[p]) {
      assert s'.store[p] == s.store[p];
      OldEntryStaysOwn(c, s, s', s.store[p]);
    }
  }

  lemma StepKeepsInv(c: Call, s: Sys, e: Event)
    requires Inv(c, s) && Enabled(c, s, e)
    ensures Inv(c, Apply(c, s, e))
  {
    match e
    case Serve(k, accept) =>
      ServeKeepsAnswers(c, s, k, accept);
      ServeKeepsMine(c, s, k, accept);
    case OthersEnqueue(keys, taken) =>
      OthersKeepAnswers(c, s, keys, taken);
      OthersKeepMine(c, s, keys, taken);
    case Answered(_) =>
      AnsweredKeepsMine(c, s, e);
  }

  lemma AnsweredKeepsMine(c: Call, s: Sys, e: Event)
    requires MineSound(c, s) && e.Answered? && Enabled(c, s, e)
    ensures MineSound(c, Apply(c, s, e))
  {
    var s' := Apply(c, s, e);
    forall p | 0 <= p < |s.store| && s.store[p].origin.Mine? ensures OwnEntry(c, s', s.store[p]) {
      OldEntryStaysOwn(c, s, s', s.store[p]);
    }
  }

  lemma {:induction false} RunKeepsInv(c: Call, s: Sys, es: seq<Event>)
    requires Inv(c, s) && Valid(c, s, es)
    ensures Inv(c, Exec(c, s, es))
    decreases |es|
  {
    if es != [] {
      StepKeepsInv(c, s, es[0]);
      RunKeepsInv(c, Apply(c, s, es[0]), es[1..]);
    }
  }

  // ---------------------------------------------------------------------- theorems

  /** The call as the client makes it: the code set is chosen from the batch. */
  function ClientCall(jobs: seq<Key>, policy: Retry.Policy, atomic: bool): Call {
    Call(jobs, EnqueueRetryableCodes(jobs), policy, atomic)
  }

  lemma InitIsSound(c: Call, store: seq<Entry>)
    requires FreshStore(store)
    ensures Inv(c, Init(store))
  {
  }

  lemma KeyedEntriesOnce(c: Call, s: Sys)
    requires Inv(c, s) && Guarded(c)
    ensures KeylessOnce(c, s.store)
  {
    if AllKeyed(c.jobs) {
      forall p | 0 <= p < |s.store| && s.store[p].origin.Mine? ensures s.store[p].key.Some? {
        assert OwnEntry(c, s, s.store[p]);
      }
    }
  }

  /** However sends, replies and other clients interleave, and whatever commits late: the
      store never holds a key twice, nor a keyless job of the call twice. */
  lemma NoDuplicates(jobs: seq<Key>, policy: Retry.Policy, atomic: bool, store: seq<Entry>, es: seq<Event>)
    requires FreshStore(store) && Valid(ClientCall(jobs, policy, atomic), Init(store), es)
    ensures var c := ClientCall(jobs, policy, atomic);
            var s := Exec(c, Init(store), es);
            UniqueKeys(s.store) && KeylessOnce(c, s.store)
  {
    var c := ClientCall(jobs, policy, atomic);
    InitIsSound(c, store);
    RunKeepsInv(c, Init(store), es);
    KeyedEntriesOnce(c, Exec(c, Init(store), es));
  }

  /** Entry `id` stands for job i, and no other entry does: none with its key or, if it has
      none, none that came from it. */
  ghost predicate StoredOnceAs(jobs: seq<Key>, store: seq<Entry>, i: nat, id: nat)
    requires i < |jobs|
  {
    && id < |store| && store[id].key == jobs[i]
    && (jobs[i].None? ==> store[id].origin == Mine(i))
    && forall q :: 0 <= q < |store| && q != id ==>
         if jobs[i].Some? then store[q].key != jobs[i] else store[q].origin != Mine(i)
  }

  /** A job acknowledged in a successful reply is in the store exactly once, under the
      returned id, when the reply arrives and ever after. */
  lemma AcknowledgedIsStoredOnce(jobs: seq<Key>, policy: Retry.Policy, atomic: bool,
                                 store: seq<Entry>, es: seq<Event>, i: nat)
    requires FreshStore(store) && Valid(ClientCall(jobs, policy, atomic), Init(store), es)
    requires var s := Exec(ClientCall(jobs, policy, atomic), Init(store), es);
             && i < |jobs| && s.status.Finished? && s.status.answer.Ok?
             && (|s.status.answer.value| == |jobs| ==> s.status.answer.value[i].Accepted?)
    ensures var s := Exec(ClientCall(jobs, policy, atomic), Init(store), es);
            && |s.status.answer.value| == |jobs|
            && StoredOnceAs(jobs, s.store, i, s.status.answer.value[i].id)
  {
    var c := ClientCall(jobs, policy, atomic);
    var s := Exec(c, Init(store), es);
    InitIsSound(c, store);
    RunKeepsInv(c, Init(store), es);
    var outcomes := s.processed[s.sends];
    assert AnswerSound(c, s.store, outcomes);
    var id := outcomes[i].id;
    assert Stands(s.store, jobs, i, outcomes[i]);
    forall q | 0 <= q < |s.store| && q != id && jobs[i].None? ensures s.store[q].origin != Mine(i) {
      if s.store[q].origin == Mine(i) {
        assert OwnEntry(c, s, s.store[q]);
        assert KeylessOnce(c, s.store);
      }
    }
  }

  /** All or nothing: once an atomic call has one of its jobs in the store, every one of
      its jobs, such as job i, is stored. */
  lemma AtomicIsAllOrNothing(jobs: seq<Key>, policy: Retry.Policy, store: seq<Entry>, es: seq<Event>,
                             p: nat, i: nat)
    requires FreshStore(store) && Valid(ClientCall(jobs, policy, true), Init(store), es)
    requires var s := Exec(ClientCall(jobs, policy, true), Init(store), es);
             p < |s.store| && s.store[p].origin.Mine? && i < |jobs|
    ensures var s := Exec(ClientCall(jobs, policy, true), Init(store), es);
            exists q :: 0 <= q < |s.store| && StoredAs(jobs, s.store, i, q)
  {
    var c := ClientCall(jobs, policy, true);
    var s := Exec(c, Init(store), es);
    InitIsSound(c, store);
    RunKeepsInv(c, Init(store), es);
    var m := s.store[p].origin.index;
    assert OwnEntry(c, s, s.store[p]);
    var k :| k in s.processed && |s.processed[k]| == |jobs| && s.processed[k][m].Accepted?;
    var outcomes := s.processed[k];
    assert AnswerSound(c, s.store, outcomes);
    assert outcomes[i].Accepted? == outcomes[m].Accepted?;
    assert Stands(s.store, jobs, i, outcomes[i]);
    assert StoredAs(jobs, s.store, i, outcomes[i].id);
  }

  predicate StoredAs(jobs: seq<Key>, store: seq<Entry>, i: nat, q: nat)
    requires i < |jobs| && q < |store|
  {
    store[q].key == jobs[i] && (jobs[i].None? ==> store[q].origin == Mine(i))
  }

  // ------------------------------------------------- which code sets are safe to retry

  ghost predicate NeverDuplicates(c: Call) {
    forall store, es :: FreshStore(store) && Valid(c, Init(store), es) ==>
      KeylessOnce(c, Exec(c, Init(store), es).store)
  }

  /** A whole batch processed twice stores its keyless jobs twice. */
  lemma TwiceServedTwiceStored(c: Call, store: seq<Entry>, i: nat)
    requires i < |c.jobs| && c.jobs[i].None?
    ensures var all := seq(|c.jobs|, _ => true);
            var r := Process(store, c.jobs, all, true, |c.jobs|);
            !KeylessOnce(c, Process(r.store, c.jobs, all, true, |c.jobs|).store)
  {
    var all := seq(|c.jobs|, _ => true);
    var r := Process(store, c.jobs, all, true, |c.jobs|);
    var r' := Process(r.store, c.jobs, all, true, |c.jobs|);
    ProcessOutcomes(store, c.jobs, all, true, |c.jobs|);
    ProcessOutcomes(r.store, c.jobs, all, true, |c.jobs|);
    ProcessGrows(r.store, c.jobs, all, true, |c.jobs|);
    var first, second := r.outcomes[i].id, r'.outcomes[i].id;
    assert r'.store[first] == r.store[first];
    assert first < second && r'.store[first].origin == r'.store[second].origin;
  }

  /** The dangerous run: the send commits, its answer is ambiguous, the retry commits. */
  lemma AmbiguousRetryDuplicates(c: Call, code: Code, i: nat) returns (es: seq<Event>)
    requires i < |c.jobs| && c.jobs[i].None?
    requires code in c.codes && code !in NOT_COMMITTED && c.policy.maxAttempts >= 2
    ensures Valid(c, Init([]), es) && !KeylessOnce(c, Exec(c, Init([]), es).store)
  {
    hide KeylessOnce;
    var all := seq(|c.jobs|, _ => true);
    TwiceServedTwiceStored(c, [], i);
    var e0, e1, e2 := Serve(1, all), Answered(Retry.RpcError(code)), Serve(2, all);
    var s1 := Apply(c, Init([]), e0);
    var s2 := Apply(c, s1, e1);
    var s3 := Apply(c, s2, e2);
    es := [e0] + ([e1] + ([e2] + []));
    PrependEvent(c, s2, e2, []);
    PrependEvent(c, s1, e1, [e2] + []);
    PrependEvent(c, Init([]), e0, [e1] + ([e2] + []));
  }

  lemma PrependEvent(c: Call, s: Sys, e: Event, es: seq<Event>)
    requires Enabled(c, s, e) && Valid(c, Apply(c, s, e), es)
    ensures Valid(c, s, [e] + es)
    ensures Exec(c, s, [e] + es) == Exec(c, Apply(c, s, e), es)
  {
    assert ([e] + es)[1..] == es;
  }

  /** Retrying is duplicate-free exactly when every job is keyed, or no ambiguous code is
      retried, or there are no retries.  The client's choice of codes is on the safe side. */
  lemma DuplicateFreeExactly(c: Call)
    ensures NeverDuplicates(c) <==> Guarded(c)
  {
    if Guarded(c) {
      forall store, es | FreshStore(store) && Valid(c, Init(store), es)
        ensures KeylessOnce(c, Exec(c, Init(store), es).store)
      {
        InitIsSound(c, store);
        RunKeepsInv(c, Init(store), es);
        KeyedEntriesOnce(c, Exec(c, Init(store), es));
      }
    } else {
      var i :| 0 <= i < |c.jobs| && c.jobs[i].None?;
      var code :| code in c.codes && code !in NOT_COMMITTED;
      var es := AmbiguousRetryDuplicates(c, code, i);
      assert FreshStore([]);
    }
  }

  lemma KeylessBatchCodes(jobs: seq<Key>, i: nat)
    requires i < |jobs| && jobs[i].None?
    ensures EnqueueRetryableCodes(jobs) <= NOT_COMMITTED
  {
  }

  lemma ClientCodesAreGuarded(jobs: seq<Key>, policy: Retry.Policy, atomic: bool)
    ensures Guarded(ClientCall(jobs, policy, atomic))
    ensures AllKeyed(jobs) ==> EnqueueRetryableCodes(jobs) == RETRYABLE_CODES
    ensures !AllKeyed(jobs) ==> EnqueueRetryableCodes(jobs) == RETRYABLE_CODES * NOT_COMMITTED
  {
    assert KEYLESS_ENQUEUE_RETRYABLE_CODES == RETRYABLE_CODES * NOT_COMMITTED;
  }

  // ------------------------------------------------- the call is the loop of _with_retry

  /** What the client heard, in order. */
  function AnswersOf(es: seq<Event>): seq<Retry.Answer<seq<Outcome>>> {
    if es == [] then []
    else (if es[0].Answered? then [es[0].answer] else []) + AnswersOf(es[1..])
  }

  /** The answer to try number k, counted from 1. */
  function AnswerTo(heard: seq<Retry.Answer<seq<Outcome>>>, k: nat): Retry.Answer<seq<Outcome>> {
    if 1 <= k <= |heard| then heard[k - 1] else Retry.RpcError(Unknown)
  }

  /** The client's side of the state, given what it has heard. */
  ghost predicate InLoop(c: Call, s: Sys, heard: seq<Retry.Answer<seq<Outcome>>>) {
    && (forall i :: 0 <= i < s.sends - 1 && i < |heard| ==> heard[i].RpcError? && heard[i].code in c.codes)
    && 1 <= s.sends <= c.policy.maxAttempts
    && match s.status
       case Active => s.sends == |heard| + 1
       case Finished(answer) =>
         && s.sends == |heard| && answer == heard[|heard| - 1]
         && (answer.RpcError? ==> Retry.GivesUp(c.policy, c.codes, s.sends, answer.code))
  }

  function Heard(heard: seq<Retry.Answer<seq<Outcome>>>, e: Event): seq<Retry.Answer<seq<Outcome>>> {
    if e.Answered? then heard + [e.answer] else heard
  }

  lemma HeardFirst(heard: seq<Retry.Answer<seq<Outcome>>>, es: seq<Event>)
    requires es != []
    ensures heard + AnswersOf(es) == Heard(heard, es[0]) + AnswersOf(es[1..])
  {
    var rest := AnswersOf(es[1..]);
    if es[0].Answered? {
      assert heard + ([es[0].answer] + rest) == (heard + [es[0].answer]) + rest;
    } else {
      assert [] + rest == rest;
    }
  }

  lemma StepStaysInLoop(c: Call, s: Sys, e: Event, heard: seq<Retry.Answer<seq<Outcome>>>)
    requires Enabled(c, s, e) && InLoop(c, s, heard)
    ensures InLoop(c, Apply(c, s, e), Heard(heard, e))
  {
  }

  lemma {:induction false} RunStaysInLoop(c: Call, s: Sys, es: seq<Event>, heard: seq<Retry.Answer<seq<Outcome>>>)
    requires Valid(c, s, es) && InLoop(c, s, heard)
    ensures InLoop(c, Exec(c, s, es), heard + AnswersOf(es))
    decreases |es|
  {
    if es == [] {
      assert heard + AnswersOf(es) == heard;
    } else {
      hide InLoop, Enabled, Apply, AnswersOf, Heard;
      HeardFirst(heard, es);
      StepStaysInLoop(c, s, es[0], heard);
      RunStaysInLoop(c, Apply(c, s, es[0]), es[1..], Heard(heard, es[0]));
    }
  }

  /** A finished call is what _with_retry makes of the answers heard: it tried as often as
      the loop does on them, and ends with the last. */
  lemma CallIsRetryLoop(c: Call, store: seq<Entry>, es: seq<Event>)
    requires Retry.Usable(c.policy) && Valid(c, Init(store), es)
    requires Exec(c, Init(store), es).status.Finished?
    ensures var s, heard := Exec(c, Init(store), es), AnswersOf(es);
            && s.sends == |heard|
            && Retry.StopsAt(c.policy, c.codes, k => AnswerTo(heard, k), s.sends)
            && s.status.answer == AnswerTo(heard, s.sends)
  {
    RunStaysInLoop(c, Init(store), es, []);
    assert [] + AnswersOf(es) == AnswersOf(es);
  }
}
