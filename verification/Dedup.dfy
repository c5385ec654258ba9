/** The server's side of an enqueue: a store that drops a keyed job whose key it already
    holds (README.md "idempotency keys", stub docs of EnqueueBatch and EnqueueAtomic).
    A job is reduced to its idempotency key; an id is a position in the store; the store
    only grows (the dedup window is taken to outlast the run). */
module Dedup {
  import opened Options

  type Key = Option<string>

  /** Who submitted an entry: job `index` of the call under study, or anybody else. */
  datatype Origin = Mine(index: nat) | Foreign

  datatype Entry = Entry(key: Key, origin: Origin)

  datatype Outcome = Accepted(id: nat, deduplicated: bool) | Rejected

  datatype Reply = Reply(store: seq<Entry>, outcomes: seq<Outcome>)

  ghost predicate UniqueKeys(store: seq<Entry>) {
    forall p, q :: 0 <= p < q < |store| && store[p].key.Some? ==> store[p].key != store[q].key
  }

  /** The position of `key`, or the store's length if it is not there. */
  function Find(store: seq<Entry>, key: Key): (p: nat)
    ensures p <= |store|
    ensures p < |store| ==> store[p].key == key
    ensures forall q :: 0 <= q < p ==> store[q].key != key
  {
    if store == [] then 0
    else if store[0].key == key then 0
    else 1 + Find(store[1..], key)
  }

  function Submit(store: seq<Entry>, key: Key, origin: Origin): (seq<Entry>, Outcome) {
    var p := Find(store, key);
    if key.Some? && p < |store| then (store, Accepted(p, true))
    else (store + [Entry(key, origin)], Accepted(|store|, false))
  }

  function OriginOf(mine: bool, k: nat): Origin {
    if mine then Mine(k) else Foreign
  }

  /** The first k jobs of a batch, of which the server takes those `accept` says. */
  function Process(store: seq<Entry>, jobs: seq<Key>, accept: seq<bool>, mine: bool, k: nat): Reply
    requires k <= |jobs| == |accept|
  {
    if k == 0 then Reply(store, [])
    else
      var r := Process(store, jobs, accept, mine, k - 1);
      if !accept[k - 1] then Reply(r.store, r.outcomes + [Rejected])
      else
        var (s, o) := Submit(r.store, jobs[k - 1], OriginOf(mine, k - 1));
        Reply(s, r.outcomes + [o])
  }

  /** The outcome of job i, if an acceptance, names the entry that stands for the job. */
  predicate Stands(store: seq<Entry>, jobs: seq<Key>, i: nat, o: Outcome)
    requires i < |jobs|
  {
    o.Accepted? ==>
      && o.id < |store|
      && store[o.id].key == jobs[i]
      && (jobs[i].None? ==> !o.deduplicated)
  }

  /** The store only grows, and never holds a key twice. */
  ghost predicate Grows(store: seq<Entry>, store': seq<Entry>) {
    && store <= store'
    && (UniqueKeys(store) ==> UniqueKeys(store'))
  }

  /** Exactly the accepted jobs get an acceptance, and it names an entry that stands for
      the job: for a keyless job a new entry of its own. */
  ghost predicate OutcomesSound(store: seq<Entry>, jobs: seq<Key>, accept: seq<bool>, mine: bool, r: Reply)
    requires |r.outcomes| <= |jobs| == |accept|
  {
    forall i :: 0 <= i < |r.outcomes| ==>
      OutcomeSound(store, jobs, mine, i, accept[i], r.store, r.outcomes[i])
  }

  /** A new entry comes from an accepted job of the batch, and no job brings two. */
  ghost predicate EntriesSound(store: seq<Entry>, jobs: seq<Key>, accept: seq<bool>, mine: bool, k: nat,
                               store': seq<Entry>)
    requires k <= |jobs| == |accept|
  {
    && (forall p :: |store| <= p < |store'| ==> NewEntry(jobs, accept, mine, k, store'[p]))
    && (mine ==> forall p, q :: |store| <= p < q < |store'| ==> store'[p].origin != store'[q].origin)
  }

  predicate NewEntry(jobs: seq<Key>, accept: seq<bool>, mine: bool, k: nat, e: Entry)
    requires k <= |jobs| == |accept|
  {
    if mine then e.origin.Mine? && e.origin.index < k && accept[e.origin.index] && e.key == jobs[e.origin.index]
    else e.origin.Foreign?
  }

  lemma SubmitGrows(store: seq<Entry>, key: Key, origin: Origin)
    ensures Grows(store, Submit(store, key, origin).0)
  {
    var s := Submit(store, key, origin).0;
    forall p, q | UniqueKeys(store) && 0 <= p < q < |s| && s[p].key.Some? ensures s[p].key != s[q].key {
      assert s[p] == store[p];
      if q < |store| {
        assert s[q] == store[q];
      }
    }
  }

  lemma {:induction false} ProcessGrows(store: seq<Entry>, jobs: seq<Key>, accept: seq<bool>, mine: bool, k: nat)
    requires k <= |jobs| == |accept|
    ensures Grows(store, Process(store, jobs, accept, mine, k).store)
    ensures |Process(store, jobs, accept, mine, k).outcomes| == k
  {
    if k > 0 {
      ProcessGrows(store, jobs, accept, mine, k - 1);
      SubmitGrows(Process(store, jobs, accept, mine, k - 1).store, jobs[k - 1], OriginOf(mine, k - 1));
    }
  }

  /** What submitting one job returns stands for it, in this store and any larger one. */
  lemma SubmitStands(store: seq<Entry>, jobs: seq<Key>, i: nat, mine: bool)
    requires i < |jobs|
    ensures var (s, o) := Submit(store, jobs[i], OriginOf(mine, i));
            && o.Accepted? && Stands(s, jobs, i, o)
            && (jobs[i].None? ==> o.id == |store| && s[o.id].origin == OriginOf(mine, i))
  {
  }

  /** A job is deduplicated exactly if it has a key that the store holds; then nothing is
      added, and otherwise the job itself. */
  lemma DeduplicatedExactly(store: seq<Entry>, key: Key, origin: Origin)
    ensures var (s, o) := Submit(store, key, origin);
            && o.Accepted?
            && (o.deduplicated <==> key.Some? && exists e :: e in store && e.key == key)
            && s == store + (if o.deduplicated then [] else [Entry(key, origin)])
  {
    var p := Find(store, key);
    if p < |store| {
      assert store[p] in store;
    }
    assert store + [] == store;
  }

  predicate OutcomeSound(store: seq<Entry>, jobs: seq<Key>, mine: bool, i: nat, taken: bool,
                         store': seq<Entry>, o: Outcome)
    requires i < |jobs|
  {
    && o.Accepted? == taken
    && Stands(store', jobs, i, o)
    && (mine && jobs[i].None? && taken ==> |store| <= o.id && store'[o.id].origin == Mine(i))
  }

  lemma GrowthKeepsOutcome(store: seq<Entry>, jobs: seq<Key>, mine: bool, i: nat, taken: bool,
                           store': seq<Entry>, store'': seq<Entry>, o: Outcome)
    requires i < |jobs| && store' <= store'' && OutcomeSound(store, jobs, mine, i, taken, store', o)
    ensures OutcomeSound(store, jobs, mine, i, taken, store'', o)
  {
  }

  lemma {:induction false} ProcessOutcomes(store: seq<Entry>, jobs: seq<Key>, accept: seq<bool>, mine: bool, k: nat)
    requires k <= |jobs| == |accept|
    ensures var r := Process(store, jobs, accept, mine, k);
            |r.outcomes| == k && OutcomesSound(store, jobs, accept, mine, r)
  {
    ProcessGrows(store, jobs, accept, mine, k);
    if k > 0 {
      ProcessOutcomes(store, jobs, accept, mine, k - 1);
      ProcessGrows(store, jobs, accept, mine, k - 1);
      var r0 := Process(store, jobs, accept, mine, k - 1);
      var r := Process(store, jobs, accept, mine, k);
      SubmitGrows(r0.store, jobs[k - 1], OriginOf(mine, k - 1));
      SubmitStands(r0.store, jobs, k - 1, mine);
      hide Submit, Stands, UniqueKeys;
      forall i | 0 <= i < k ensures OutcomeSound(store, jobs, mine, i, accept[i], r.store, r.outcomes[i]) {
        if i < k - 1 {
          assert r.outcomes[i] == r0.outcomes[i];
          GrowthKeepsOutcome(store, jobs, mine, i, accept[i], r0.store, r.store, r0.outcomes[i]);
        }
      }
    }
  }

  lemma {:induction false} ProcessEntries(store: seq<Entry>, jobs: seq<Key>, accept: seq<bool>, mine: bool, k: nat)
    requires k <= |jobs| == |accept|
    ensures EntriesSound(store, jobs, accept, mine, k, Process(store, jobs, accept, mine, k).store)
  {
    if k > 0 {
      ProcessEntries(store, jobs, accept, mine, k - 1);
      ProcessGrows(store, jobs, accept, mine, k - 1);
    }
  }
}
