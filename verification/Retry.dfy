/** The retry loop (SeppClient._with_retry) and its backoff (RetryPolicy).  A call's k-th
    try, counted from 1, is answered by `answers(k)`; `random(k)` is the jitter drawn
    after it.  Durations are real seconds. */
module Retry {
  import opened Status

  datatype Answer<+T> = Ok(value: T) | RpcError(code: Code)

  datatype Policy = Policy(
    maxAttempts: int,
    initialBackoff: real,
    maxBackoff: real,
    multiplier: real,
    jitter: bool)

  /** RetryPolicy.__post_init__: a field below its floor goes to the floor, whatever the
      other is, and nothing else changes. */
  function Clamped(p: Policy): (q: Policy)
    ensures Usable(q)
    ensures Usable(p) ==> q == p
    ensures (q.initialBackoff, q.maxBackoff, q.jitter) == (p.initialBackoff, p.maxBackoff, p.jitter)
    ensures p.maxAttempts >= 1 ==> q.maxAttempts == p.maxAttempts
    ensures p.multiplier >= 1.0 ==> q.multiplier == p.multiplier
    ensures forall r :: Usable(r) && r.maxAttempts >= p.maxAttempts && r.multiplier >= p.multiplier ==>
              q.maxAttempts <= r.maxAttempts && q.multiplier <= r.multiplier
  {
    p.(maxAttempts := if p.maxAttempts < 1 then 1 else p.maxAttempts,
       multiplier := if p.multiplier < 1.0 then 1.0 else p.multiplier)
  }

  predicate Usable(p: Policy) {
    p.maxAttempts >= 1 && p.multiplier >= 1.0
  }

  function Min(a: real, b: real): real { if a < b then a else b }

  /** The loop ends on this failure of try number `attempt`. */
  predicate GivesUp(p: Policy, codes: set<Code>, attempt: nat, code: Code) {
    attempt >= p.maxAttempts || code !in codes
  }

  /** The un-jittered delay after the k-th failure, as the loop iterates it. */
  function Backoff(p: Policy, k: nat): real
    requires k >= 1
  {
    if k == 1 then p.initialBackoff else Grown(p, Backoff(p, k - 1))
  }

  function Grown(p: Policy, backoff: real): real {
    Min(backoff * p.multiplier, p.maxBackoff)
  }

  /** Equal jitter: between half of the computed delay and all of it. */
  function Jittered(p: Policy, backoff: real, draw: real): real {
    if p.jitter then backoff * (0.5 + 0.5 * draw) else backoff
  }

  /** Half of the delay is sure, the other half is scaled by the draw; and without jitter all
      of it is sure. */
  lemma JitterIsEqualJitter(p: Policy)
    ensures forall backoff, draw :: Jittered(p, backoff, draw)
              == if p.jitter then backoff * 0.5 + backoff * 0.5 * draw else backoff
  {
  }

  /** `calls` tries were made and the last one's answer is the outcome. */
  ghost predicate StopsAt<T(!new)>(p: Policy, codes: set<Code>, answers: nat -> Answer<T>, calls: nat) {
    && 1 <= calls <= p.maxAttempts
    && (forall k :: 1 <= k < calls ==> answers(k).RpcError? && answers(k).code in codes)
    && (answers(calls).RpcError? ==> calls >= p.maxAttempts || answers(calls).code !in codes)
  }

  method WithRetry<T(!new)>(p: Policy, codes: set<Code>, answers: nat -> Answer<T>, random: nat -> real)
    returns (outcome: Answer<T>, calls: nat, delays: seq<real>)
    requires Usable(p)
    ensures StopsAt(p, codes, answers, calls)
    ensures outcome == answers(calls)
    ensures |delays| == calls - 1
    ensures forall i :: 0 <= i < |delays| ==> delays[i] == Jittered(p, Backoff(p, i + 1), random(i + 1))
    ensures !p.jitter ==> forall i :: 0 <= i < |delays| ==> delays[i] == Backoff(p, i + 1)
    ensures p.jitter ==> forall i :: 0 <= i < |delays| ==>
              delays[i] == Backoff(p, i + 1) * 0.5 + Backoff(p, i + 1) * 0.5 * random(i + 1)
  {
    JitterIsEqualJitter(p);
    hide Grown, Jittered;
    var attempt: nat := 1;
    var backoff := p.initialBackoff;
    delays := [];
    while true
      invariant 1 <= attempt <= p.maxAttempts
      invariant backoff == Backoff(p, attempt)
      invariant forall k :: 1 <= k < attempt ==> answers(k).RpcError? && answers(k).code in codes
      invariant |delays| == attempt - 1
      invariant forall i :: 0 <= i < |delays| ==>
                  delays[i] == Jittered(p, Backoff(p, i + 1), random(i + 1))
      decreases p.maxAttempts - attempt
    {
      var answer := answers(attempt);
      if answer.Ok? || GivesUp(p, codes, attempt, answer.code) {
        return answer, attempt, delays;
      }
      delays := delays + [Jittered(p, backoff, random(attempt))];
      backoff := Grown(p, backoff);
      attempt := attempt + 1;
    }
  }

  /** The trace is determined: there is one number of tries the loop can stop at. */
  lemma StopIsUnique<T(!new)>(p: Policy, codes: set<Code>, answers: nat -> Answer<T>, m: nat, n: nat)
    requires StopsAt(p, codes, answers, m) && StopsAt(p, codes, answers, n)
    ensures m == n
  {
  }

  // ------------------------------------------------------------------------ backoff

  function Power(m: real, k: nat): real {
    if k == 0 then 1.0 else Power(m, k - 1) * m
  }

  function Uncapped(p: Policy, k: nat): real {
    p.initialBackoff * Power(p.multiplier, k)
  }

  /** The formula a reader has in mind: exponential growth up to a ceiling. */
  function DirectBackoff(p: Policy, k: nat): real
    requires k >= 1
  {
    if k == 1 then p.initialBackoff else Min(Uncapped(p, k - 1), p.maxBackoff)
  }

  /** The iterated minimum is the direct formula.  A negative ceiling, which RetryPolicy
      does not reject, is the only thing that can break this, and exactly when the first
      growth step overshoots it. */
  predicate CeilingHolds(p: Policy) {
    p.maxBackoff >= 0.0 || p.multiplier == 1.0 || p.initialBackoff * p.multiplier <= p.maxBackoff
  }

  /** One more step of growth commutes with the ceiling. */
  lemma GrowthStep(p: Policy, x: real)
    requires Usable(p)
    requires p.maxBackoff >= 0.0 || p.multiplier == 1.0 || x <= p.maxBackoff
    ensures Grown(p, Min(x, p.maxBackoff)) == Grown(p, x)
  {
    var m, ceiling := p.multiplier, p.maxBackoff;
    if x >= ceiling {
      assert (x - ceiling) * m >= 0.0;
      assert ceiling >= 0.0 ==> ceiling * (m - 1.0) >= 0.0;
    }
  }

  lemma UncappedStep(p: Policy, k: nat)
    ensures Uncapped(p, k + 1) == Uncapped(p, k) * p.multiplier
  {
    var a, q, m := p.initialBackoff, Power(p.multiplier, k), p.multiplier;
    assert a * (q * m) == (a * q) * m;
  }

  lemma {:induction false} ClosedForm(p: Policy, k: nat)
    requires Usable(p) && CeilingHolds(p) && k >= 1
    ensures Backoff(p, k) == DirectBackoff(p, k)
  {
    if k == 1 {
    } else {
      ClosedForm(p, k - 1);
      UncappedStep(p, k - 2);
      if k == 2 {
        assert Uncapped(p, 0) == p.initialBackoff;
      } else {
        hide Uncapped, Grown;
        if p.maxBackoff < 0.0 && p.multiplier != 1.0 {
          UncappedBelowCeiling(p, k - 2);
        }
        GrowthStep(p, Uncapped(p, k - 2));
        assert Grown(p, Uncapped(p, k - 2)) == Min(Uncapped(p, k - 1), p.maxBackoff) by {
          GrownUncapped(p, k - 2);
        }
      }
    }
  }

  lemma GrownUncapped(p: Policy, k: nat)
    ensures Grown(p, Uncapped(p, k)) == Min(Uncapped(p, k + 1), p.maxBackoff)
  {
    hide Uncapped;
    UncappedStep(p, k);
  }

  /** With a negative ceiling above the first step, the delays just grow downwards. */
  lemma {:induction false} UncappedBelowCeiling(p: Policy, k: nat)
    requires Usable(p) && k >= 1
    requires p.maxBackoff < 0.0 && p.initialBackoff * p.multiplier <= p.maxBackoff
    ensures Uncapped(p, k) <= p.maxBackoff
  {
    UncappedStep(p, k - 1);
    if k == 1 {
      assert Uncapped(p, 0) == p.initialBackoff;
    } else {
      UncappedBelowCeiling(p, k - 1);
      hide Uncapped;
      assert Uncapped(p, k - 1) * (p.multiplier - 1.0) <= 0.0;
    }
  }

  lemma ClosedFormExactly(p: Policy)
    requires Usable(p)
    ensures (forall k: nat :: k >= 1 ==> Backoff(p, k) == DirectBackoff(p, k)) <==> CeilingHolds(p)
  {
    if CeilingHolds(p) {
      forall k: nat | k >= 1 ensures Backoff(p, k) == DirectBackoff(p, k) {
        ClosedForm(p, k);
      }
    } else {
      OvershootShows(p);
    }
  }

  lemma Overshoot(initial: real, m: real, ceiling: real)
    requires m > 1.0 && ceiling < 0.0 && initial * m > ceiling
    ensures ceiling * m < ceiling
    ensures (initial * m) * m > ceiling * m
  {
    assert ceiling * (m - 1.0) < 0.0;
    assert (initial * m - ceiling) * m > 0.0;
  }

  /** A first step that overshoots a negative ceiling is seen in the third delay. */
  lemma OvershootShows(p: Policy)
    requires Usable(p) && !CeilingHolds(p)
    ensures DirectBackoff(p, 3) != Backoff(p, 3)
  {
    var m, ceiling := p.multiplier, p.maxBackoff;
    Overshoot(p.initialBackoff, m, ceiling);
    assert Backoff(p, 1) == p.initialBackoff;
    assert Backoff(p, 2) == Grown(p, Backoff(p, 1)) == ceiling;
    assert Backoff(p, 3) == Grown(p, Backoff(p, 2)) == ceiling * m;
    UncappedStep(p, 0);
    UncappedStep(p, 1);
    assert Uncapped(p, 0) == p.initialBackoff;
    assert Uncapped(p, 2) == (p.initialBackoff * m) * m;
  }

  lemma GrownNeverShrinks(p: Policy, b: real)
    requires Usable(p) && b <= p.maxBackoff && (p.multiplier == 1.0 || b >= 0.0)
    ensures b <= Grown(p, b)
  {
    assert b * (p.multiplier - 1.0) >= 0.0;
  }

  lemma GrownShrinks(p: Policy, b: real)
    requires Usable(p) && p.multiplier != 1.0 && b < 0.0
    ensures Grown(p, b) < b
  {
    assert b * (p.multiplier - 1.0) < 0.0;
  }

  lemma GrownWithinCeiling(p: Policy, b: real)
    ensures Grown(p, b) <= p.maxBackoff
  {
  }

  lemma {:induction false} BackoffNeverShrinks(p: Policy, k: nat)
    requires Usable(p) && k >= 2
    requires p.multiplier == 1.0 || Backoff(p, 2) >= 0.0
    ensures Backoff(p, 2) <= Backoff(p, k) <= Backoff(p, k + 1)
  {
    hide Grown;
    if k > 2 {
      BackoffNeverShrinks(p, k - 1);
    }
    GrownWithinCeiling(p, Backoff(p, k - 1));
    GrownNeverShrinks(p, Backoff(p, k));
  }

  /** From the second on, delays never shrink (the first may exceed the ceiling), unless a
      negative duration is made to grow. */
  lemma BackoffNeverShrinksExactly(p: Policy)
    requires Usable(p)
    ensures (forall k: nat :: k >= 2 ==> Backoff(p, k) <= Backoff(p, k + 1))
       <==> p.multiplier == 1.0 || (p.initialBackoff >= 0.0 && p.maxBackoff >= 0.0)
  {
    var m, b := p.multiplier, Backoff(p, 2);
    assert Backoff(p, 1) == p.initialBackoff;
    assert b == Grown(p, p.initialBackoff);
    assert p.initialBackoff * m >= 0.0 <==> p.initialBackoff >= 0.0;
    if m == 1.0 || b >= 0.0 {
      forall k: nat | k >= 2 ensures Backoff(p, k) <= Backoff(p, k + 1) {
        BackoffNeverShrinks(p, k);
      }
    } else {
      GrownShrinks(p, b);
      assert Backoff(p, 2 + 1) == Grown(p, Backoff(p, 2));
      assert Backoff(p, 2) > Backoff(p, 2 + 1);
    }
  }

  // -------------------------------------------------------------------- total sleep

  /** asyncio.sleep returns at once from a delay that is not positive. */
  function Slept(delay: real): real {
    if delay < 0.0 then 0.0 else delay
  }

  function TimeSlept(delays: seq<real>): real {
    if delays == [] then 0.0 else Slept(delays[0]) + TimeSlept(delays[1..])
  }

  /** The un-jittered delays of a call with `calls` tries, from the k-th on. */
  function Backoffs(p: Policy, k: nat, calls: nat): (bs: seq<real>)
    requires 1 <= k <= calls
    ensures |bs| == calls - k
    ensures forall i :: 0 <= i < |bs| ==> bs[i] == Backoff(p, k + i)
    decreases calls - k
  {
    if k == calls then [] else [Backoff(p, k)] + Backoffs(p, k + 1, calls)
  }

  lemma {:induction false} TimeSleptWithin(xs: seq<real>, bs: seq<real>)
    requires |xs| == |bs|
    requires forall i :: 0 <= i < |xs| ==> 0.5 * Slept(bs[i]) <= Slept(xs[i]) <= Slept(bs[i])
    ensures 0.5 * TimeSlept(bs) <= TimeSlept(xs) <= TimeSlept(bs)
  {
    if xs != [] {
      TimeSleptWithin(xs[1..], bs[1..]);
    }
  }

  lemma JitterBounds(p: Policy, backoff: real, draw: real)
    requires 0.0 <= draw < 1.0
    ensures 0.5 * Slept(backoff) <= Slept(Jittered(p, backoff, draw)) <= Slept(backoff)
  {
    var size := if backoff < 0.0 then -backoff else backoff;
    ProductNonNegative(size, draw);
    ProductNonNegative(size, 1.0 - draw);
  }

  lemma ProductNonNegative(a: real, b: real)
    requires a >= 0.0 && b >= 0.0
    ensures a * b >= 0.0
  {
  }

  /** A call sleeps at least half of what its backoffs add up to, and at most all of it;
      `delays` is what WithRetry returns. */
  lemma TotalSleep(p: Policy, random: nat -> real, calls: nat, delays: seq<real>)
    requires calls >= 1 && forall k :: 0.0 <= random(k) < 1.0
    requires |delays| == calls - 1
    requires forall i :: 0 <= i < |delays| ==> delays[i] == Jittered(p, Backoff(p, i + 1), random(i + 1))
    ensures 0.5 * TimeSlept(Backoffs(p, 1, calls)) <= TimeSlept(delays) <= TimeSlept(Backoffs(p, 1, calls))
  {
    var bs := Backoffs(p, 1, calls);
    forall i | 0 <= i < |delays| ensures 0.5 * Slept(bs[i]) <= Slept(delays[i]) <= Slept(bs[i]) {
      JitterBounds(p, bs[i], random(i + 1));
    }
    TimeSleptWithin(delays, bs);
  }
}
