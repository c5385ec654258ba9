/** The lease heartbeat and its clock arithmetic (Worker._heartbeat, _heartbeat_interval,
    Lease, datetime_to_millis, the interval clamp of Worker.__init__).

    Times are integer microseconds; the code floors both `now` and the expiry to
    milliseconds, and divides the remaining lease by three rounding to the nearest
    microsecond.  Worker and server share one clock that does not run backwards, a sleep
    lasts at least as long as asked, and code between two awaits takes no time.

    The server grants every extend until its commit time plus a fixed amount (the requested
    duration under a fixed clamp), and so it did when the job was reserved. */
module Heartbeat {
  import opened Options
  import opened Clock

  const ONE_MS := 1000

  /** _heartbeat_interval */
  function HeartbeatInterval(lease: int): int {
    Max(DivRound(lease, 3), ONE_MS)
  }

  datatype Config = Config(explicitInterval: Option<int>)

  predicate GoodConfig(cfg: Config) {
    cfg.explicitInterval.Some? ==> cfg.explicitInterval.value >= ONE_MS
  }

  /** Worker.__init__: an explicit interval turns auto-extend on by itself, and is raised to
      a millisecond. */
  function AutoExtendConfig(autoExtend: bool, interval: Option<int>): (cfg: Option<Config>)
    ensures cfg.None? <==> !autoExtend && interval.None?
    ensures cfg.Some? ==> GoodConfig(cfg.value) && cfg.value.explicitInterval.Some? == interval.Some?
    ensures interval.Some? ==>
              var slept := cfg.value.explicitInterval.value;
              slept >= 1000 && slept >= interval.value && slept in {1000, interval.value}
  {
    match interval
    case Some(i) => Some(Config(Some(Max(i, ONE_MS))))
    case None => if autoExtend then Some(Config(None)) else None
  }

  /** How long _heartbeat sleeps. */
  function Interval(cfg: Config, knownMs: int, now: int): int {
    if cfg.explicitInterval.Some? then cfg.explicitInterval.value
    else HeartbeatInterval(Max(0, knownMs - Millis(now)) * 1000)
  }

  // ---------------------------------------------------------------- one default sleep

  const DEFAULT := Config(None)

  /** The default wake-up falls strictly before the known expiry, wherever in its
      millisecond `now` lies, exactly when 2 ms or more remain. */
  lemma DefaultWakesInTimeExactly(knownMs: int, nowMs: int)
    ensures (forall now :: Millis(now) == nowMs ==> now + Interval(DEFAULT, knownMs, now) < knownMs * 1000)
       <==> knownMs - nowMs >= 2
  {
    if knownMs - nowMs < 2 {
      var now := nowMs * 1000 + 999;
      assert Millis(now) == nowMs;
    }
  }

  /** With at least 3 ms remaining, waking costs a third: of a true remainder r at least
      2r/3 - 334 microseconds are left. */
  lemma DefaultLeavesTwoThirds(expiry: int, now: int)
    requires Millis(expiry) - Millis(now) >= 3
    ensures 3 * (expiry - (now + Interval(DEFAULT, Millis(expiry), now))) >= 2 * (expiry - now) - 1002
  {
  }

  /** An interval derived from the requested lease would not do: if the server clamps the
      grant to a third of the request or less, the first wake-up comes after the expiry. */
  lemma RequestedThirdIsTooLate(requested: int, granted: int, now: int)
    requires requested >= 3 * granted
    ensures now + HeartbeatInterval(requested) >= now + granted
  {
  }

  // ------------------------------------------------------------------------ the rounds

  datatype Reply =
    | Granted(commit: nat)   // the reply of the round's commit-th commit reached the client
    | Reassigned             // AttemptMismatchError or JobNotFoundError
    | Transient              // any other SeppError
    | Foreign                // an exception that is no SeppError

  /** What the environment does in one round: how late the sleep ends, how long the extend
      takes, when extends commit at the server meanwhile (a retried or delayed one may
      commit without its reply arriving), and what the client hears. */
  datatype Round = Round(oversleep: nat, latency: nat, commits: seq<int>, reply: Reply)

  datatype Verdict = Alive | LostToServer | LostToFailure | Crashed

  datatype State = State(
    now: int,
    knownMs: int,        // Lease.known_expiry_ms
    granted: int,        // history: the expiry in the last reply received
    lastCommit: int,     // history: when the server last granted the lease
    failures: nat,       // history: failed extends since that reply
    verdict: Verdict)

  /** A job just reserved: granted at `committed`, the reply received at `now`. */
  function Reserved(grant: int, committed: int, now: int): State {
    State(now, Millis(committed + grant), committed + grant, committed, 0, Alive)
  }

  function WakeTime(cfg: Config, s: State, r: Round): int {
    s.now + Interval(cfg, s.knownMs, s.now) + r.oversleep
  }

  predicate Possible(cfg: Config, s: State, r: Round) {
    && (r.reply.Granted? ==> r.reply.commit < |r.commits|)
    && (forall i :: 0 <= i < |r.commits| ==> s.lastCommit <= r.commits[i])
    && (forall i, j :: 0 <= i < j < |r.commits| ==> r.commits[i] <= r.commits[j])
  }

  function Beat(cfg: Config, grant: int, s: State, r: Round): State
    requires Possible(cfg, s, r)
  {
    var now := WakeTime(cfg, s, r) + r.latency;
    var s' := s.(now := now, lastCommit := if r.commits == [] then s.lastCommit else r.commits[|r.commits| - 1]);
    match r.reply
    case Granted(k) =>
      var expiry := r.commits[k] + grant;
      s'.(knownMs := Millis(expiry), granted := expiry, failures := 0)
    case Reassigned => s'.(verdict := LostToServer)
    case Transient =>
      s'.(failures := s.failures + 1,
          verdict := if Millis(now) >= s.knownMs then LostToFailure else Alive)
    case Foreign => s'.(verdict := Crashed)
  }

  /** The rounds are possible, as far as the heartbeat gets. */
  ghost predicate AllPossible(cfg: Config, grant: int, s: State, rounds: seq<Round>)
    decreases |rounds|
  {
    rounds == [] || !s.verdict.Alive? ||
    (Possible(cfg, s, rounds[0]) && AllPossible(cfg, grant, Beat(cfg, grant, s, rounds[0]), rounds[1..]))
  }

  ghost function Run(cfg: Config, grant: int, s: State, rounds: seq<Round>): State
    requires AllPossible(cfg, grant, s, rounds)
    decreases |rounds|
  {
    if rounds == [] || !s.verdict.Alive? then s
    else Run(cfg, grant, Beat(cfg, grant, s, rounds[0]), rounds[1..])
  }

  class Lease {
    var knownExpiryMs: int

    constructor (leaseExpiresAt: int)
      ensures knownExpiryMs == Millis(leaseExpiresAt)
    {
      knownExpiryMs := Millis(leaseExpiresAt);
    }

    /** Lease.extend, when its call returns a new expiry. */
    method Extended(newExpiry: int)
      modifies this
      ensures knownExpiryMs == Millis(newExpiry)
    {
      knownExpiryMs := Millis(newExpiry);
    }
  }

  /** _heartbeat.  The script ends where the heartbeat is cancelled; the handler is
      cancelled exactly when the one-element box is set. */
  method Beats(cfg: Config, grant: int, lease: Lease, leaseLost: array<bool>, ghost s: State,
               start: int, rounds: seq<Round>)
    returns (end: int, cancelsHandler: bool, ghost s': State)
    requires leaseLost.Length == 1
    requires s.verdict.Alive? && s.now == start && s.knownMs == lease.knownExpiryMs
    requires AllPossible(cfg, grant, s, rounds)
    modifies lease, leaseLost
    ensures s' == Run(cfg, grant, s, rounds)
    ensures end == s'.now && lease.knownExpiryMs == s'.knownMs
    ensures cancelsHandler == (s'.verdict.LostToServer? || s'.verdict.LostToFailure?)
    ensures leaseLost[0] == (old(leaseLost[0]) || cancelsHandler)
  {
    end, cancelsHandler, s' := start, false, s;
    var i := 0;
    while i < |rounds|
      invariant 0 <= i <= |rounds|
      invariant s'.verdict.Alive? && s'.now == end && s'.knownMs == lease.knownExpiryMs
      invariant AllPossible(cfg, grant, s', rounds[i..])
      invariant Run(cfg, grant, s', rounds[i..]) == Run(cfg, grant, s, rounds)
      invariant !cancelsHandler && leaseLost[0] == old(leaseLost[0])
    {
      var r := rounds[i];
      assert rounds[i..][0] == r && rounds[i..][1..] == rounds[i + 1..];
      s' := Beat(cfg, grant, s', r);
      var interval;
      if cfg.explicitInterval.Some? {
        interval := cfg.explicitInterval.value;
      } else {
        var remainingMs := Max(0, lease.knownExpiryMs - Millis(end));
        interval := HeartbeatInterval(remainingMs * 1000);
      }
      end := end + interval + r.oversleep + r.latency;
      i := i + 1;
      match r.reply {
        case Granted(k) =>
          lease.Extended(r.commits[k] + grant);
        case Reassigned =>
          leaseLost[0], cancelsHandler := true, true;
          return;
        case Transient =>
          if Millis(end) >= lease.knownExpiryMs {
            leaseLost[0], cancelsHandler := true, true;
            return;
          }
        case Foreign =>
          return;
      }
    }
  }

  // -------------------------------------------------------------------------- theorems

  /** What the worker believes never exceeds what the server granted. */
  predicate BeliefSound(grant: int, s: State) {
    s.knownMs == Millis(s.granted) && s.granted <= s.lastCommit + grant
  }

  /** The last failure's verdict agrees with the clock. */
  predicate VerdictTimely(s: State) {
    && (s.verdict.Alive? && s.failures > 0 ==> s.now < s.granted)
    && (s.verdict.LostToFailure? ==> s.now > s.granted - 1000)
  }

  /** One round, told apart by what the configuration and the reply are: an explicit
      interval is slept as it is, the default one is a third of what remains of the lease,
      to the nearest microsecond but no less than 1 ms; a grant, and only a grant, moves the
      known expiry, floored to milliseconds; a refusal loses the lease, and a transient
      failure exactly if the known expiry has passed. */
  lemma RoundIsAsConfigured(cfg: Config, grant: int, s: State, r: Round)
    requires Possible(cfg, s, r) && s.verdict.Alive?
    ensures var s' := Beat(cfg, grant, s, r);
            var slept := s'.now - s.now - r.oversleep - r.latency;
            var remaining := Max(0, s.knownMs * 1000 - s.now / 1000 * 1000);
            match cfg.explicitInterval
            case Some(interval) => slept == interval
            case None =>
              slept >= 1000 && ((slept == 1000 && remaining < 3000) || -3 <= 2 * (3 * slept - remaining) <= 3)
    ensures var s' := Beat(cfg, grant, s, r);
            match r.reply
            case Granted(k) =>
              && 1000 * s'.knownMs <= r.commits[k] + grant < 1000 * (s'.knownMs + 1)
              && s'.granted == r.commits[k] + grant && s'.verdict.Alive? && s'.failures == 0
            case Reassigned => s'.verdict.LostToServer? && s'.knownMs == s.knownMs
            case Transient =>
              && s'.knownMs == s.knownMs && s'.failures == s.failures + 1
              && s'.verdict == if s'.now >= 1000 * s.knownMs then LostToFailure else Alive
            case Foreign => s'.verdict.Crashed? && s'.knownMs == s.knownMs
  {
  }

  lemma BeatKeepsBelief(cfg: Config, grant: int, s: State, r: Round)
    requires Possible(cfg, s, r) && BeliefSound(grant, s)
    ensures BeliefSound(grant, Beat(cfg, grant, s, r))
    ensures s.verdict.Alive? ==> VerdictTimely(Beat(cfg, grant, s, r))
  {
  }

  lemma {:induction false} RunKeepsBelief(cfg: Config, grant: int, s: State, rounds: seq<Round>)
    requires AllPossible(cfg, grant, s, rounds) && BeliefSound(grant, s) && VerdictTimely(s)
    ensures BeliefSound(grant, Run(cfg, grant, s, rounds)) && VerdictTimely(Run(cfg, grant, s, rounds))
    decreases |rounds|
  {
    if rounds != [] && s.verdict.Alive? {
      BeatKeepsBelief(cfg, grant, s, rounds[0]);
      RunKeepsBelief(cfg, grant, Beat(cfg, grant, s, rounds[0]), rounds[1..]);
    }
  }

  /** Over any run, lost replies included: the known expiry is at most the server's actual
      one; whenever the heartbeat goes back to sleep after a failure, the lease has not
      expired at the server; and a loss is declared less than 1 ms before the last granted
      expiry at the earliest. */
  lemma BeliefIsConservative(cfg: Config, grant: int, committed: int, now: int, rounds: seq<Round>)
    requires AllPossible(cfg, grant, Reserved(grant, committed, now), rounds)
    ensures var s := Run(cfg, grant, Reserved(grant, committed, now), rounds);
            && s.knownMs * 1000 <= s.granted <= s.lastCommit + grant
            && (s.verdict.Alive? && s.failures > 0 ==> s.now < s.lastCommit + grant)
            && (s.verdict.LostToFailure? ==> s.now > s.granted - 1000)
  {
    RunKeepsBelief(cfg, grant, Reserved(grant, committed, now), rounds);
  }

  predicate AllTransient(rounds: seq<Round>) {
    forall i :: 0 <= i < |rounds| ==> rounds[i].reply.Transient?
  }

  lemma EverySleepLastsAMillisecond(cfg: Config, s: State, r: Round)
    requires GoodConfig(cfg)
    ensures WakeTime(cfg, s, r) >= s.now + 1000
  {
  }

  /** The heartbeat gives up in bounded time.  From any moment on, if every extend fails
      transiently, at most max(1, remaining ms) of them fail before the lease is declared
      lost, with the default interval or an explicit one; and it is declared lost by then. */
  lemma {:induction false} GivesUpInTime(cfg: Config, grant: int, s: State, rounds: seq<Round>)
    requires GoodConfig(cfg) && s.verdict.Alive? && AllTransient(rounds)
    requires AllPossible(cfg, grant, s, rounds)
    ensures var bound := Max(1, s.knownMs - Millis(s.now));
            var s' := Run(cfg, grant, s, rounds);
            && s'.failures - s.failures <= bound
            && (|rounds| >= bound ==> s'.verdict.LostToFailure?)
    decreases |rounds|
  {
    if rounds != [] {
      assert rounds[0].reply.Transient?;
      EverySleepLastsAMillisecond(cfg, s, rounds[0]);
      var s1 := Beat(cfg, grant, s, rounds[0]);
      assert s1.failures == s.failures + 1 && s1.knownMs == s.knownMs;
      assert Millis(s1.now) >= Millis(s.now) + 1;
      if s1.verdict.Alive? {
        GivesUpInTime(cfg, grant, s1, rounds[1..]);
      }
    }
  }

  /** Every extend succeeds, and no round is held up for more than `delay` microseconds. */
  ghost predicate Prompt(cfg: Config, grant: int, s: State, rounds: seq<Round>, delay: int)
    requires AllPossible(cfg, grant, s, rounds) && s.verdict.Alive?
    decreases |rounds|
  {
    rounds == [] ||
    (&& rounds[0].reply.Granted?
     && rounds[0].oversleep + rounds[0].latency <= delay
     && (forall i :: 0 <= i < |rounds[0].commits| ==>
           WakeTime(cfg, s, rounds[0]) <= rounds[0].commits[i] <= WakeTime(cfg, s, rounds[0]) + rounds[0].latency)
     && Prompt(cfg, grant, Beat(cfg, grant, s, rounds[0]), rounds[1..], delay))
  }

  /** The lease is running at the server each time an extend reaches it. */
  ghost predicate NeverLapses(cfg: Config, grant: int, s: State, rounds: seq<Round>)
    requires AllPossible(cfg, grant, s, rounds) && s.verdict.Alive?
    decreases |rounds|
  {
    rounds == [] ||
    (&& (forall i :: 0 <= i < |rounds[0].commits| ==> rounds[0].commits[i] < s.lastCommit + grant)
     && var s' := Beat(cfg, grant, s, rounds[0]);
        (s'.verdict.Alive? ==> NeverLapses(cfg, grant, s', rounds[1..])))
  }

  lemma PromptRoundIsInTime(grant: int, s: State, r: Round, delay: int)
    requires BeliefSound(grant, s) && s.now - (s.granted - grant) <= delay
    requires 5 * delay + 1002 < 2 * grant && grant - delay >= 4000
    requires 0 <= r.oversleep + r.latency <= delay
    ensures WakeTime(DEFAULT, s, r) + r.latency < s.lastCommit + grant
  {
    assert s.granted - s.now >= 4000;
    assert Millis(s.granted) - Millis(s.now) >= 3;
    DefaultLeavesTwoThirds(s.granted, s.now);
  }

  lemma {:induction false} PromptRoundsNeverLapse(grant: int, s: State, rounds: seq<Round>, delay: int)
    requires s.verdict.Alive? && BeliefSound(grant, s) && s.now - (s.granted - grant) <= delay
    requires 5 * delay + 1002 < 2 * grant && grant - delay >= 4000
    requires AllPossible(DEFAULT, grant, s, rounds) && Prompt(DEFAULT, grant, s, rounds, delay)
    ensures NeverLapses(DEFAULT, grant, s, rounds)
    decreases |rounds|
  {
    if rounds != [] {
      var r := rounds[0];
      PromptRoundIsInTime(grant, s, r, delay);
      BeatKeepsBelief(DEFAULT, grant, s, r);
      PromptRoundsNeverLapse(grant, Beat(DEFAULT, grant, s, r), rounds[1..], delay);
    }
  }

  /** The default cadence keeps the lease alive, whatever duration was requested: if the
      reserve's reply took no longer than `delay`, no round is held up for longer, extends
      succeed, and 5 * delay + 1002 us is less than twice the grant, then the lease is
      running at the server whenever an extend reaches it. */
  lemma KeepsLeaseAlive(grant: int, committed: int, now: int, rounds: seq<Round>, delay: int)
    requires now - committed <= delay
    requires 5 * delay + 1002 < 2 * grant && grant - delay >= 4000
    requires AllPossible(DEFAULT, grant, Reserved(grant, committed, now), rounds)
    requires Prompt(DEFAULT, grant, Reserved(grant, committed, now), rounds, delay)
    ensures NeverLapses(DEFAULT, grant, Reserved(grant, committed, now), rounds)
  {
    PromptRoundsNeverLapse(grant, Reserved(grant, committed, now), rounds, delay);
  }
}
