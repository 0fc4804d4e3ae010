/** What every flip guarantees: the order of its actions, when it cools, how long it drains, and what a
    reported success means. */
module FlipLaws {
  import opened Domain
  import opened Flip

  // The drain.

  /** The poll interval never leaves its bounds, through every doubling, cap and reset. */
  lemma {:induction false} WaitsStayInBounds(env: Env, min: nat, max: nat, deadline: int, k: nat, now: int, interval: nat, last: Option<nat>)
    requires 0 < min <= interval <= max
    ensures forall w | w in DrainFrom(env, min, max, deadline, k, now, interval, last).waits :: min <= w <= max
    decreases deadline - now
  {
    var polled := Poll(env, min, max, deadline, k, now, interval, last);
    if polled.Again? {
      WaitsStayInBounds(env, min, max, deadline, k + 1, polled.now, polled.wait, Some(polled.remaining));
    }
  }

  lemma {:induction false} QueriesFit(env: Env, min: nat, max: nat, deadline: int, k: nat, now: int, interval: nat, last: Option<nat>)
    requires 0 < min <= interval <= max
    ensures var q := DrainFrom(env, min, max, deadline, k, now, interval, last).queries;
            q >= 1 && (q >= 2 ==> (q - 2) * min < deadline - now)
    decreases deadline - now
  {
    var polled := Poll(env, min, max, deadline, k, now, interval, last);
    if polled.Again? {
      QueriesFit(env, min, max, deadline, k + 1, polled.now, polled.wait, Some(polled.remaining));
      var q := DrainFrom(env, min, max, deadline, k + 1, polled.now, polled.wait, Some(polled.remaining)).queries;
      assert (q - 1) * min == (q - 2) * min + min;
    }
  }

  /** A drain makes at most ceil(timeout / pollMin) + 1 queries, however late its timers fire. */
  lemma QueriesBounded(env: Env, min: nat, max: nat, timeout: nat, start: int)
    requires 0 < min <= max && timeout > 0
    ensures DrainFrom(env, min, max, start + timeout, 0, start, min, None).queries <= (timeout + min - 1) / min + 1
  {
    QueriesFit(env, min, max, start + timeout, 0, start, min, None);
    var q := DrainFrom(env, min, max, start + timeout, 0, start, min, None).queries;
    if q >= 2 { CeilingBound(q - 2, timeout, min); }
  }

  lemma CeilingBound(n: nat, t: nat, m: nat)
    requires m > 0 && n * m < t
    ensures n + 1 <= (t + m - 1) / m
  {
    var c := (t + m - 1) / m;
    assert c * m + (t + m - 1) % m == t + m - 1;
    assert c * m >= t;
    assert c <= n ==> c * m <= n * m;
  }

  /** It ends before the deadline plus one maximal interval, one timer's lateness and one query. */
  lemma {:induction false} EndBounded(env: Env, min: nat, max: nat, deadline: int, k: nat, now: int, interval: nat,
                                      last: Option<nat>, late: nat, slow: nat)
    requires 0 < min <= interval <= max && now < deadline + max + late
    requires forall j :: env.lateness(j) <= late && env.queryTime(j) <= slow
    ensures DrainFrom(env, min, max, deadline, k, now, interval, last).end < deadline + max + late + slow
    decreases deadline - now
  {
    var polled := Poll(env, min, max, deadline, k, now, interval, last);
    if polled.Again? {
      EndBounded(env, min, max, deadline, k + 1, polled.now, polled.wait, Some(polled.remaining), late, slow);
    }
  }

  /** With exact timers and instant queries the drain ends before its deadline plus pollMax. */
  lemma ExactDrainEnds(env: Env, min: nat, max: nat, timeout: nat, start: int)
    requires 0 < min <= max && timeout > 0 && forall j :: env.lateness(j) == 0 && env.queryTime(j) == 0
    ensures DrainFrom(env, min, max, start + timeout, 0, start, min, None).end < start + timeout + max
  {
    EndBounded(env, min, max, start + timeout, 0, start, min, None, 0, 0);
  }

  /** A drain that succeeds saw no connection left; one that times out saw some, past the deadline. */
  lemma {:induction false} DrainOutcome(env: Env, min: nat, max: nat, deadline: int, k: nat, now: int, interval: nat, last: Option<nat>)
    requires 0 < min <= interval <= max
    ensures var r := DrainFrom(env, min, max, deadline, k, now, interval, last);
            && r.queries >= 1
            && var final := env.conns(k + r.queries - 1);
            && (r.error == None <==> final == Remaining(0))
            && (final.Broken? ==> r.error == Some(final.error))
            && (r.error == Some(DrainTimeout) && !final.Broken? ==> final.count > 0 && r.end >= deadline)
    decreases deadline - now
  {
    var polled := Poll(env, min, max, deadline, k, now, interval, last);
    if polled.Again? {
      DrainOutcome(env, min, max, deadline, k + 1, polled.now, polled.wait, Some(polled.remaining));
    }
  }

  // The schedule of the drain.

  function Doubled(min: nat, n: nat): nat {
    if n == 0 then min else 2 * Doubled(min, n - 1)
  }

  /** The wait after n rounds in a row without progress: the minimum doubled n times, at most the maximum. */
  function QuietWait(min: nat, max: nat, n: nat): nat {
    if Doubled(min, n) > max then max else Doubled(min, n)
  }

  /** The connections a query of the drain found. */
  function Found(env: Env, j: nat): nat {
    if env.conns(j).Remaining? then env.conns(j).count else 0
  }

  /** The rounds in a row, up to query j, in which connections did not go down; the first counts as one. */
  function QuietRounds(env: Env, j: nat): nat {
    if j == 0 then 1 else if Found(env, j) < Found(env, j - 1) then 0 else QuietRounds(env, j - 1) + 1
  }

  lemma GrowDoubles(min: nat, max: nat, n: nat)
    requires 0 < min <= max
    ensures Grow(QuietWait(min, max, n), max) == QuietWait(min, max, n + 1)
  {
  }

  lemma NextIsQuietWait(env: Env, min: nat, max: nat, k: nat, interval: nat, last: Option<nat>)
    requires 0 < min <= max
    requires interval == (if k == 0 then min else QuietWait(min, max, QuietRounds(env, k - 1)))
    requires last == (if k == 0 then None else Some(Found(env, k - 1)))
    ensures NextInterval(interval, last, Found(env, k), min, max) == QuietWait(min, max, QuietRounds(env, k))
  {
    GrowDoubles(min, max, if k == 0 then 0 else QuietRounds(env, k - 1));
    assert Doubled(min, 0) == min;
  }

  predicate Begun(env: Env, min: nat, max: nat, k: nat, interval: nat, last: Option<nat>) {
    && 0 < min <= interval <= max
    && interval == (if k == 0 then min else QuietWait(min, max, QuietRounds(env, k - 1)))
    && last == (if k == 0 then None else Some(Found(env, k - 1)))
  }

  ghost predicate OnSchedule(env: Env, min: nat, max: nat, k: nat, waits: seq<nat>) {
    forall i | 0 <= i < |waits| :: waits[i] == QuietWait(min, max, QuietRounds(env, k + i))
  }

  predicate Waits(p: Polled, next: nat, found: nat) {
    (p.Again? ==> p.wait == next && p.remaining == found) && (p.Stop? ==> p.waits == [] || p.waits == [next])
  }

  lemma BegunNext(env: Env, min: nat, max: nat, k: nat, interval: nat, last: Option<nat>, next: nat)
    requires Begun(env, min, max, k, interval, last) && next == NextInterval(interval, last, Found(env, k), min, max)
    ensures next == QuietWait(min, max, QuietRounds(env, k)) && Begun(env, min, max, k + 1, next, Some(Found(env, k)))
  {
    NextIsQuietWait(env, min, max, k, interval, last);
    NextInBounds(interval, last, Found(env, k), min, max);
  }

  lemma NextInBounds(interval: nat, last: Option<nat>, remaining: nat, min: nat, max: nat)
    requires 0 < min <= interval <= max
    ensures min <= NextInterval(interval, last, remaining, min, max) <= max
  {
  }

  lemma OneOnSchedule(env: Env, min: nat, max: nat, k: nat, waits: seq<nat>)
    requires waits == [] || waits == [QuietWait(min, max, QuietRounds(env, k))]
    ensures OnSchedule(env, min, max, k, waits)
  {
  }

  /** A round waits the next interval, if it waits. */
  lemma PollWaits(env: Env, min: nat, max: nat, deadline: int, k: nat, now: int, interval: nat, last: Option<nat>)
    requires 0 < min <= interval <= max
    ensures Waits(Poll(env, min, max, deadline, k, now, interval, last),
                  NextInterval(interval, last, Found(env, k), min, max), Found(env, k))
  {
  }

  lemma ConsOnSchedule(env: Env, min: nat, max: nat, k: nat, rest: seq<nat>)
    requires OnSchedule(env, min, max, k + 1, rest)
    ensures OnSchedule(env, min, max, k, [QuietWait(min, max, QuietRounds(env, k))] + rest)
  {
    var waits := [QuietWait(min, max, QuietRounds(env, k))] + rest;
    forall i | 0 <= i < |waits| ensures waits[i] == QuietWait(min, max, QuietRounds(env, k + i)) {
      if i > 0 { assert rest[i - 1] == QuietWait(min, max, QuietRounds(env, k + 1 + (i - 1))); }
    }
  }

  lemma {:induction false} ScheduleFrom(env: Env, min: nat, max: nat, deadline: int, k: nat, now: int, interval: nat, last: Option<nat>)
    requires Begun(env, min, max, k, interval, last)
    ensures OnSchedule(env, min, max, k, DrainFrom(env, min, max, deadline, k, now, interval, last).waits)
    decreases deadline - now
  {
    var polled := Poll(env, min, max, deadline, k, now, interval, last);
    PollWaits(env, min, max, deadline, k, now, interval, last);
    BegunNext(env, min, max, k, interval, last, NextInterval(interval, last, Found(env, k), min, max));
    if polled.Stop? {
      OneOnSchedule(env, min, max, k, polled.waits);
    } else {
      ScheduleFrom(env, min, max, deadline, k + 1, polled.now, polled.wait, Some(polled.remaining));
      ConsOnSchedule(env, min, max, k, DrainFrom(env, min, max, deadline, k + 1, polled.now, polled.wait, Some(polled.remaining)).waits);
    }
  }

  /** The drain's schedule: n rounds in a row without progress wait the minimum doubled n times, at most the
      maximum, and progress sets the wait back to the minimum. */
  lemma DrainSchedule(env: Env, min: nat, max: nat, timeout: nat, start: int, i: nat)
    requires 0 < min <= max && i < |DrainFrom(env, min, max, start + timeout, 0, start, min, None).waits|
    ensures DrainFrom(env, min, max, start + timeout, 0, start, min, None).waits[i] == QuietWait(min, max, QuietRounds(env, i))
  {
    ScheduleFrom(env, min, max, start + timeout, 0, start, min, None);
  }

  /** The time n rounds take: query, wait and lateness of each. */
  function Spent(env: Env, k: nat, waits: seq<nat>, n: nat): nat
    requires n <= |waits|
    decreases n
  {
    if n == 0 then 0 else env.queryTime(k) + waits[0] + env.lateness(k) + Spent(env, k + 1, waits[1..], n - 1)
  }

  /** How a drain that began with query k at time `now` went: every query but the last found connections and
      its wait was not cancelled; the last ended the drain, with its own error, with none left, past the
      deadline, or cancelled in its wait; and the drain took the time of its queries, waits and late timers. */
  ghost predicate Went(env: Env, deadline: int, k: nat, now: int, r: Drained) {
    && r.queries >= 1 && |r.waits| >= r.queries - 1
    && (forall j | k <= j < k + r.queries - 1 :: env.conns(j).Remaining? && env.conns(j).count > 0 && !env.cancelledInWait(j))
    && var final := k + r.queries - 1;
    && r.end == now + Spent(env, k, r.waits, r.queries - 1) + env.queryTime(final)
    && Closes(env, deadline, final, r.end, r.error)
  }

  predicate Closes(env: Env, deadline: int, final: nat, end: int, error: Option<Error>) {
    && error == (if env.conns(final).Broken? then Some(env.conns(final).error)
                 else if env.conns(final).count == 0 then None
                 else if end >= deadline then Some(DrainTimeout)
                 else Some(Cancelled))
    && (env.conns(final).Remaining? && env.conns(final).count > 0 && end < deadline ==> env.cancelledInWait(final))
  }

  lemma WentOneMore(env: Env, deadline: int, k: nat, now: int, wait: nat, rest: Drained)
    requires env.conns(k).Remaining? && env.conns(k).count > 0 && !env.cancelledInWait(k)
    requires Went(env, deadline, k + 1, now + env.queryTime(k) + wait + env.lateness(k), rest)
    ensures Went(env, deadline, k, now, Continued(1, [wait], rest))
  {
    assert ([wait] + rest.waits)[1..] == rest.waits;
  }

  lemma {:induction false} DrainHistory(env: Env, min: nat, max: nat, deadline: int, k: nat, now: int, interval: nat, last: Option<nat>)
    requires 0 < min <= interval <= max
    ensures Went(env, deadline, k, now, DrainFrom(env, min, max, deadline, k, now, interval, last))
    decreases deadline - now
  {
    var polled := Poll(env, min, max, deadline, k, now, interval, last);
    if polled.Again? {
      DrainHistory(env, min, max, deadline, k + 1, polled.now, polled.wait, Some(polled.remaining));
      WentOneMore(env, deadline, k, now, polled.wait,
                  DrainFrom(env, min, max, deadline, k + 1, polled.now, polled.wait, Some(polled.remaining)));
    }
  }

  // The phases.

  const WHOLE: seq<Action> := [ValidateBackend, SwapRoute, DrainOld, CoolOldBackend]

  /** The actions completed when a run that began steady is in a phase. */
  function Completed(p: Phase): seq<Action> {
    match p
    case Warming => [ValidateBackend]
    case Swapped => [ValidateBackend, SwapRoute]
    case Cooling => [ValidateBackend, SwapRoute, DrainOld]
    case Cool => WHOLE
    case _ => []
  }

  predicate InCycle(p: Phase) {
    p == Steady || p == Announced || p == Warming || p == Swapped || p == Cooling || p == Cool
  }

  /** The actions completed on the way to a phase all succeeded. */
  predicate ReachedOk(p: Phase, env: Env, drained: Option<Error>) {
    && (p == Warming || p == Swapped || p == Cooling || p == Cool ==> env.validate == None)
    && (p == Swapped || p == Cooling || p == Cool ==> env.swap == None)
    && (p == Cooling || p == Cool ==> drained == None)
    && (p == Cool ==> env.cool == None)
  }

  /** Where a run stops: steady after everything succeeded, or in the last completed phase, with that
      phase's actions done and nothing but the failed action tried after them. */
  ghost predicate StopsSafely(phase: Phase, error: Option<Error>, trace: seq<Action>, env: Env, drained: Option<Error>) {
    && InCycle(phase)
    && if error == None then phase == Steady && trace == WHOLE && ReachedOk(Cool, env, drained)
       else
         && ReachedOk(phase, env, drained)
         && if env.cancelledAt(phase) then error == Some(Cancelled) && trace == Completed(phase)
            else error == PhaseResult(NextPhase(phase), env, drained) && trace == Tried(phase)
  }

  /** The actions completed in a phase and the one tried next. */
  function Tried(p: Phase): seq<Action> {
    Completed(p) + ActionFor(NextPhase(p))
  }

  lemma NextCompletes(p: Phase, env: Env, drained: Option<Error>)
    requires InCycle(p) && p != Cool && ReachedOk(p, env, drained) && PhaseResult(NextPhase(p), env, drained) == None
    ensures InCycle(NextPhase(p)) && ReachedOk(NextPhase(p), env, drained)
    ensures Tried(p) == Completed(NextPhase(p))
  {
  }

  lemma Regroup(a: seq<Action>, b: seq<Action>, c: seq<Action>)
    ensures a + (b + c) == (a + b) + c
  {
  }

  lemma {:induction false} RunStopsSafely(p: Phase, env: Env, drained: Option<Error>)
    requires InCycle(p) && ReachedOk(p, env, drained)
    ensures var r := RunFrom(p, env, drained);
            StopsSafely(r.phase, r.error, Completed(p) + r.trace, env, drained)
    decreases Rank(p)
  {
    var target := NextPhase(p);
    if env.cancelledAt(p) {
      assert Completed(p) + [] == Completed(p);
    } else if PhaseResult(target, env, drained).None? && target != Steady {
      var rest := RunFrom(target, env, drained);
      NextCompletes(p, env, drained);
      RunStopsSafely(target, env, drained);
      Regroup(Completed(p), ActionFor(target), rest.trace);
    }
  }

  lemma TriedFacts(p: Phase)
    requires InCycle(p)
    ensures Completed(p) <= Tried(p) <= WHOLE
    ensures SwapRoute in Tried(p) <==> p == Warming || p == Swapped || p == Cooling || p == Cool
    ensures DrainOld in Tried(p) <==> p == Swapped || p == Cooling || p == Cool
    ensures CoolOldBackend in Tried(p) <==> p == Cooling || p == Cool
  {
    assert p == Steady ==> Tried(p) == [];
    assert p == Announced ==> Tried(p) == [ValidateBackend];
    assert p == Warming ==> Tried(p) == [ValidateBackend, SwapRoute];
    assert p == Swapped ==> Tried(p) == [ValidateBackend, SwapRoute, DrainOld];
    assert p == Cooling || p == Cool ==> Tried(p) == WHOLE;
  }

  lemma FreshRunStops(env: Env, drained: Option<Error>)
    ensures var r := RunFrom(Steady, env, drained);
            StopsSafely(r.phase, r.error, r.trace, env, drained)
  {
    RunStopsSafely(Steady, env, drained);
    var r := RunFrom(Steady, env, drained);
    assert Completed(Steady) + r.trace == r.trace;
  }

  /** From a fresh plan the actions run in order, each after the success of the one before: the trace is
      a prefix of validate, swap, drain, cool; an action is tried only after the ones before it succeeded;
      a run without error did all four; and the phase returned after an error is the last completed one. */
  lemma FreshRunIsSafe(env: Env, drained: Option<Error>)
    ensures var r := RunFrom(Steady, env, drained);
            && r.trace <= WHOLE
            && (SwapRoute in r.trace ==> env.validate == None)
            && (DrainOld in r.trace ==> env.swap == None)
            && (CoolOldBackend in r.trace ==> drained == None && env.swap == None)
            && (r.error == None ==> r.trace == WHOLE && env.cool == None)
            && (r.error != None ==> InCycle(r.phase) && Completed(r.phase) <= r.trace <= Tried(r.phase))
  {
    FreshRunStops(env, drained);
    TriedFacts(RunFrom(Steady, env, drained).phase);
  }

  lemma DrainedSawNone(env: Env, min: nat, max: nat, deadline: int, start: int)
    requires 0 < min <= max && DrainFrom(env, min, max, deadline, 0, start, min, None).error == None
    ensures SawNone(env, DrainFrom(env, min, max, deadline, 0, start, min, None))
  {
    DrainOutcome(env, min, max, deadline, 0, start, min, None);
  }

  /** The last query the drain made found no connection left. */
  predicate SawNone(env: Env, r: Drained) {
    r.queries >= 1 && env.conns(r.queries - 1) == Remaining(0)
  }

  lemma CoolsAfterDrain(env: Env, drained: Option<Error>)
    requires CoolOldBackend in RunFrom(Steady, env, drained).trace
    ensures env.swap == None && drained == None
  {
    FreshRunIsSafe(env, drained);
  }

  /** Cooling the old backend happens only after a successful swap, and when the old backend was
      unreachable or the drain's last query saw no connection left. */
  lemma CoolsOnlyWhenDrained(env: Env, min: nat, max: nat, plan: Plan, start: int, drained: Option<Error>)
    requires 0 < min <= max && drained == DrainError(env, min, max, plan, start)
    requires CoolOldBackend in RunFrom(Steady, env, drained).trace
    ensures env.swap == None
    ensures env.reachable ==>
              SawNone(env, DrainFrom(env, min, max, start + plan.drainTimeout, 0, start, min, None))
  {
    CoolsAfterDrain(env, drained);
    if env.reachable { DrainedSawNone(env, min, max, start + plan.drainTimeout, start); }
  }

  /** What is left to do from a phase on; nothing is known to be left from an unknown one. */
  function Rest(p: Phase): seq<Action> {
    match p
    case Steady => WHOLE
    case Announced => WHOLE
    case Warming => WHOLE[1..]
    case Swapped => WHOLE[2..]
    case Cooling => WHOLE[3..]
    case _ => []
  }

  lemma RestStep(p: Phase)
    requires InCycle(p) && p != Cool
    ensures Rest(p) == ActionFor(NextPhase(p)) + Rest(NextPhase(p))
  {
    assert WHOLE == [ValidateBackend] + WHOLE[1..] && WHOLE[1..] == [SwapRoute] + WHOLE[2..];
    assert WHOLE[2..] == [DrainOld] + WHOLE[3..] && WHOLE[3..] == [CoolOldBackend] + [];
  }

  /** A run resumed in any phase that succeeds has performed exactly what was left from that phase on. */
  lemma {:induction false} SuccessPerformsRest(p: Phase, env: Env, drained: Option<Error>)
    requires RunFrom(p, env, drained).error == None
    ensures RunFrom(p, env, drained).trace == Rest(p) && RunFrom(p, env, drained).phase == Steady
    decreases Rank(p)
  {
    if InCycle(p) && p != Cool {
      SuccessPerformsRest(NextPhase(p), env, drained);
      RestStep(p);
    }
  }

  /** So success means swapped exactly for plans resumed before the swap: one resumed later, or in a phase
      the machine does not know, is reported as done without a swap of its own. */
  lemma ResumedSuccessSwapsIff(p: Phase, env: Env, drained: Option<Error>)
    requires RunFrom(p, env, drained).error == None
    ensures SwapRoute in RunFrom(p, env, drained).trace <==> p == Steady || p == Announced || p == Warming
    ensures RunFrom(p, env, drained).trace == [] <==> !InCycle(p) || p == Cool
  {
    SuccessPerformsRest(p, env, drained);
    assert WHOLE[1] == SwapRoute && WHOLE[1..][0] == SwapRoute;
    assert WHOLE[2..] == [DrainOld, CoolOldBackend] && WHOLE[3..] == [CoolOldBackend];
  }

  /** An unknown phase never fails but by cancellation. */
  lemma UnknownPhaseDoesNothing(p: Phase, env: Env, drained: Option<Error>)
    requires !InCycle(p)
    ensures RunFrom(p, env, drained).trace == []
    ensures RunFrom(p, env, drained).error == None <==> !env.cancelledAt(p)
  {
  }

  predicate NeverCancelled(env: Env) {
    !env.cancelledAt(Steady) && !env.cancelledAt(Announced) && !env.cancelledAt(Warming)
    && !env.cancelledAt(Swapped) && !env.cancelledAt(Cooling) && !env.cancelledAt(Cool)
  }

  lemma {:induction false} SuccessFromIff(p: Phase, env: Env, drained: Option<Error>)
    requires InCycle(p)
    ensures RunFrom(p, env, drained).error == None <==>
            !env.cancelledAt(p) && (p != Cool ==> PhaseResult(NextPhase(p), env, drained) == None
                                                  && RunFrom(NextPhase(p), env, drained).error == None)
  {
  }

  /** A fresh flip succeeds if and only if all four actions succeed and the context lasts through every phase. */
  lemma SucceedsIff(env: Env, drained: Option<Error>)
    ensures RunFrom(Steady, env, drained).error == None <==>
            NeverCancelled(env) && env.validate == None && env.swap == None && drained == None && env.cool == None
  {
    SuccessFromIff(Steady, env, drained);
    SuccessFromIff(Announced, env, drained);
    SuccessFromIff(Warming, env, drained);
    SuccessFromIff(Swapped, env, drained);
    SuccessFromIff(Cooling, env, drained);
    SuccessFromIff(Cool, env, drained);
  }

  // The executor.

  predicate IsBackendFlip(existing: Placement, desired: Placement) {
    && existing.applied == Applied
    && existing.desired == Active && desired.desired == Active
    && existing.clientId == desired.clientId
    && existing.backendId != desired.backendId
  }

  class FlipExecutor {
    const orchestrator: Orchestrator
    const drainTimeout: int

    constructor (orchestrator: Orchestrator, drainTimeout: int)
      ensures this.orchestrator == orchestrator
      ensures this.drainTimeout == (if drainTimeout <= 0 then 30000 else drainTimeout)
    {
      this.orchestrator := orchestrator;
      this.drainTimeout := if drainTimeout <= 0 then 30000 else drainTimeout;
    }

    /** Flips gracefully when only the backend of an applied, active placement changes and applies
        simply otherwise; a drain that timed out counts as success. */
    method Apply(desired: Placement, existing: Option<Placement>, simple: Option<Error>, env: Env, start: int)
      returns (error: Option<Error>, trace: seq<Action>)
      requires 0 < orchestrator.pollMin <= orchestrator.pollMax && drainTimeout > 0
      ensures var flips := existing.Some? && existing.value.applied == Applied
                           && existing.value.desired == Active && desired.desired == Active
                           && existing.value.clientId == desired.clientId && existing.value.backendId != desired.backendId;
              && (!flips ==> error == simple && trace == [])
              && (flips && desired.id == "" ==> error.Some? && error.value.Invalid? && trace == [])
      ensures existing.Some? && IsBackendFlip(existing.value, desired) && desired.id != "" ==>
                && var plan := Plan(desired.id, existing.value.backendId, desired.backendId, Unset, false, drainTimeout);
                && var r := RunFrom(Steady, env, DrainError(env, orchestrator.pollMin, orchestrator.pollMax, plan, start));
                error == Reported(r) && trace == r.trace
    {
      if existing.None? || !IsBackendFlip(existing.value, desired) { return simple, []; }
      var plan := Plan(desired.id, existing.value.backendId, desired.backendId, Unset, false, drainTimeout);
      var plan';
      plan', error, trace := orchestrator.Execute(plan, env, start);
      if error == Some(DrainTimeout) { error := None; }
    }
  }

  /** What the executor reports of a run. */
  function Reported(r: Ran): Option<Error> {
    if r.error == Some(DrainTimeout) then None else r.error
  }

  /** The validation or the swap is reached and fails with the drain-timeout error. */
  predicate EarlyTimeout(env: Env) {
    && !env.cancelledAt(Steady) && !env.cancelledAt(Announced)
    && (env.validate == Some(DrainTimeout)
        || (env.validate == None && !env.cancelledAt(Warming) && env.swap == Some(DrainTimeout)))
  }

  lemma EarlyTimeoutStops(env: Env, drained: Option<Error>)
    ensures var r := RunFrom(Steady, env, drained);
            EarlyTimeout(env) <==> r.error == Some(DrainTimeout) && (r.phase == Announced || r.phase == Warming)
  {
    var announced, warming := RunFrom(Announced, env, drained), RunFrom(Warming, env, drained);
    var steady := RunFrom(Steady, env, drained);
    assert !env.cancelledAt(Steady) ==> steady.phase == announced.phase && steady.error == announced.error;
    assert !env.cancelledAt(Announced) && env.validate == None ==> announced.phase == warming.phase && announced.error == warming.error;
    if !env.cancelledAt(Warming) && env.swap == None { RunStopsLate(env, drained); }
  }

  lemma RunStopsLate(env: Env, drained: Option<Error>)
    requires !env.cancelledAt(Warming) && env.swap == None
    ensures var r := RunFrom(Warming, env, drained); r.phase != Announced && r.phase != Warming
  {
    var cool, cooling := RunFrom(Cool, env, drained), RunFrom(Cooling, env, drained);
    var swapped := RunFrom(Swapped, env, drained);
    assert cool.phase == Cool || cool.phase == Steady;
    assert cooling.phase == Cooling || cooling.phase == cool.phase;
    assert swapped.phase == Swapped || swapped.phase == cooling.phase;
  }

  /** What a fresh run comes to up to its swap: cancelled or refused before it, or the swap is tried. */
  lemma RunUpToSwap(env: Env, drained: Option<Error>)
    ensures var r := RunFrom(Steady, env, drained);
            if env.cancelledAt(Steady) || env.cancelledAt(Announced) then SwapRoute !in r.trace && r.error == Some(Cancelled)
            else if env.validate != None then SwapRoute !in r.trace && r.error == env.validate
            else if env.cancelledAt(Warming) then SwapRoute !in r.trace && r.error == Some(Cancelled)
            else SwapRoute in r.trace && (env.swap != None ==> r.error == env.swap)
  {
    var announced, warming := RunFrom(Announced, env, drained), RunFrom(Warming, env, drained);
    var steady := RunFrom(Steady, env, drained);
    assert !env.cancelledAt(Steady) ==> steady.trace == announced.trace && steady.error == announced.error;
    if !env.cancelledAt(Announced) && env.validate == None {
      assert announced.trace == [ValidateBackend] + warming.trace && announced.error == warming.error;
      if !env.cancelledAt(Warming) { assert warming.trace[0] == SwapRoute; }
    }
  }

  /** A flip reported as successful has swapped the route, also when its drain timed out, exactly when
      neither the validation nor the swap fails with the drain-timeout error. */
  lemma SuccessMeansSwapped(env: Env, drained: Option<Error>)
    ensures var r := RunFrom(Steady, env, drained);
            (Reported(r) == None ==> SwapRoute in r.trace && env.swap == None) <==> !EarlyTimeout(env)
  {
    var r := RunFrom(Steady, env, drained);
    FreshRunStops(env, drained);
    EarlyTimeoutStops(env, drained);
    TriedFacts(r.phase);
    if r.error == None { assert WHOLE[1] == SwapRoute; }
  }
}
