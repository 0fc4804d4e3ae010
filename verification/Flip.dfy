/** The graceful flip: a phase machine that validates, swaps, drains and cools, and its bounded drain. */
module Flip {
  import opened Domain

  datatype Phase = Unset | Steady | Announced | Warming | Swapped | Cooling | Cool | Other(name: string)

  /** The phase after a phase; anything unknown is followed by steady. */
  function NextPhase(p: Phase): Phase {
    match p
    case Steady => Announced
    case Announced => Warming
    case Warming => Swapped
    case Swapped => Cooling
    case Cooling => Cool
    case _ => Steady
  }

  datatype Error = DrainTimeout | Cancelled | Invalid(reason: string) | ActionError(reason: string)

  datatype Plan = Plan(placementId: string, oldBackend: string, newBackend: string, phase: Phase, started: bool, drainTimeout: int)

  datatype Reply = Remaining(count: nat) | Broken(error: Error)

  /** How the surroundings behave: the results of the actions, the answers to the successive connection
      queries, how long each query takes, how late each timer fires and when the context ends. */
  datatype Env = Env(
    validate: Option<Error>,
    swap: Option<Error>,
    cool: Option<Error>,
    reachable: bool,
    conns: nat -> Reply,
    queryTime: nat -> nat,
    lateness: nat -> nat,
    cancelledInWait: nat -> bool,
    cancelledAt: Phase -> bool)

  // Draining.

  function Grow(interval: nat, max: nat): nat {
    if interval >= max then interval else if 2 * interval > max then max else 2 * interval
  }

  /** The next poll interval: back to the minimum when connections went down, doubled otherwise. */
  function NextInterval(interval: nat, last: Option<nat>, remaining: nat, min: nat, max: nat): nat {
    if last.Some? && remaining < last.value then min else Grow(interval, max)
  }

  datatype Drained = Drained(error: Option<Error>, queries: nat, end: int, waits: seq<nat>)

  /** One query ends the drain or is followed by a wait and the next query. */
  datatype Polled = Stop(error: Option<Error>, end: int, waits: seq<nat>) | Again(now: int, wait: nat, remaining: nat)

  function Poll(env: Env, min: nat, max: nat, deadline: int, k: nat, now: int, interval: nat, last: Option<nat>): (r: Polled)
    requires 0 < min <= interval <= max
    ensures r.Again? ==> now < deadline && min <= r.wait <= max && now + r.wait <= r.now
  {
    var reply := env.conns(k);
    var t := now + env.queryTime(k);
    if reply.Broken? then Stop(Some(reply.error), t, [])
    else if reply.count == 0 then Stop(None, t, [])
    else if t >= deadline then Stop(Some(DrainTimeout), t, [])
    else
      var wait := NextInterval(interval, last, reply.count, min, max);
      if env.cancelledInWait(k) then Stop(Some(Cancelled), t, [wait])
      else Again(t + wait + env.lateness(k), wait, reply.count)
  }

  /** The drain from its k-th query on, at time `now`. The remaining time is what decreases. */
  function DrainFrom(env: Env, min: nat, max: nat, deadline: int, k: nat, now: int, interval: nat, last: Option<nat>): Drained
    requires 0 < min <= interval <= max
    decreases deadline - now
  {
    match Poll(env, min, max, deadline, k, now, interval, last)
    case Stop(error, end, waits) => Drained(error, 1, end, waits)
    case Again(next, wait, remaining) =>
      Continued(1, [wait], DrainFrom(env, min, max, deadline, k + 1, next, wait, Some(remaining)))
  }

  /** A drain that had made `queries` queries and these waits before the rest. */
  function Continued(queries: nat, waits: seq<nat>, rest: Drained): Drained {
    Drained(rest.error, rest.queries + queries, rest.end, waits + rest.waits)
  }

  lemma ContinuedTwice(p: nat, x: seq<nat>, q: nat, y: seq<nat>, rest: Drained)
    ensures Continued(p, x, Continued(q, y, rest)) == Continued(p + q, x + y, rest)
  {
    assert x + (y + rest.waits) == (x + y) + rest.waits;
  }

  class Orchestrator {
    const pollMin: nat
    const pollMax: nat

    constructor (interval: int, max: int)
      ensures pollMin == if interval <= 0 then 50 else interval
      ensures pollMax == if max < pollMin then pollMin else max
      ensures 0 < pollMin <= pollMax
    {
      var low: nat := if interval <= 0 then 50 else interval;
      pollMin := low;
      pollMax := if max < low then low else max;
    }

    /** One round of the drain: query, decide, choose the next interval, wait. */
    method PollOnce(env: Env, deadline: int, k: nat, start: int, poll: nat, last: Option<nat>) returns (r: Polled)
      requires 0 < pollMin <= poll <= pollMax
      ensures r == Poll(env, pollMin, pollMax, deadline, k, start, poll, last)
    {
      var now, interval := start, poll;
      var reply := env.conns(k);
      now := now + env.queryTime(k);
      if reply.Broken? { return Stop(Some(reply.error), now, []); }
      if reply.count == 0 { return Stop(None, now, []); }
      if !(now < deadline) { return Stop(Some(DrainTimeout), now, []); }
      if last.Some? && reply.count < last.value {
        interval := pollMin;
      } else if interval < pollMax {
        interval := interval * 2;
        if interval > pollMax { interval := pollMax; }
      }
      if env.cancelledInWait(k) { return Stop(Some(Cancelled), now, [interval]); }
      r := Again(now + interval + env.lateness(k), interval, reply.count);
    }

    /** Polls until no connection is left on the old backend, the deadline passes or the context ends. */
    method Drain(plan: Plan, env: Env, start: int) returns (r: Drained)
      requires 0 < pollMin <= pollMax
      ensures !env.reachable ==> r == Drained(None, 0, start, [])
      ensures env.reachable ==> r == DrainFrom(env, pollMin, pollMax, start + plan.drainTimeout, 0, start, pollMin, None)
    {
      if !env.reachable { return Drained(None, 0, start, []); }
      var deadline := start + plan.drainTimeout;
      var interval, now, k := pollMin, start, 0;
      var last: Option<nat> := None;
      var waits: seq<nat> := [];
      ghost var whole := DrainFrom(env, pollMin, pollMax, deadline, 0, start, pollMin, None);
      while true
        invariant pollMin <= interval <= pollMax
        invariant whole == Continued(k, waits, DrainFrom(env, pollMin, pollMax, deadline, k, now, interval, last))
        decreases deadline - now
      {
        var polled := PollOnce(env, deadline, k, now, interval, last);
        if polled.Stop? { return Drained(polled.error, k + 1, polled.end, waits + polled.waits); }
        ContinuedTwice(k, waits, 1, [polled.wait],
                       DrainFrom(env, pollMin, pollMax, deadline, k + 1, polled.now, polled.wait, Some(polled.remaining)));
        now, interval, last := polled.now, polled.wait, Some(polled.remaining);
        waits, k := waits + [polled.wait], k + 1;
      }
    }

    /** Runs the phases from the plan's phase on, until steady or the first failure. */
    method Execute(plan: Plan, env: Env, start: int) returns (plan': Plan, error: Option<Error>, trace: seq<Action>)
      requires 0 < pollMin <= pollMax
      ensures plan.placementId == "" || plan.oldBackend == plan.newBackend || plan.drainTimeout <= 0 ==>
                plan' == plan && error.Some? && error.value.Invalid? && trace == []
      ensures !(plan.placementId == "" || plan.oldBackend == plan.newBackend || plan.drainTimeout <= 0) ==>
                && var phase := Resumed(plan.phase);
                if phase == Steady && plan.started then plan' == plan.(phase := Steady) && error == None && trace == []
                else Ran(plan'.phase, error, trace) == RunFrom(phase, env, DrainError(env, pollMin, pollMax, plan, start))
                     && plan' == plan.(phase := plan'.phase, started := true)
    {
      plan' := plan;
      if plan.placementId == "" { return plan, Some(Invalid("PlacementID required")), []; }
      if plan.oldBackend == plan.newBackend { return plan, Some(Invalid("OldBackend == NewBackend")), []; }
      if plan.drainTimeout <= 0 { return plan, Some(Invalid("DrainTimeout must be > 0")), []; }
      if plan'.phase == Unset { plan' := plan'.(phase := Steady); }
      if plan'.phase == Steady && plan'.started { return plan', None, []; }
      plan' := plan'.(started := true);
      trace := [];
      ghost var drained := DrainError(env, pollMin, pollMax, plan, start);
      ghost var whole := RunFrom(plan'.phase, env, drained);
      while true
        invariant plan' == plan.(phase := plan'.phase, started := true)
        invariant whole == After(trace, RunFrom(plan'.phase, env, drained))
        decreases Rank(plan'.phase)
      {
        if env.cancelledAt(plan'.phase) { return plan', Some(Cancelled), trace; }
        var target := NextPhase(plan'.phase);
        error := RunPhase(plan, env, start, target);
        AfterStep(trace, ActionFor(target), RunFrom(target, env, drained));
        trace := trace + ActionFor(target);
        if error.Some? { return plan', error, trace; }
        plan' := plan'.(phase := target);
        if target == Steady { return plan', None, trace; }
      }
    }

    method RunPhase(plan: Plan, env: Env, start: int, target: Phase) returns (error: Option<Error>)
      requires 0 < pollMin <= pollMax
      ensures error == PhaseResult(target, env, DrainError(env, pollMin, pollMax, plan, start))
    {
      match target
      case Announced => error := None;
      case Warming => error := env.validate;
      case Swapped => error := env.swap;
      case Cooling =>
        var r := Drain(plan, env, start);
        error := r.error;
      case Cool => error := env.cool;
      case Steady => error := None;
      case _ => error := Some(Invalid("unknown target state"));
    }
  }

  // Executing a plan.

  datatype Action = ValidateBackend | SwapRoute | DrainOld | CoolOldBackend

  function ActionFor(target: Phase): seq<Action> {
    match target
    case Warming => [ValidateBackend]
    case Swapped => [SwapRoute]
    case Cooling => [DrainOld]
    case Cool => [CoolOldBackend]
    case _ => []
  }

  function PhaseResult(target: Phase, env: Env, drained: Option<Error>): Option<Error> {
    match target
    case Announced => None
    case Warming => env.validate
    case Swapped => env.swap
    case Cooling => drained
    case Cool => env.cool
    case Steady => None
    case _ => Some(Invalid("unknown target state"))
  }

  function DrainError(env: Env, min: nat, max: nat, plan: Plan, start: int): Option<Error>
    requires 0 < min <= max
  {
    if !env.reachable then None
    else DrainFrom(env, min, max, start + plan.drainTimeout, 0, start, min, None).error
  }

  function Resumed(p: Phase): Phase {
    if p == Unset then Steady else p
  }

  /** How many phases remain before steady is reached again. */
  function Rank(p: Phase): nat {
    match p
    case Steady => 6
    case Announced => 5
    case Warming => 4
    case Swapped => 3
    case Cooling => 2
    case _ => 1
  }

  datatype Ran = Ran(phase: Phase, error: Option<Error>, trace: seq<Action>)

  /** A run that had this trace before the rest. */
  function After(trace: seq<Action>, rest: Ran): Ran {
    Ran(rest.phase, rest.error, trace + rest.trace)
  }

  lemma AfterStep(trace: seq<Action>, step: seq<Action>, rest: Ran)
    ensures After(trace, After(step, rest)) == After(trace + step, rest)
  {
    assert trace + (step + rest.trace) == (trace + step) + rest.trace;
  }

  function RunFrom(p: Phase, env: Env, drained: Option<Error>): Ran
    decreases Rank(p)
  {
    if env.cancelledAt(p) then Ran(p, Some(Cancelled), [])
    else
      var target := NextPhase(p);
      var result := PhaseResult(target, env, drained);
      if result.Some? then Ran(p, result, ActionFor(target))
      else if target == Steady then Ran(Steady, None, ActionFor(target))
      else After(ActionFor(target), RunFrom(target, env, drained))
  }
}
