/** What every run of the retry loop keeps (src/engine.rs:173-407). */
module EngineTheorems {
  import opened Common
  import opened Backoff
  import opened Engine

  // --- Attempts and events -----------------------------------------------------------------

  /** The attempt numbers of the retries a trace schedules, in order. */
  function RetryNumbers(events: seq<Event>): seq<nat> {
    if events == [] then []
    else (if events[0].RetryScheduled? then [events[0].attempt] else []) + RetryNumbers(events[1..])
  }

  function Successes(events: seq<Event>): nat {
    if events == [] then 0 else (if events[0].Succeeded? then 1 else 0) + Successes(events[1..])
  }

  lemma {:induction false} TraceConcat(a: seq<Event>, b: seq<Event>)
    ensures RetryNumbers(a + b) == RetryNumbers(a) + RetryNumbers(b)
    ensures Successes(a + b) == Successes(a) + Successes(b)
  {
    if a == [] {
      assert a + b == b;
    } else {
      assert (a + b)[1..] == a[1..] + b;
      TraceConcat(a[1..], b);
      var first := if a[0].RetryScheduled? then [a[0].attempt] else [];
      assert first + (RetryNumbers(a[1..]) + RetryNumbers(b)) == (first + RetryNumbers(a[1..])) + RetryNumbers(b);
    }
  }

  /** `s` counts up from `n`. */
  ghost predicate CountsFrom(s: seq<nat>, n: nat) {
    forall i :: 0 <= i < |s| ==> s[i] == n + i
  }

  /** The attempts of a run that starts at attempt `n`: numbered without a gap, at most up to the
      cap, each after the one before; and the retries scheduled between them. */
  ghost predicate WellNumbered<T, E>(env: Env<T, E>, n: nat, r: Report<T, E>) {
    (forall i :: 0 <= i < |r.calls| ==> r.calls[i].number == n + i) &&
    n + |r.calls| <= env.plan.maxAttempts + 1 &&
    CountsFrom(RetryNumbers(r.events), n) &&
    |r.calls| - 1 <= |RetryNumbers(r.events)| <= |r.calls|
  }

  /** The last event names the outcome, and only the exit after a truncated sleep has none of
      its own. */
  ghost predicate LastEventTells<T, E>(n: nat, r: Report<T, E>)
    requires n >= 1
  {
    var k := n + |r.calls| - 1;
    r.events != [] &&
    var last := r.events[|r.events| - 1];
    (r.outcome.Success? <==> last.Succeeded?) &&
    (last.Succeeded? ==> last == Succeeded(k) && r.calls != [] && |RetryNumbers(r.events)| == |r.calls| - 1) &&
    Successes(r.events) == (if r.outcome.Success? then 1 else 0) &&
    (r.outcome.Failure? ==>
      match r.outcome.cause
      case Operation(_) => last == GaveUp(k)
      case AttemptTimeout => last == GaveUp(k)
      case TotalTimeout => last == GaveUp(k) || (last.RetryScheduled? && last.attempt == k)
      case ConcurrencyRejected => last == Rejected
      case BudgetExhausted => last == OutOfBudget(k)
      case CircuitOpen => false)
  }

  lemma {:induction false} SettleTrace<T, E>(plan: Plan<T, E>, n: nat, ending: Ending<T, E>, error: Option<E>)
    ensures var s := Settle(plan, n, ending, error);
      RetryNumbers(s.events) == [] &&
      Successes(s.events) == (if s.Over? && s.result.Ok? then 1 else 0) &&
      (s.Over? ==>
        s.events != [] && s.events[|s.events| - 1] == (if s.result.Ok? then Succeeded(n) else GaveUp(n)) &&
        (s.result.Err? ==> s.result.error.Operation? || s.result.error.AttemptTimeout? || s.result.error.TotalTimeout?))
  {
    assert [AttemptTimedOut(n)] + [GaveUp(n)] == [AttemptTimedOut(n), GaveUp(n)];
    TraceConcat([AttemptTimedOut(n)], [GaveUp(n)]);
  }

  lemma {:induction false} PauseTrace<T, E>(env: Env<T, E>, n: nat, error: Option<E>, lastDelay: Option<nat>, now: nat)
    ensures var p := PauseAfter(env, n, error, lastDelay, now);
      |p.events| == 1 && Successes(p.events) == 0 &&
      RetryNumbers(p.events) == (if p.events[0].RetryScheduled? then [n] else []) &&
      (p.Resumes? ==> p.events[0].RetryScheduled?) &&
      (p.Ends? ==>
        match p.cause
        case Operation(_) => p.events[0] == GaveUp(n)
        case AttemptTimeout => p.events[0] == GaveUp(n)
        case TotalTimeout => p.events[0] == GaveUp(n) || (p.events[0].RetryScheduled? && p.events[0].attempt == n)
        case BudgetExhausted => p.events[0] == OutOfBudget(n)
        case _ => false)
  {
    hide Delay, Remaining;
  }

  ghost predicate TurnTells<T, E>(env: Env<T, E>, n: nat, t: Turned<T, E>)
    requires n >= 1
  {
    match t
    case Final(r) => WellNumbered(env, n, r) && LastEventTells(n, r)
    case Next(events, call, _, _, _, _) => call.number == n && RetryNumbers(events) == [n] && Successes(events) == 0
  }

  lemma {:induction false} OverNumbered<T, E>(env: Env<T, E>, n: nat, lastDelay: Option<nat>, call: Call<T, E>,
      result: Result<T, Cause<E>>, events: seq<Event>)
    requires 1 <= n <= env.plan.maxAttempts && call.number == n
    requires RetryNumbers(events) == [] && Successes(events) == (if result.Ok? then 1 else 0) && events != []
    requires events[|events| - 1] == (if result.Ok? then Succeeded(n) else GaveUp(n))
    requires result.Err? ==> result.error.Operation? || result.error.AttemptTimeout? || result.error.TotalTimeout?
    ensures var r := Report(Conclude(env, n, result, lastDelay, call.ended), events, [call], 0, call.ended);
      WellNumbered(env, n, r) && LastEventTells(n, r)
  {
    var r := Report(Conclude(env, n, result, lastDelay, call.ended), events, [call], 0, call.ended);
    assert |r.calls| == 1 && r.events[|r.events| - 1] == (if result.Ok? then Succeeded(n) else GaveUp(n));
  }

  lemma {:induction false} PausedNumbered<T, E>(env: Env<T, E>, n: nat, lastDelay: Option<nat>, events: seq<Event>,
      call: Call<T, E>, error: Option<E>)
    requires 1 <= n <= env.plan.maxAttempts && call.number == n
    requires RetryNumbers(events) == [] && Successes(events) == 0
    ensures TurnTells(env, n, AfterPause(env, n, events, call, error, PauseAfter(env, n, error, lastDelay, call.ended)))
  {
    hide PauseAfter;
    PauseTrace(env, n, error, lastDelay, call.ended);
    var p := PauseAfter(env, n, error, lastDelay, call.ended);
    TraceConcat(events, p.events);
  }

  lemma {:induction false} CallNumbered<T, E>(env: Env<T, E>, n: nat, lastDelay: Option<nat>, error: Option<E>,
      call: Call<T, E>)
    requires 1 <= n <= env.plan.maxAttempts && call.number == n
    ensures TurnTells(env, n, AfterCall(env, n, lastDelay, error, call))
  {
    hide Settle, AfterPause, PauseAfter, WellNumbered, LastEventTells, Conclude;
    SettleTrace(env.plan, n, call.ending, error);
    match Settle(env.plan, n, call.ending, error)
    case Over(result, events) => OverNumbered(env, n, lastDelay, call, result, events);
    case GoOn(events, error') => PausedNumbered(env, n, lastDelay, events, call, error');
  }

  lemma {:induction false} TurnNumbered<T, E>(env: Env<T, E>, n: nat, lastDelay: Option<nat>, error: Option<E>,
      clock: nat)
    requires 1 <= n <= env.plan.maxAttempts
    ensures TurnTells(env, n, TurnOf(env, n, lastDelay, error, clock))
  {
    hide AfterCall, Select, Acquire;
    var (held, started) := AcquireFor(env.plan, Attempts, env.oracle(n).permit, clock, env.deadline);
    if held {
      CallNumbered(env, n, lastDelay, error, Attempted(env, n, clock, started));
    }
  }

  lemma {:induction false} NumberedAfter<T, E>(env: Env<T, E>, n: nat, events: seq<Event>,
      call: Call<T, E>, spent: nat, rest: Report<T, E>)
    requires n >= 1 && WellNumbered(env, n + 1, rest) && LastEventTells(n + 1, rest)
    requires call.number == n && RetryNumbers(events) == [n] && Successes(events) == 0
    ensures WellNumbered(env, n, After(events, [call], spent, rest))
    ensures LastEventTells(n, After(events, [call], spent, rest))
  {
    var r := After(events, [call], spent, rest);
    TraceConcat(events, rest.events);
    assert r.events[|r.events| - 1] == rest.events[|rest.events| - 1];
  }

  lemma {:induction false} Numbered<T, E>(env: Env<T, E>, n: nat, lastDelay: Option<nat>, error: Option<E>, clock: nat)
    requires 1 <= n <= env.plan.maxAttempts
    ensures WellNumbered(env, n, DriveFrom(env, n, lastDelay, error, clock))
    ensures LastEventTells(n, DriveFrom(env, n, lastDelay, error, clock))
    decreases env.plan.maxAttempts - n
  {
    hide TurnOf, WellNumbered, LastEventTells;
    TurnNumbered(env, n, lastDelay, error, clock);
    match TurnOf(env, n, lastDelay, error, clock)
    case Final(_) =>
    case Next(events, call, spent, delay, error', clock') =>
      Numbered(env, n + 1, Some(delay), error', clock');
      NumberedAfter(env, n, events, call, spent, DriveFrom(env, n + 1, Some(delay), error', clock'));
  }

  lemma LastOfSuccess<T, E>(n: nat, r: Report<T, E>)
    requires n >= 1 && LastEventTells(n, r) && r.outcome.Success?
    ensures r.calls != [] && r.events != [] && r.events[|r.events| - 1] == Succeeded(n + |r.calls| - 1)
    ensures Successes(r.events) == 1 && |RetryNumbers(r.events)| == |r.calls| - 1
  {}

  /** Attempts are numbered 1, 2, ... without gaps up to at most the cap; retries are scheduled
      after attempts 1, 2, ... in order; the run succeeds exactly when its trace ends in
      `Succeeded`, which then is the only one, carries the number of the last attempt, and
      follows exactly one scheduled retry for every earlier attempt. */
  lemma {:induction false} TraceOfRun<T, E>(env: Env<T, E>, clock: nat)
    requires env.plan.maxAttempts >= 1
    ensures var r := DriveSpec(env, clock);
      WellNumbered(env, 1, r) && LastEventTells(1, r) &&
      (r.outcome.Success? ==>
        1 <= |r.calls| <= env.plan.maxAttempts &&
        r.events[|r.events| - 1] == Succeeded(|r.calls|) && Successes(r.events) == 1 &&
        RetryNumbers(r.events) == seq(|r.calls| - 1, i => i + 1))
  {
    hide DriveFrom, LastEventTells;
    Numbered(env, 1, None, None, clock);
    var r := DriveSpec(env, clock);
    if r.outcome.Success? {
      LastOfSuccess(1, r);
    }
  }

  // --- Deadlines --------------------------------------------------------------------------------

  /** No timer fires late and no task is polled late. */
  ghost predicate ExactTimers<T, E>(env: Env<T, E>) {
    forall k :: env.oracle(k).late == EXACT && env.oracle(k).permit.late == EXACT && env.oracle(k).sleepLate == 0
  }

  /** Nothing in the report happens after the total deadline, and no attempt outlasts its own. */
  ghost predicate InTime<T, E>(env: Env<T, E>, r: Report<T, E>) {
    (env.deadline.Some? ==>
      r.clock <= env.deadline.value && forall i :: 0 <= i < |r.calls| ==> r.calls[i].ended <= env.deadline.value) &&
    (env.plan.attemptTimeout.Some? ==>
      forall i :: 0 <= i < |r.calls| ==> r.calls[i].ended <= r.calls[i].started + env.plan.attemptTimeout.value)
  }

  lemma SelectInTime(now: nat, after: nat, timeout: Option<nat>, deadline: Option<nat>)
    ensures var wake := Select(now, after, timeout, deadline, EXACT).1;
      (timeout.Some? ==> wake <= now + timeout.value) &&
      (deadline.Some? && now <= deadline.value ==> wake <= deadline.value)
  {}

  ghost predicate By(deadline: Option<nat>, now: nat) {
    deadline.Some? ==> now <= deadline.value
  }

  lemma {:induction false} AcquireInTime<T, E>(env: Env<T, E>, n: nat, clock: nat)
    requires ExactTimers(env) && By(env.deadline, clock)
    ensures By(env.deadline, AcquireFor(env.plan, Attempts, env.oracle(n).permit, clock, env.deadline).1)
  {
    hide Select;
    var turn := env.oracle(n).permit;
    if env.plan.limit.Some? && env.plan.limit.value.saturation.Wait? {
      SelectInTime(clock, turn.after, env.plan.limit.value.saturation.queueTimeout, env.deadline);
    }
  }

  /** An attempt ends in time, by the total deadline and by its own. */
  ghost predicate EndsInTime<T, E>(env: Env<T, E>, call: Call<T, E>) {
    By(env.deadline, call.ended) &&
    (env.plan.attemptTimeout.Some? ==> call.ended <= call.started + env.plan.attemptTimeout.value)
  }

  lemma {:induction false} AttemptInTime<T, E>(env: Env<T, E>, n: nat, turn: nat, started: nat)
    requires ExactTimers(env) && By(env.deadline, started)
    ensures EndsInTime(env, Attempted(env, n, turn, started))
  {
    hide Select;
    SelectInTime(started, env.oracle(n).after, env.plan.attemptTimeout, env.deadline);
  }

  lemma {:induction false} PauseInTime<T, E>(env: Env<T, E>, n: nat, error: Option<E>, lastDelay: Option<nat>, now: nat)
    requires ExactTimers(env) && By(env.deadline, now)
    ensures By(env.deadline, PauseAfter(env, n, error, lastDelay, now).clock)
  {
    hide Delay, HintOf;
  }

  ghost predicate TurnedInTime<T, E>(env: Env<T, E>, t: Turned<T, E>) {
    match t
    case Final(r) => InTime(env, r)
    case Next(_, call, _, _, _, clock) => EndsInTime(env, call) && By(env.deadline, clock)
  }

  lemma {:induction false} CallInTime<T, E>(env: Env<T, E>, n: nat, lastDelay: Option<nat>, error: Option<E>,
      call: Call<T, E>)
    requires ExactTimers(env) && EndsInTime(env, call)
    ensures TurnedInTime(env, AfterCall(env, n, lastDelay, error, call))
  {
    hide Settle, PauseAfter, ExactTimers;
    var s := Settle(env.plan, n, call.ending, error);
    if s.GoOn? {
      PauseInTime(env, n, s.error, lastDelay, call.ended);
    }
  }

  lemma {:induction false} TurnInTime<T, E>(env: Env<T, E>, n: nat, lastDelay: Option<nat>, error: Option<E>,
      clock: nat)
    requires ExactTimers(env) && By(env.deadline, clock)
    ensures TurnedInTime(env, TurnOf(env, n, lastDelay, error, clock))
  {
    hide AfterCall, AcquireFor, Attempted, ExactTimers;
    AcquireInTime(env, n, clock);
    var (held, started) := AcquireFor(env.plan, Attempts, env.oracle(n).permit, clock, env.deadline);
    if held {
      AttemptInTime(env, n, clock, started);
      CallInTime(env, n, lastDelay, error, Attempted(env, n, clock, started));
    }
  }

  lemma {:induction false} DriveInTime<T, E>(env: Env<T, E>, n: nat, lastDelay: Option<nat>, error: Option<E>,
      clock: nat)
    requires ExactTimers(env) && By(env.deadline, clock)
    ensures InTime(env, DriveFrom(env, n, lastDelay, error, clock))
    decreases env.plan.maxAttempts - n
  {
    hide TurnOf, ExactTimers;
    TurnInTime(env, n, lastDelay, error, clock);
    match TurnOf(env, n, lastDelay, error, clock)
    case Final(_) =>
    case Next(events, call, spent, delay, error', clock') =>
      DriveInTime(env, n + 1, Some(delay), error', clock');
      var rest := DriveFrom(env, n + 1, Some(delay), error', clock');
      assert forall i :: 0 < i < |[call] + rest.calls| ==> ([call] + rest.calls)[i] == rest.calls[i - 1];
  }

  // --- Backoff is honoured, late timers or not ------------------------------------------------------

  function Update<T, E>(error: Option<E>, call: Call<T, E>): Option<E> {
    if call.ending.Completed? && call.ending.result.Err? then Some(call.ending.result.error) else error
  }

  /** The latest error among some calls, or the one before them: it may be older than the last call. */
  function LatestError<T, E>(error: Option<E>, calls: seq<Call<T, E>>): Option<E>
    decreases |calls|
  {
    if calls == [] then error else LatestError(Update(error, calls[0]), calls[1..])
  }

  /** The full delay the schedule asks for after a call, given the latest error. */
  function DelayAfter<T, E>(env: Env<T, E>, call: Call<T, E>, error: Option<E>): nat {
    Delay(env.plan.schedule, env.plan.jitter, call.number, env.oracle(call.number).rng, HintOf(env.plan, error))
  }

  /** Each next turn comes a full delay after the end of the call before, and before the deadline. */
  ghost predicate Spaced<T, E>(env: Env<T, E>, error: Option<E>, calls: seq<Call<T, E>>)
    decreases |calls|
  {
    calls == [] ||
    (calls[0].turn <= calls[0].started <= calls[0].ended &&
     (|calls| > 1 ==>
       calls[0].ended + DelayAfter(env, calls[0], Update(error, calls[0])) <= calls[1].turn &&
       (env.deadline.Some? ==> calls[1].turn < env.deadline.value)) &&
     Spaced(env, Update(error, calls[0]), calls[1..]))
  }

  lemma SelectWaits(now: nat, after: nat, timeout: Option<nat>, deadline: Option<nat>,
      late: Lateness)
    ensures Select(now, after, timeout, deadline, late).1 >= now
  {}

  lemma {:induction false} PauseWaits<T, E>(env: Env<T, E>, n: nat, error: Option<E>, lastDelay: Option<nat>, now: nat)
    ensures var p := PauseAfter(env, n, error, lastDelay, now);
      p.Resumes? ==>
        p.delay == Delay(env.plan.schedule, env.plan.jitter, n, env.oracle(n).rng, HintOf(env.plan, error)) &&
        now + p.delay <= p.clock && (env.deadline.Some? ==> p.clock < env.deadline.value)
  {
    hide Delay, HintOf;
  }

  lemma {:induction false} TurnWaits<T, E>(env: Env<T, E>, n: nat, lastDelay: Option<nat>, error: Option<E>, clock: nat)
    ensures match TurnOf(env, n, lastDelay, error, clock)
      case Final(r) => |r.calls| <= 1 && Spaced(env, error, r.calls) && (r.calls != [] ==> r.calls[0].turn == clock)
      case Next(_, call, _, _, error', clock') =>
        call.turn == clock <= call.started <= call.ended && error' == Update(error, call) &&
        call.ended + DelayAfter(env, call, error') <= clock' && (env.deadline.Some? ==> clock' < env.deadline.value)
  {
    hide Select, PauseAfter, Delay, HintOf;
    var turn := env.oracle(n);
    if env.plan.limit.Some? && env.plan.limit.value.saturation.Wait? {
      var timeout := env.plan.limit.value.saturation.queueTimeout;
      SelectWaits(clock, turn.permit.after, timeout, env.deadline, turn.permit.late);
    }
    var (held, started) := AcquireFor(env.plan, Attempts, turn.permit, clock, env.deadline);
    SelectWaits(started, turn.after, env.plan.attemptTimeout, env.deadline, turn.late);
    var call := Attempted(env, n, clock, started);
    PauseWaits(env, n, Update(error, call), lastDelay, call.ended);
  }

  lemma {:induction false} DriveWaits<T, E>(env: Env<T, E>, n: nat, lastDelay: Option<nat>, error: Option<E>,
      clock: nat)
    ensures var r := DriveFrom(env, n, lastDelay, error, clock);
      Spaced(env, error, r.calls) && (r.calls != [] ==> r.calls[0].turn == clock)
    decreases env.plan.maxAttempts - n
  {
    hide TurnOf, DelayAfter;
    TurnWaits(env, n, lastDelay, error, clock);
    match TurnOf(env, n, lastDelay, error, clock)
    case Final(_) =>
    case Next(events, call, spent, delay, error', clock') =>
      DriveWaits(env, n + 1, Some(delay), error', clock');
      var rest := DriveFrom(env, n + 1, Some(delay), error', clock');
      assert ([call] + rest.calls)[1..] == rest.calls;
  }

  lemma {:induction false} SpacedAt<T, E>(env: Env<T, E>, error: Option<E>, calls: seq<Call<T, E>>, i: nat)
    requires Spaced(env, error, calls) && i + 1 < |calls|
    ensures calls[i].ended + DelayAfter(env, calls[i], LatestError(error, calls[..i + 1])) <= calls[i + 1].turn
    ensures calls[i + 1].turn <= calls[i + 1].started
    ensures env.deadline.Some? ==> calls[i + 1].turn < env.deadline.value
    decreases i
  {
    hide DelayAfter;
    assert calls[..i + 1][1..] == calls[1..][..i];
    if i == 0 {
      assert calls[1..][0] == calls[1];
    } else {
      SpacedAt(env, Update(error, calls[0]), calls[1..], i - 1);
    }
  }

  /** However late timers fire, every attempt after the first that runs starts at least the full
      jittered delay after the attempt before it ended, hence at least the latest error's
      retry-after hint after it, and its turn comes before the total deadline: a sleep that had
      to be cut short always ends the run. */
  lemma {:induction false} BackoffHonoured<T, E>(env: Env<T, E>, clock: nat, i: nat)
    requires env.plan.maxAttempts >= 1 && i + 1 < |DriveSpec(env, clock).calls|
    ensures var calls := DriveSpec(env, clock).calls;
      var error := LatestError(None, calls[..i + 1]);
      calls[i].number == i + 1 &&
      calls[i + 1].started >= calls[i].ended + DelayAfter(env, calls[i], error) &&
      (env.plan.retryAfter.Some? && error.Some? && env.plan.retryAfter.value(error.value).Some? ==>
        calls[i + 1].started >= calls[i].ended + env.plan.retryAfter.value(error.value).value) &&
      (env.deadline.Some? ==> calls[i + 1].turn < env.deadline.value)
  {
    hide DriveFrom, Delay;
    DriveWaits(env, 1, None, None, clock);
    Numbered(env, 1, None, None, clock);
    var calls := DriveSpec(env, clock).calls;
    SpacedAt(env, None, calls, i);
    DelayBounds(env.plan.schedule, env.plan.jitter, i + 1, env.oracle(i + 1).rng,
      HintOf(env.plan, LatestError(None, calls[..i + 1])));
  }

  // --- Exits, tokens and the error context -----------------------------------------------------------

  /** The outcomes the breaker counts: a success, an operation error, or a timeout. */
  predicate Votes<T, E>(o: Outcome<T, E>) {
    o.Success? || o.cause.Operation? || o.cause.AttemptTimeout? || o.cause.TotalTimeout?
  }

  ghost predicate Accounted<T, E>(env: Env<T, E>, n: nat, r: Report<T, E>) {
    (r.calls == [] ==> r.outcome.Failure? && r.outcome.cause.ConcurrencyRejected?) &&
    (env.plan.budgeted ==> |r.calls| - 1 <= r.withdrawals <= |r.calls|) &&
    (!env.plan.budgeted ==> r.withdrawals == 0) &&
    (r.outcome.Failure? ==>
      r.outcome.context.elapsed == r.clock - env.start && r.outcome.context.view == env.view &&
      r.outcome.context.attempts == n + |r.calls| - (if r.outcome.cause.ConcurrencyRejected? then 0 else 1))
  }

  lemma {:induction false} TurnAccounted<T, E>(env: Env<T, E>, n: nat, lastDelay: Option<nat>, error: Option<E>,
      clock: nat)
    ensures match TurnOf(env, n, lastDelay, error, clock)
      case Final(r) => Accounted(env, n, r)
      case Next(_, _, spent, _, _, _) => spent == if env.plan.budgeted then 1 else 0
  {
    hide Select, Acquire, Delay, HintOf, Remaining;
  }

  lemma {:induction false} DriveAccounted<T, E>(env: Env<T, E>, n: nat, lastDelay: Option<nat>, error: Option<E>,
      clock: nat)
    ensures Accounted(env, n, DriveFrom(env, n, lastDelay, error, clock))
    decreases env.plan.maxAttempts - n
  {
    hide TurnOf;
    TurnAccounted(env, n, lastDelay, error, clock);
    match TurnOf(env, n, lastDelay, error, clock)
    case Final(_) =>
    case Next(events, call, spent, delay, error', clock') =>
      DriveAccounted(env, n + 1, Some(delay), error', clock');
  }

  /** With a retry budget every attempt after the first was paid for by a withdrawal granted
      before it; a run that never invokes the operation was refused a permit; and an error's
      context reports the attempts made (or the one refused), the time since the start, and the
      breaker state seen at the gate. */
  lemma {:induction false} RunAccounted<T, E>(env: Env<T, E>, clock: nat)
    ensures Accounted(env, 1, DriveSpec(env, clock))
  {
    DriveAccounted(env, 1, None, None, clock);
  }

  // --- Why a run retries and why it ends ----------------------------------------------------------

  /** Everything short of the deadline and the next permit allows a retry after this call. */
  predicate MayRetry<T, E>(env: Env<T, E>, call: Call<T, E>) {
    call.number < env.plan.maxAttempts &&
    (call.ending.OutOfAttemptTime? || (call.ending.Completed? && env.plan.decide(call.ending.result) == Retry)) &&
    (env.plan.maxElapsed.Some? ==> call.ended - env.start < env.plan.maxElapsed.value) &&
    (env.plan.budgeted ==> env.oracle(call.number).granted)
  }

  ghost predicate FailsWith<T, E>(o: Outcome<T, E>, cause: Cause<E>) {
    o.Failure? && o.cause == cause
  }

  /** The outcome of a run whose last call may not be retried; `error` is the latest error. */
  ghost predicate Verdict<T, E>(env: Env<T, E>, call: Call<T, E>, error: Option<E>, o: Outcome<T, E>) {
    var last := call.number >= env.plan.maxAttempts;
    if call.ending.OutOfTotalTime? then FailsWith(o, TotalTimeout)
    else if call.ending.OutOfAttemptTime? && last then FailsWith(o, AttemptTimeout)
    else if call.ending.Completed? && (last || env.plan.decide(call.ending.result) == Stop) then
      match call.ending.result
      case Ok(v) => o == Success(v)
      case Err(e) => FailsWith(o, Operation(e))
    else if env.plan.maxElapsed.Some? && call.ended - env.start >= env.plan.maxElapsed.value then
      FailsWith(o, if error.Some? then Operation(error.value) else AttemptTimeout)
    else FailsWith(o, BudgetExhausted)
  }

  /** Every call but the last allowed a retry; the last one did not, and is the reason for the
      outcome, or it did, and the deadline or a refused permit ended the run. */
  ghost predicate Explained<T, E>(env: Env<T, E>, error: Option<E>, calls: seq<Call<T, E>>, o: Outcome<T, E>)
    decreases |calls|
  {
    if calls == [] then FailsWith(o, ConcurrencyRejected)
    else if !MayRetry(env, calls[0]) then |calls| == 1 && Verdict(env, calls[0], Update(error, calls[0]), o)
    else (|calls| == 1 && FailsWith(o, TotalTimeout)) || Explained(env, Update(error, calls[0]), calls[1..], o)
  }

  lemma {:induction false} PauseExplained<T, E>(env: Env<T, E>, error: Option<E>, lastDelay: Option<nat>,
      call: Call<T, E>)
    requires call.number < env.plan.maxAttempts
    requires call.ending.OutOfAttemptTime? || (call.ending.Completed? && env.plan.decide(call.ending.result) == Retry)
    ensures match PauseAfter(env, call.number, error, lastDelay, call.ended)
      case Resumes(_, _, _, _) => MayRetry(env, call)
      case Ends(cause, _, _, _, _) =>
        (MayRetry(env, call) ==> cause == TotalTimeout) &&
        (!MayRetry(env, call) ==> forall context :: Verdict(env, call, error, Failure(cause, context)))
  {
    hide Delay, HintOf, Remaining;
  }

  lemma SettleExplained<T, E>(env: Env<T, E>, error: Option<E>, call: Call<T, E>)
    ensures match Settle(env.plan, call.number, call.ending, error)
      case Over(result, _) =>
        !MayRetry(env, call) &&
        (match result
         case Ok(v) => Verdict(env, call, Update(error, call), Success(v))
         case Err(cause) => forall context :: Verdict(env, call, Update(error, call), Failure(cause, context)))
      case GoOn(_, error') =>
        error' == Update(error, call) &&
        (call.ending.OutOfAttemptTime? || (call.ending.Completed? && env.plan.decide(call.ending.result) == Retry))
  {}

  lemma {:induction false} CallExplained<T, E>(env: Env<T, E>, lastDelay: Option<nat>, error: Option<E>,
      call: Call<T, E>)
    ensures match AfterCall(env, call.number, lastDelay, error, call)
      case Final(r) => Explained(env, error, r.calls, r.outcome)
      case Next(_, call', _, _, error', _) => call' == call && MayRetry(env, call) && error' == Update(error, call)
  {
    hide Settle, PauseAfter, MayRetry, Verdict;
    SettleExplained(env, error, call);
    var s := Settle(env.plan, call.number, call.ending, error);
    if s.GoOn? {
      PauseExplained(env, s.error, lastDelay, call);
    }
  }

  lemma {:induction false} TurnExplained<T, E>(env: Env<T, E>, n: nat, lastDelay: Option<nat>, error: Option<E>,
      clock: nat)
    ensures match TurnOf(env, n, lastDelay, error, clock)
      case Final(r) => Explained(env, error, r.calls, r.outcome)
      case Next(_, call, _, _, error', _) => MayRetry(env, call) && error' == Update(error, call)
  {
    hide AfterCall, AcquireFor, Select, MayRetry, Verdict;
    var (held, started) := AcquireFor(env.plan, Attempts, env.oracle(n).permit, clock, env.deadline);
    if held {
      CallExplained(env, lastDelay, error, Attempted(env, n, clock, started));
    }
  }

  lemma {:induction false} DriveExplained<T, E>(env: Env<T, E>, n: nat, lastDelay: Option<nat>, error: Option<E>,
      clock: nat)
    ensures var r := DriveFrom(env, n, lastDelay, error, clock);
      Explained(env, error, r.calls, r.outcome)
    decreases env.plan.maxAttempts - n
  {
    hide TurnOf, MayRetry, Verdict, Update;
    TurnExplained(env, n, lastDelay, error, clock);
    match TurnOf(env, n, lastDelay, error, clock)
    case Final(_) =>
    case Next(_, call, _, delay, error', clock') =>
      DriveExplained(env, n + 1, Some(delay), error', clock');
      var rest := DriveFrom(env, n + 1, Some(delay), error', clock');
      assert ([call] + rest.calls)[1..] == rest.calls;
  }

  /** Why a run goes on and why it ends, read off its calls: a retry follows a call only if the
      classifier, the attempt cap, the elapsed-time cap and the budget all allow it; a call that
      allows none decides the outcome; and if the last call allowed one, the total deadline or a
      refused permit ended the run. */
  lemma {:induction false} RunExplained<T, E>(env: Env<T, E>, clock: nat)
    ensures Explained(env, None, DriveSpec(env, clock).calls, DriveSpec(env, clock).outcome)
  {
    DriveExplained(env, 1, None, None, clock);
  }

  lemma {:induction false} ExplainedAt<T, E>(env: Env<T, E>, error: Option<E>, calls: seq<Call<T, E>>,
      o: Outcome<T, E>, i: nat)
    requires Explained(env, error, calls, o) && i + 1 < |calls|
    ensures MayRetry(env, calls[i])
    decreases i
  {
    hide MayRetry, Verdict;
    if i > 0 {
      ExplainedAt(env, Update(error, calls[0]), calls[1..], o, i - 1);
    }
  }

  // --- Exactly which plans can end without a vote -------------------------------------------------

  /** Some outcome or a timeout of an attempt can lead to a retry before the elapsed-time cap. */
  ghost predicate CanRetry<T(!new), E(!new)>(plan: Plan<T, E>) {
    plan.maxAttempts >= 2 &&
    (((exists r :: plan.decide(r) == Retry) && (plan.maxElapsed.Some? ==> plan.maxElapsed.value > 0)) ||
     (plan.attemptTimeout.Some? && (plan.maxElapsed.Some? ==> plan.attemptTimeout.value < plan.maxElapsed.value)))
  }

  /** The limit counts attempts, or a budget may deny a retry. */
  ghost predicate CanAbandon<T(!new), E(!new)>(plan: Plan<T, E>) {
    (plan.limit.Some? && plan.limit.value.scope == Attempts) || (plan.budgeted && CanRetry(plan))
  }

  lemma InnerWaits(now: nat, after: nat, timeout: Option<nat>, deadline: Option<nat>, late: Lateness)
    ensures var (winner, wake) := Select(now, after, timeout, deadline, late);
      wake >= now && (winner == Inner ==> timeout.Some? && now + timeout.value <= wake)
  {}

  lemma {:induction false} AcquireWaits(plan: Plan, scope: Scope, turn: PermitTurn, now: nat, deadline: Option<nat>)
    ensures AcquireFor(plan, scope, turn, now, deadline).1 >= now
  {
    hide Select;
    if plan.limit.Some? && plan.limit.value.saturation.Wait? {
      SelectWaits(now, turn.after, plan.limit.value.saturation.queueTimeout, deadline, turn.late);
    }
  }

  lemma {:induction false} PauseUnvoted<T, E>(env: Env<T, E>, n: nat, error: Option<E>, lastDelay: Option<nat>,
      now: nat)
    ensures match PauseAfter(env, n, error, lastDelay, now)
      case Resumes(_, _, _, clock) => clock >= now
      case Ends(cause, _, _, _, _) =>
        cause.Operation? || cause.AttemptTimeout? || cause.TotalTimeout? ||
        (env.plan.budgeted && (env.plan.maxElapsed.Some? ==> now - env.start < env.plan.maxElapsed.value))
  {
    hide Delay, HintOf, Remaining;
  }

  lemma {:induction false} CallUnvoted<T(!new), E(!new)>(env: Env<T, E>, n: nat, lastDelay: Option<nat>,
      error: Option<E>,
      call: Call<T, E>)
    requires n >= 1 && env.start <= call.started <= call.ended
    requires call.ending.OutOfAttemptTime? ==>
      env.plan.attemptTimeout.Some? && call.started + env.plan.attemptTimeout.value <= call.ended
    ensures match AfterCall(env, n, lastDelay, error, call)
      case Final(r) => !Votes(r.outcome) ==> CanAbandon(env.plan)
      case Next(_, _, _, _, _, clock) => clock >= call.ended
  {
    hide PauseAfter;
    var s := Settle(env.plan, n, call.ending, error);
    SettleTrace(env.plan, n, call.ending, error);
    if s.GoOn? {
      PauseUnvoted(env, n, s.error, lastDelay, call.ended);
    }
  }

  lemma {:induction false} TurnUnvoted<T(!new), E(!new)>(env: Env<T, E>, n: nat, lastDelay: Option<nat>,
      error: Option<E>,
      clock: nat)
    requires n >= 1 && clock >= env.start
    ensures match TurnOf(env, n, lastDelay, error, clock)
      case Final(r) => !Votes(r.outcome) ==> CanAbandon(env.plan)
      case Next(_, _, _, _, _, clock') => clock' >= env.start
  {
    hide AfterCall, Acquire, Select, CanRetry;
    var (held, started) := AcquireFor(env.plan, Attempts, env.oracle(n).permit, clock, env.deadline);
    if held {
      AcquireWaits(env.plan, Attempts, env.oracle(n).permit, clock, env.deadline);
      InnerWaits(started, env.oracle(n).after, env.plan.attemptTimeout, env.deadline, env.oracle(n).late);
      CallUnvoted(env, n, lastDelay, error, Attempted(env, n, clock, started));
    }
  }

  /** A run that ends in no counted outcome has a plan that allows it. */
  lemma {:induction false} UnvotedNeeds<T(!new), E(!new)>(env: Env<T, E>, n: nat, lastDelay: Option<nat>,
      error: Option<E>,
      clock: nat)
    requires n >= 1 && clock >= env.start
    requires !Votes(DriveFrom(env, n, lastDelay, error, clock).outcome)
    ensures CanAbandon(env.plan)
    decreases env.plan.maxAttempts - n
  {
    hide TurnOf, CanAbandon, Votes;
    TurnUnvoted(env, n, lastDelay, error, clock);
    match TurnOf(env, n, lastDelay, error, clock)
    case Final(_) =>
    case Next(_, _, _, delay, error', clock') => UnvotedNeeds(env, n + 1, Some(delay), error', clock');
  }

  /** A timer of a queued acquisition has fired and been noticed before the permit comes. */
  predicate TimedOutFirst(queueTimeout: Option<nat>, turn: PermitTurn, now: nat, deadline: Option<nat>) {
    (queueTimeout.Some? && queueTimeout.value + turn.late.inner + turn.late.poll < turn.after) ||
    (deadline.Some? && Max(deadline.value, now) + turn.late.outer + turn.late.poll < now + turn.after)
  }

  /** A permit is refused exactly when none is free and the policy rejects, the queue is full, or
      a timer fires first. */
  lemma RefusedExactlyWhen(s: Saturation, turn: PermitTurn, now: nat, deadline: Option<nat>)
    ensures !Acquire(s, turn, now, deadline).0 <==>
      !turn.free &&
      (s.Reject? || turn.queued >= s.maxQueued || TimedOutFirst(s.queueTimeout, turn, now, deadline))
  {}

  lemma {:induction false} FirstTurn<T, E>(env: Env<T, E>, at: nat)
    ensures DriveSpec(env, at).calls == [] <==>
      !AcquireFor(env.plan, Attempts, env.oracle(1).permit, at, env.deadline).0
  {
    hide AcquireFor, Settle, PauseAfter, Attempted;
  }

  /** A run invokes its operation unless its first permit is refused; then it ends uncounted. */
  lemma {:induction false} NoCallExactlyWhen<T, E>(env: Env<T, E>, at: nat)
    ensures DriveSpec(env, at).calls == [] <==>
      env.plan.limit.Some? && env.plan.limit.value.scope == Attempts &&
      !Acquire(env.plan.limit.value.saturation, env.oracle(1).permit, at, env.deadline).0
    ensures DriveSpec(env, at).calls == [] ==> !Votes(DriveSpec(env, at).outcome)
  {
    hide Acquire, AfterCall, Attempted, DriveFrom;
    RunAccounted(env, at);
    FirstTurn(env, at);
  }

  /** A retry the budget denies ends the run uncounted, its operation already invoked. */
  lemma {:induction false} DeniedRetryAbandons<T, E>(env: Env<T, E>, at: nat)
    requires AcquireFor(env.plan, Attempts, env.oracle(1).permit, at, env.deadline).0
    requires env.plan.budgeted && !env.oracle(1).granted && env.plan.maxAttempts >= 2
    requires var started := AcquireFor(env.plan, Attempts, env.oracle(1).permit, at, env.deadline).1;
      var call := Attempted(env, 1, at, started);
      (call.ending.OutOfAttemptTime? || (call.ending.Completed? && env.plan.decide(call.ending.result) == Retry)) &&
      (env.plan.maxElapsed.Some? ==> call.ended - env.start < env.plan.maxElapsed.value)
    ensures !Votes(DriveSpec(env, at).outcome) && |DriveSpec(env, at).calls| == 1
  {
    hide AcquireFor, Select;
    var started := AcquireFor(env.plan, Attempts, env.oracle(1).permit, at, env.deadline).1;
    var call := Attempted(env, 1, at, started);
    assert TurnOf(env, 1, None, None, at) == AfterCall(env, 1, None, None, call);
  }

  // Surroundings in which a plan that can abandon does.

  /** The surroundings of a run under a plan that starts at `start` and reaches its attempts at `at`. */
  ghost predicate Surrounds<T, E>(plan: Plan<T, E>, env: Env<T, E>, at: nat) {
    env.plan == plan && at >= env.start &&
    env.deadline == if plan.totalTimeout.None? then None else Some(env.start + plan.totalTimeout.value)
  }

  function Always<T, E>(plan: Plan<T, E>, turn: Turn<T, E>): Env<T, E> {
    Env(plan, _ => turn, 0, plan.totalTimeout, Disabled)
  }

  /** A turn without a token: the permit as given, an operation that takes `after`, polled late. */
  function Tokenless<T, E>(permit: PermitTurn, result: Result<T, E>, after: nat, poll: nat): Turn<T, E> {
    Turn(permit, result, after, Lateness(0, 0, poll), false, 0, 0)
  }

  /** The queue for a permit is full. */
  function FullQueue(s: Saturation): PermitTurn {
    PermitTurn(false, if s.Wait? then s.maxQueued else 0, 0, EXACT)
  }

  lemma {:induction false} LimitAbandons<T, E>(plan: Plan<T, E>, any: Result<T, E>) returns (env: Env<T, E>)
    requires plan.limit.Some? && plan.limit.value.scope == Attempts
    ensures Surrounds(plan, env, 0) && !Votes(DriveSpec(env, 0).outcome)
  {
    env := Always(plan, Tokenless(FullQueue(plan.limit.value.saturation), any, 0, 0));
    NoCallExactlyWhen(env, 0);
  }

  const FREE := PermitTurn(true, 0, 0, EXACT)

  /** An attempt that times out, noticed no later than its own timer fires. */
  lemma {:induction false} SlowAttempt<T, E>(plan: Plan<T, E>, any: Result<T, E>) returns (env: Env<T, E>)
    requires plan.attemptTimeout.Some?
    ensures Surrounds(plan, env, 0) && env.oracle(1).permit == FREE && !env.oracle(1).granted
    ensures Attempted(env, 1, 0, 0).ending.OutOfAttemptTime?
    ensures Attempted(env, 1, 0, 0).ended == plan.attemptTimeout.value
  {
    var t := plan.attemptTimeout.value;
    var early := plan.totalTimeout.Some? && plan.totalTimeout.value < t;
    var poll := if early then t - plan.totalTimeout.value else 0;
    env := Always(plan, Tokenless(FREE, any, t + 1, poll));
  }

  lemma FreePermit<T, E>(env: Env<T, E>)
    requires env.oracle(1).permit == FREE
    ensures AcquireFor(env.plan, Attempts, env.oracle(1).permit, 0, env.deadline) == (true, 0)
  {}

  lemma {:induction false} BudgetAbandons<T(!new), E(!new)>(plan: Plan<T, E>,
      any: Result<T, E>)
    returns (env: Env<T, E>)
    requires plan.budgeted && CanRetry(plan)
    ensures Surrounds(plan, env, 0) && !Votes(DriveSpec(env, 0).outcome)
  {
    hide Votes, AcquireFor, DriveSpec;
    if r :| plan.decide(r) == Retry && (plan.maxElapsed.Some? ==> plan.maxElapsed.value > 0) {
      env := Always(plan, Tokenless(FREE, r, 0, 0));
      assert Attempted(env, 1, 0, 0) == Call(1, 0, 0, 0, Completed(r));
    } else {
      env := SlowAttempt(plan, any);
    }
    FreePermit(env);
    DeniedRetryAbandons(env, 0);
  }

  /** Exactly which plans let a call that runs to completion end without a vote: there are
      surroundings in which one does if and only if the plan has an attempts-scope limit, or a
      retry budget together with at least two attempts and some way to a retry before the
      elapsed-time cap.  (`any` only says that the operation has some result.) */
  lemma {:induction false} AbandonsExactlyWhen<T(!new), E(!new)>(plan: Plan<T, E>, any: Result<T, E>)
    ensures (exists env, at: nat :: Surrounds(plan, env, at) && !Votes(DriveSpec(env, at).outcome))
      <==> CanAbandon(plan)
  {
    if CanAbandon(plan) {
      var env;
      if plan.limit.Some? && plan.limit.value.scope == Attempts {
        env := LimitAbandons(plan, any);
      } else {
        env := BudgetAbandons(plan, any);
      }
    } else {
      forall env, at: nat | Surrounds(plan, env, at) ensures Votes(DriveSpec(env, at).outcome) {
        if !Votes(DriveSpec(env, at).outcome) {
          UnvotedNeeds(env, 1, None, None, at);
        }
      }
    }
  }
}
