/** When a run of the retry loop ends without announcing it (src/engine.rs:356-403). */
module EngineSilence {
  import opened Common
  import opened Backoff
  import opened Engine
  import opened EngineTheorems

  // --- Terminal events -----------------------------------------------------------------------------

  /** The events that announce the end of a run. */
  function Terminals(events: seq<Event>): nat {
    if events == [] then 0
    else
      var e := events[0];
      (if e.Succeeded? || e.GaveUp? || e.Rejected? || e.OutOfBudget? then 1 else 0) + Terminals(events[1..])
  }

  lemma {:induction false} TerminalsConcat(a: seq<Event>, b: seq<Event>)
    ensures Terminals(a + b) == Terminals(a) + Terminals(b)
  {
    if a == [] {
      assert a + b == b;
    } else {
      assert (a + b)[1..] == a[1..] + b;
      TerminalsConcat(a[1..], b);
    }
  }

  /** A retry is allowed after this call, its hint fits the time left, and the sleep reaches the
      deadline. */
  predicate Oversleeps<T, E>(env: Env<T, E>, error: Option<E>, call: Call<T, E>) {
    var raw, hint := DelayAfter(env, call, error), HintOf(env.plan, error);
    MayRetry(env, call) && env.deadline.Some? &&
    (hint.Some? ==> hint.value <= Remaining(env.deadline, call.ended).value) &&
    (call.ended + raw >= env.deadline.value ||
     (raw > 0 && call.ended + raw + env.oracle(call.number).sleepLate >= env.deadline.value))
  }

  /** The last call oversleeps. */
  predicate EndsAsleep<T, E>(env: Env<T, E>, error: Option<E>, calls: seq<Call<T, E>>)
    decreases |calls|
  {
    if calls == [] then false
    else if |calls| == 1 then Oversleeps(env, Update(error, calls[0]), calls[0])
    else EndsAsleep(env, Update(error, calls[0]), calls[1..])
  }

  lemma {:induction false} PauseTerminals<T, E>(env: Env<T, E>, error: Option<E>, lastDelay: Option<nat>,
      call: Call<T, E>)
    requires call.number < env.plan.maxAttempts
    requires call.ending.OutOfAttemptTime? || (call.ending.Completed? && env.plan.decide(call.ending.result) == Retry)
    ensures var p := PauseAfter(env, call.number, error, lastDelay, call.ended);
      if Oversleeps(env, error, call) then p.Ends? && Terminals(p.events) == 0
      else Terminals(p.events) == if p.Ends? then 1 else 0
  {
    hide Delay, HintOf;
  }

  lemma {:induction false} SettleTerminals<T, E>(env: Env<T, E>, error: Option<E>, call: Call<T, E>)
    ensures match Settle(env.plan, call.number, call.ending, error)
      case Over(_, events) => Terminals(events) == 1 && !MayRetry(env, call)
      case GoOn(events, error') =>
        Terminals(events) == 0 && error' == Update(error, call) &&
        (call.ending.OutOfAttemptTime? || (call.ending.Completed? && env.plan.decide(call.ending.result) == Retry))
  {
    var n := call.number;
    assert [AttemptTimedOut(n)] + [GaveUp(n)] == [AttemptTimedOut(n), GaveUp(n)];
    TerminalsConcat([AttemptTimedOut(n)], [GaveUp(n)]);
  }

  lemma NotRetried<T, E>(env: Env<T, E>, error: Option<E>, call: Call<T, E>)
    requires !MayRetry(env, call)
    ensures !Oversleeps(env, error, call)
  {}

  lemma {:induction false} CallTerminals<T, E>(env: Env<T, E>, lastDelay: Option<nat>, error: Option<E>,
      call: Call<T, E>)
    ensures match AfterCall(env, call.number, lastDelay, error, call)
      case Final(r) =>
        r.calls == [call] && Terminals(r.events) == if Oversleeps(env, Update(error, call), call) then 0 else 1
      case Next(events, call', _, _, error', _) =>
        call' == call && Terminals(events) == 0 && error' == Update(error, call) && !Oversleeps(env, error', call)
  {
    hide Settle, PauseAfter, Oversleeps;
    SettleTerminals(env, error, call);
    var s := Settle(env.plan, call.number, call.ending, error);
    if s.GoOn? {
      PauseTerminals(env, s.error, lastDelay, call);
      TerminalsConcat(s.events, PauseAfter(env, call.number, s.error, lastDelay, call.ended).events);
    } else {
      NotRetried(env, Update(error, call), call);
    }
  }

  lemma {:induction false} TurnTerminals<T, E>(env: Env<T, E>, n: nat, lastDelay: Option<nat>, error: Option<E>,
      clock: nat)
    ensures match TurnOf(env, n, lastDelay, error, clock)
      case Final(r) => Terminals(r.events) == if EndsAsleep(env, error, r.calls) then 0 else 1
      case Next(events, call, _, _, error', _) =>
        Terminals(events) == 0 && error' == Update(error, call) && !Oversleeps(env, error', call)
  {
    hide AfterCall, AcquireFor, Select, Oversleeps, Update;
    var (held, started) := AcquireFor(env.plan, Attempts, env.oracle(n).permit, clock, env.deadline);
    if held {
      CallTerminals(env, lastDelay, error, Attempted(env, n, clock, started));
    } else {
      assert Terminals([Rejected]) == 1;
    }
  }

  lemma {:induction false} DriveTerminals<T, E>(env: Env<T, E>, n: nat, lastDelay: Option<nat>, error: Option<E>,
      clock: nat)
    ensures var r := DriveFrom(env, n, lastDelay, error, clock);
      Terminals(r.events) == if EndsAsleep(env, error, r.calls) then 0 else 1
    decreases env.plan.maxAttempts - n
  {
    hide TurnOf, Oversleeps, Update;
    TurnTerminals(env, n, lastDelay, error, clock);
    match TurnOf(env, n, lastDelay, error, clock)
    case Final(_) =>
    case Next(events, call, _, delay, error', clock') =>
      DriveTerminals(env, n + 1, Some(delay), error', clock');
      var rest := DriveFrom(env, n + 1, Some(delay), error', clock');
      TerminalsConcat(events, rest.events);
      assert ([call] + rest.calls)[1..] == rest.calls;
  }

  /** A run announces its end exactly once, except that it ends in silence exactly when its last
      call may be retried but the sleep before the retry reaches the total deadline. */
  lemma {:induction false} SilentExactlyWhen<T, E>(env: Env<T, E>, clock: nat)
    ensures Terminals(DriveSpec(env, clock).events) ==
      if EndsAsleep(env, None, DriveSpec(env, clock).calls) then 0 else 1
  {
    DriveTerminals(env, 1, None, None, clock);
  }

  // --- Exactly which plans can end asleep -----------------------------------------------------------

  predicate Before<T, E>(plan: Plan<T, E>, elapsed: nat) {
    plan.maxElapsed.Some? ==> elapsed < plan.maxElapsed.value
  }

  /** The hint a retry after this result would honour. */
  function HintAfter<T, E>(plan: Plan<T, E>, r: Result<T, E>): Option<Duration> {
    HintOf(plan, if r.Err? then Some(r.error) else None)
  }

  predicate NoWait(hint: Option<Duration>) {
    hint.Some? ==> hint.value == 0
  }

  /** The backoff after attempt `n` can be drawn positive. */
  ghost predicate Positive<T, E>(plan: Plan<T, E>, n: nat) {
    exists rng: U64 :: Jittered(plan.jitter, RawDelay(plan.schedule, n), rng) > 0
  }

  /** Some error is retried with a hint that fits the total timeout. */
  ghost predicate HintedRetry<T(!new), E(!new)>(plan: Plan<T, E>, total: nat) {
    Before(plan, 0) &&
    exists r :: plan.decide(r) == Retry && HintAfter(plan, r).Some? && 0 < HintAfter(plan, r).value <= total
  }

  /** Some result is retried without a hint to wait for. */
  ghost predicate PlainRetry<T(!new), E(!new)>(plan: Plan<T, E>) {
    exists r :: plan.decide(r) == Retry && NoWait(HintAfter(plan, r))
  }

  /** Attempts that time out, `n` of them in a row, before the elapsed-time cap and all but the last
      before the deadline. */
  predicate TimeFor<T, E>(plan: Plan<T, E>, total: nat, n: nat) {
    plan.attemptTimeout.Some? && n >= 1 &&
    Before(plan, n * plan.attemptTimeout.value) && (n - 1) * plan.attemptTimeout.value < total
  }

  /** A total timeout, and a retry whose hint fits it and whose sleep reaches it: because there is
      something to wait for, or because the attempt itself may end at the deadline. */
  ghost predicate CanOversleep<T(!new), E(!new)>(plan: Plan<T, E>) {
    plan.totalTimeout.Some? && plan.maxAttempts >= 2 &&
    var total := plan.totalTimeout.value;
    HintedRetry(plan, total) ||
    (PlainRetry(plan) &&
      (Before(plan, total) || (Before(plan, 0) && exists n: nat :: 1 <= n < plan.maxAttempts && Positive(plan, n)))) ||
    (plan.attemptTimeout.Some? &&
      (Before(plan, Max(plan.attemptTimeout.value, total)) ||
       exists n: nat :: 1 <= n < plan.maxAttempts && Positive(plan, n) && TimeFor(plan, total, n)))
  }

  // What a run that ends asleep says about its plan.

  /** What the turns of a run tell of each call. */
  ghost predicate Timely<T, E>(env: Env<T, E>, n: nat, clock: nat, call: Call<T, E>) {
    call.number == n && clock <= call.started <= call.ended &&
    (call.ending.OutOfAttemptTime? ==>
      env.plan.attemptTimeout.Some? && call.started + env.plan.attemptTimeout.value <= call.ended)
  }

  lemma {:induction false} PauseFits<T, E>(env: Env<T, E>, n: nat, error: Option<E>, lastDelay: Option<nat>, now: nat)
    ensures var p, hint := PauseAfter(env, n, error, lastDelay, now), HintOf(env.plan, error);
      (p.Resumes? ==> p.clock >= now) &&
      (p.Resumes? && env.deadline.Some? ==>
        p.clock < env.deadline.value && (hint.Some? ==> hint.value <= Remaining(env.deadline, now).value))
  {
    hide Delay, HintOf;
  }

  lemma {:induction false} CallFits<T, E>(env: Env<T, E>, n: nat, lastDelay: Option<nat>, error: Option<E>,
      call: Call<T, E>)
    requires env.deadline.Some?
    ensures match AfterCall(env, n, lastDelay, error, call)
      case Final(r) => r.calls == [call]
      case Next(_, call', _, _, error', clock') =>
        var hint := HintOf(env.plan, error');
        call' == call && call.ended <= clock' < env.deadline.value &&
        (hint.Some? ==> hint.value <= Remaining(env.deadline, call.ended).value)
  {
    hide Settle, PauseAfter, HintOf, Remaining;
    var s := Settle(env.plan, n, call.ending, error);
    if s.GoOn? {
      PauseFits(env, n, s.error, lastDelay, call.ended);
    }
  }

  lemma {:induction false} TurnFits<T, E>(env: Env<T, E>, n: nat, lastDelay: Option<nat>, error: Option<E>, clock: nat)
    requires env.deadline.Some?
    ensures match TurnOf(env, n, lastDelay, error, clock)
      case Final(r) => r.calls == [] || (|r.calls| == 1 && Timely(env, n, clock, r.calls[0]))
      case Next(_, call, _, _, error', clock') =>
        var hint := HintOf(env.plan, error');
        Timely(env, n, clock, call) && call.ended <= clock' < env.deadline.value &&
        (hint.Some? ==> hint.value <= Remaining(env.deadline, call.ended).value)
  {
    hide AfterCall, Acquire, Select, HintOf, Remaining;
    var (held, started) := AcquireFor(env.plan, Attempts, env.oracle(n).permit, clock, env.deadline);
    if held {
      AcquireWaits(env.plan, Attempts, env.oracle(n).permit, clock, env.deadline);
      InnerWaits(started, env.oracle(n).after, env.plan.attemptTimeout, env.deadline, env.oracle(n).late);
      CallFits(env, n, lastDelay, error, Attempted(env, n, clock, started));
    }
  }

  /** An error that was retried within the total timeout. */
  predicate RetriedError<T, E>(plan: Plan<T, E>, total: nat, e: E) {
    var hint := HintOf(plan, Some(e));
    plan.decide(Err(e)) == Retry && Before(plan, 0) && (hint.Some? ==> hint.value <= total)
  }

  ghost predicate Quick<T(!new), E(!new)>(plan: Plan<T, E>, total: nat) {
    HintedRetry(plan, total) || (PlainRetry(plan) && Before(plan, 0))
  }

  /** The surroundings have the plan's total timeout, `total`. */
  predicate Timed<T, E>(env: Env<T, E>, total: nat) {
    env.plan.totalTimeout == Some(total) && env.deadline == Some(env.start + total)
  }

  /** What the run so far says at its `n`-th turn: the latest error was retried; and the plan has a
      quick retry, or each attempt so far took its full time and the deadline has not come. */
  ghost predicate SoFar<T(!new), E(!new)>(env: Env<T, E>, total: nat, n: nat, error: Option<E>, clock: nat) {
    n >= 1 && clock >= env.start && (error.Some? ==> RetriedError(env.plan, total, error.value)) &&
    (n == 1 || Quick(env.plan, total) ||
     (env.plan.attemptTimeout.Some? && clock - env.start < total &&
      (n - 1) * env.plan.attemptTimeout.value <= clock - env.start))
  }

  lemma {:induction false} ErrorIsQuick<T(!new), E(!new)>(plan: Plan<T, E>, total: nat, e: E)
    requires RetriedError(plan, total, e)
    ensures Quick(plan, total)
  {
    var r: Result<T, E> := Err(e);
    assert plan.decide(r) == Retry && HintAfter(plan, r) == HintOf(plan, Some(e));
  }

  lemma {:induction false} ValueIsQuick<T(!new), E(!new)>(plan: Plan<T, E>, total: nat, v: T)
    requires plan.decide(Ok(v)) == Retry && Before(plan, 0)
    ensures Quick(plan, total) && PlainRetry(plan)
  {
    var r: Result<T, E> := Ok(v);
    assert plan.decide(r) == Retry && HintAfter(plan, r) == None;
  }

  /** A call that was retried keeps what the run so far says. */
  lemma {:induction false} SoFarGoesOn<T(!new), E(!new)>(env: Env<T, E>, total: nat, n: nat, error: Option<E>,
      clock: nat,
      call: Call<T, E>, clock': nat)
    requires Timed(env, total) && SoFar(env, total, n, error, clock)
    requires Timely(env, n, clock, call) && MayRetry(env, call) && call.ended <= clock' < env.deadline.value
    requires var hint := HintOf(env.plan, Update(error, call));
      hint.Some? ==> hint.value <= Remaining(env.deadline, call.ended).value
    ensures SoFar(env, total, n + 1, Update(error, call), clock')
  {
    hide Quick, HintOf;
    if call.ending.OutOfAttemptTime? {
      OneMore(n, env.plan.attemptTimeout.value);
    } else if call.ending.result.Err? {
      ErrorIsQuick(env.plan, total, call.ending.result.error);
    } else {
      ValueIsQuick(env.plan, total, call.ending.result.value);
    }
  }

  lemma {:induction false} QuickOversleeps<T(!new), E(!new)>(plan: Plan<T, E>, total: nat, n: nat)
    requires plan.totalTimeout == Some(total) && 1 <= n < plan.maxAttempts
    requires Quick(plan, total) && Positive(plan, n)
    ensures CanOversleep(plan)
  {
    hide Positive, HintedRetry, PlainRetry;
  }

  lemma {:induction false} LateNeeds<T(!new), E(!new)>(env: Env<T, E>, total: nat, n: nat, error: Option<E>,
      clock: nat, call: Call<T, E>)
    requires Timed(env, total) && SoFar(env, total, n, error, clock) && Timely(env, n, clock, call)
    requires MayRetry(env, call) && call.ended - env.start >= total
    requires NoWait(HintOf(env.plan, Update(error, call)))
    ensures CanOversleep(env.plan)
  {
    hide HintOf, Positive;
    if call.ending.Completed? {
      var r := call.ending.result;
      assert env.plan.decide(r) == Retry;
      if r.Ok? {
        ValueIsQuick(env.plan, total, r.value);
      } else {
        assert HintAfter(env.plan, r) == HintOf(env.plan, Update(error, call));
      }
    }
  }

  lemma {:induction false} PositiveNeeds<T(!new), E(!new)>(env: Env<T, E>, total: nat, n: nat, error: Option<E>,
      clock: nat, call: Call<T, E>)
    requires Timed(env, total) && SoFar(env, total, n, error, clock) && Timely(env, n, clock, call)
    requires MayRetry(env, call) && call.ended - env.start < total && Positive(env.plan, n)
    requires var hint := HintOf(env.plan, Update(error, call)); hint.Some? ==> hint.value <= total
    ensures CanOversleep(env.plan)
  {
    hide HintOf, Positive, Quick;
    if call.ending.Completed? {
      if call.ending.result.Err? {
        ErrorIsQuick(env.plan, total, call.ending.result.error);
      } else {
        ValueIsQuick(env.plan, total, call.ending.result.value);
      }
      QuickOversleeps(env.plan, total, n);
    } else if n > 1 && Quick(env.plan, total) {
      QuickOversleeps(env.plan, total, n);
    } else {
      OneMore(n, env.plan.attemptTimeout.value);
      assert TimeFor(env.plan, total, n);
    }
  }

  /** The hint itself is what there is to wait for. */
  lemma {:induction false} HintNeeds<T(!new), E(!new)>(env: Env<T, E>, total: nat, n: nat, error: Option<E>,
      clock: nat, call: Call<T, E>)
    requires Timed(env, total) && SoFar(env, total, n, error, clock) && Timely(env, n, clock, call)
    requires MayRetry(env, call)
    requires var hint := HintOf(env.plan, Update(error, call)); hint.Some? && 0 < hint.value <= total
    ensures CanOversleep(env.plan)
  {
    hide Positive, PlainRetry, TimeFor, Quick;
    var e := Update(error, call);
    assert e.Some?;
    var r: Result<T, E> := Err(e.value);
    assert env.plan.decide(r) == Retry && HintAfter(env.plan, r) == HintOf(env.plan, e);
    assert HintedRetry(env.plan, total);
  }

  lemma {:induction false} OversleptHow<T, E>(env: Env<T, E>, total: nat, error: Option<E>, call: Call<T, E>)
    requires Timed(env, total) && Oversleeps(env, error, call) && call.ended >= env.start
    ensures var hint := HintOf(env.plan, error);
      MayRetry(env, call) && (hint.Some? ==> hint.value <= total) &&
      if call.ended - env.start >= total then NoWait(hint)
      else (hint.Some? && hint.value > 0) || Positive(env.plan, call.number)
  {
    hide HintOf, Delay, MayRetry;
    var plan, n, hint, rng := env.plan, call.number, HintOf(env.plan, error), env.oracle(call.number).rng;
    DelayBounds(plan.schedule, plan.jitter, n, rng, hint);
    if Jittered(plan.jitter, RawDelay(plan.schedule, n), rng) > 0 {
      assert Positive(plan, n);
    }
  }

  /** A call that is overslept after says the rest. */
  lemma {:induction false} OversleepNeeds<T(!new), E(!new)>(env: Env<T, E>, total: nat, n: nat, error: Option<E>,
      clock: nat, call: Call<T, E>)
    requires Timed(env, total) && SoFar(env, total, n, error, clock) && Timely(env, n, clock, call)
    requires Oversleeps(env, Update(error, call), call)
    ensures CanOversleep(env.plan)
  {
    hide HintOf, Oversleeps, CanOversleep, MayRetry, Update, Quick, Positive;
    var hint := HintOf(env.plan, Update(error, call));
    OversleptHow(env, total, Update(error, call), call);
    if call.ended - env.start >= total {
      LateNeeds(env, total, n, error, clock, call);
    } else if hint.Some? && hint.value > 0 {
      HintNeeds(env, total, n, error, clock, call);
    } else {
      PositiveNeeds(env, total, n, error, clock, call);
    }
  }

  lemma TimedDeadline<T, E>(env: Env<T, E>, total: nat)
    requires Timed(env, total)
    ensures env.deadline.Some?
  {}

  lemma {:induction false} AsleepNeeds<T(!new), E(!new)>(env: Env<T, E>, total: nat, n: nat, lastDelay: Option<nat>,
      error: Option<E>, clock: nat)
    requires Timed(env, total) && SoFar(env, total, n, error, clock)
    requires EndsAsleep(env, error, DriveFrom(env, n, lastDelay, error, clock).calls)
    ensures CanOversleep(env.plan)
    decreases env.plan.maxAttempts - n
  {
    hide TurnOf, SoFar, Timely, CanOversleep, Oversleeps, Update, MayRetry, Timed;
    assert env.deadline.Some? by { TimedDeadline(env, total); }
    TurnFits(env, n, lastDelay, error, clock);
    TurnTerminals(env, n, lastDelay, error, clock);
    TurnExplained(env, n, lastDelay, error, clock);
    match TurnOf(env, n, lastDelay, error, clock)
    case Final(r) => OversleepNeeds(env, total, n, error, clock, r.calls[0]);
    case Next(_, call, _, delay, error', clock') =>
      var rest := DriveFrom(env, n + 1, Some(delay), error', clock');
      assert ([call] + rest.calls)[1..] == rest.calls;
      SoFarGoesOn(env, total, n, error, clock, call, clock');
      AsleepNeeds(env, total, n + 1, Some(delay), error', clock');
  }

  lemma {:induction false} NoDeadlineNoSleep<T, E>(env: Env<T, E>, error: Option<E>, calls: seq<Call<T, E>>)
    requires env.deadline.None?
    ensures !EndsAsleep(env, error, calls)
    decreases |calls|
  {
    if |calls| > 1 {
      NoDeadlineNoSleep(env, Update(error, calls[0]), calls[1..]);
    }
  }

  // Surroundings in which a plan that can end asleep does.

  /** A turn with a permit and a token, whose sleep, if any, lasts past the deadline. */
  function Drowsy<T, E>(plan: Plan<T, E>, result: Result<T, E>, after: nat, poll: nat, rng: U64): Turn<T, E> {
    Turn(FREE, result, after, Lateness(0, 0, poll), true, rng, plan.totalTimeout.GetOr(0))
  }

  function With<T, E>(plan: Plan<T, E>, oracle: nat -> Turn<T, E>): Env<T, E> {
    Env(plan, oracle, 0, plan.totalTimeout, Disabled)
  }

  /** The run from attempt `n` on ends asleep. */
  ghost predicate Sleepy<T, E>(env: Env<T, E>, n: nat, lastDelay: Option<nat>, error: Option<E>, clock: nat) {
    EndsAsleep(env, error, DriveFrom(env, n, lastDelay, error, clock).calls)
  }

  /** The run ends with this turn, asleep. */
  lemma {:induction false} SleepsNow<T, E>(env: Env<T, E>, n: nat, lastDelay: Option<nat>, error: Option<E>, clock: nat)
    requires env.oracle(n).permit == FREE
    requires var call := Attempted(env, n, clock, clock); Oversleeps(env, Update(error, call), call)
    ensures Sleepy(env, n, lastDelay, error, clock)
  {
    hide AfterCall, Select, Oversleeps, Update;
    CallTerminals(env, lastDelay, error, Attempted(env, n, clock, clock));
  }

  /** The run goes on to a turn after which it ends asleep. */
  lemma {:induction false} SleepsLater<T, E>(env: Env<T, E>, n: nat, lastDelay: Option<nat>, error: Option<E>,
      clock: nat)
    requires var t := TurnOf(env, n, lastDelay, error, clock);
      t.Next? && Sleepy(env, n + 1, Some(t.delay), t.error, t.clock)
    ensures Sleepy(env, n, lastDelay, error, clock)
  {
    hide TurnOf, Oversleeps, Update;
    TurnExplained(env, n, lastDelay, error, clock);
    var t := TurnOf(env, n, lastDelay, error, clock);
    var rest := DriveFrom(env, n + 1, Some(t.delay), t.error, t.clock);
    assert ([t.call] + rest.calls)[1..] == rest.calls;
  }

  lemma {:induction false} CallResumes<T, E>(env: Env<T, E>, lastDelay: Option<nat>, error: Option<E>, call: Call<T, E>)
    requires env.deadline.Some? && MayRetry(env, call) && call.ended < env.deadline.value
    requires NoWait(HintOf(env.plan, Update(error, call))) && DelayAfter(env, call, Update(error, call)) == 0
    ensures var t := AfterCall(env, call.number, lastDelay, error, call);
      t.Next? && t.error == Update(error, call) && t.clock == call.ended
  {
    hide Settle, HintOf, Delay;
    SettleExplained(env, error, call);
  }

  /** A retry without anything to wait for resumes at once. */
  lemma {:induction false} ResumesAtOnce<T, E>(env: Env<T, E>, n: nat, lastDelay: Option<nat>, error: Option<E>,
      clock: nat)
    requires env.oracle(n).permit == FREE && env.deadline.Some?
    requires var call := Attempted(env, n, clock, clock);
      MayRetry(env, call) && call.ended < env.deadline.value &&
      NoWait(HintOf(env.plan, Update(error, call))) && DelayAfter(env, call, Update(error, call)) == 0
    ensures var t, call := TurnOf(env, n, lastDelay, error, clock), Attempted(env, n, clock, clock);
      t.Next? && t.error == Update(error, call) && t.clock == call.ended
  {
    hide AfterCall, Select, DelayAfter;
    CallResumes(env, lastDelay, error, Attempted(env, n, clock, clock));
  }

  /** The first attempt after which the backoff can be positive, if there is one. */
  lemma {:induction false} FirstPositive<T, E>(plan: Plan<T, E>, n: nat) returns (first: nat)
    requires n >= 1 && Positive(plan, n)
    ensures 1 <= first <= n && Positive(plan, first) && forall k: nat :: 1 <= k < first ==> !Positive(plan, k)
  {
    hide Positive;
    if k: nat :| 1 <= k < n && Positive(plan, k) {
      first := FirstPositive(plan, k);
    } else {
      first := n;
    }
  }

  lemma {:induction false} NothingToWaitFor<T, E>(env: Env<T, E>, error: Option<E>, call: Call<T, E>)
    requires !Positive(env.plan, call.number) && NoWait(HintOf(env.plan, error))
    ensures DelayAfter(env, call, error) == 0
  {
    hide HintOf;
    var plan, rng := env.plan, env.oracle(call.number).rng;
    DelayBounds(plan.schedule, plan.jitter, call.number, rng, HintOf(plan, error));
    assert Jittered(plan.jitter, RawDelay(plan.schedule, call.number), rng) == 0;
  }

  lemma {:induction false} SomethingToWaitFor<T, E>(env: Env<T, E>, error: Option<E>, call: Call<T, E>)
    requires Jittered(env.plan.jitter, RawDelay(env.plan.schedule, call.number), env.oracle(call.number).rng) > 0
    ensures DelayAfter(env, call, error) > 0
  {
    hide HintOf, Jittered;
  }

  /** Every attempt completes at once with the same result, until the backoff is positive. */
  lemma {:induction false} InstantRun<T, E>(plan: Plan<T, E>, r: Result<T, E>, rng: U64, first: nat, n: nat,
      lastDelay: Option<nat>, error: Option<E>)
    requires plan.totalTimeout.Some? && plan.totalTimeout.value > 0 && 1 <= n <= first < plan.maxAttempts
    requires plan.decide(r) == Retry && Before(plan, 0) && NoWait(HintAfter(plan, r))
    requires error.Some? ==> r.Err? && error.value == r.error
    requires Jittered(plan.jitter, RawDelay(plan.schedule, first), rng) > 0
    requires forall k: nat :: 1 <= k < first ==> !Positive(plan, k)
    ensures Sleepy(With(plan, _ => Drowsy(plan, r, 0, 0, rng)), n, lastDelay, error, 0)
    decreases first - n
  {
    hide HintOf, Positive, DelayAfter, Sleepy, TurnOf;
    var env := With(plan, _ => Drowsy(plan, r, 0, 0, rng));
    var call := Attempted(env, n, 0, 0);
    assert call == Call(n, 0, 0, 0, Completed(r));
    assert HintOf(plan, Update(error, call)) == HintAfter(plan, r);
    if n == first {
      SomethingToWaitFor(env, Update(error, call), call);
      SleepsNow(env, n, lastDelay, error, 0);
    } else {
      NothingToWaitFor(env, Update(error, call), call);
      ResumesAtOnce(env, n, lastDelay, error, 0);
      var t := TurnOf(env, n, lastDelay, error, 0);
      InstantRun(plan, r, rng, first, n + 1, Some(t.delay), t.error);
      SleepsLater(env, n, lastDelay, error, 0);
    }
  }

  /** Attempt `n` of a row that time out: it starts after the ones before it. */
  function SlowTurn<T, E>(plan: Plan<T, E>, any: Result<T, E>, rng: U64, n: nat): Turn<T, E>
    requires plan.totalTimeout.Some? && plan.attemptTimeout.Some?
  {
    var a, total := plan.attemptTimeout.value, plan.totalTimeout.value;
    Drowsy(plan, any, a + 1, if n * a > total then n * a - total else 0, rng)
  }

  function SlowEnv<T, E>(plan: Plan<T, E>, any: Result<T, E>, rng: U64): Env<T, E>
    requires plan.totalTimeout.Some? && plan.attemptTimeout.Some?
  {
    With(plan, (k: nat) => SlowTurn(plan, any, rng, k))
  }

  lemma AtMost(m: nat, n: nat, a: nat)
    requires m <= n
    ensures m * a <= n * a
  {}

  lemma {:induction false} SlowRun<T, E>(plan: Plan<T, E>, any: Result<T, E>, rng: U64, first: nat, n: nat,
      lastDelay: Option<nat>)
    requires plan.totalTimeout.Some? && plan.attemptTimeout.Some? && 1 <= n <= first < plan.maxAttempts
    requires TimeFor(plan, plan.totalTimeout.value, first)
    requires Jittered(plan.jitter, RawDelay(plan.schedule, first), rng) > 0
    requires forall k: nat :: 1 <= k < first ==> !Positive(plan, k)
    ensures Sleepy(SlowEnv(plan, any, rng), n, lastDelay, None, (n - 1) * plan.attemptTimeout.value)
    decreases first - n
  {
    hide Positive, DelayAfter, Sleepy, TurnOf;
    var env := SlowEnv(plan, any, rng);
    var a, total := plan.attemptTimeout.value, plan.totalTimeout.value;
    var clock := (n - 1) * a;
    OneMore(n, a);
    AtMost(n, first, a);
    AtMost(n - 1, first - 1, a);
    var call := Attempted(env, n, clock, clock);
    assert call == Call(n, clock, clock, n * a, OutOfAttemptTime);
    if n == first {
      SomethingToWaitFor(env, None, call);
      SleepsNow(env, n, lastDelay, None, clock);
    } else {
      AtMost(n, first - 1, a);
      NothingToWaitFor(env, None, call);
      ResumesAtOnce(env, n, lastDelay, None, clock);
      SlowRun(plan, any, rng, first, n + 1, Some(TurnOf(env, n, lastDelay, None, clock).delay));
      SleepsLater(env, n, lastDelay, None, clock);
    }
  }

  /** Some run that starts its attempts at once ends asleep. */
  ghost predicate CanFallAsleep<T(!new), E(!new)>(plan: Plan<T, E>) {
    exists oracle: nat -> Turn<T, E> :: Sleepy(With(plan, oracle), 1, None, None, 0)
  }

  lemma {:induction false} HintSleeps<T(!new), E(!new)>(plan: Plan<T, E>)
    requires plan.totalTimeout.Some? && plan.maxAttempts >= 2 && HintedRetry(plan, plan.totalTimeout.value)
    ensures CanFallAsleep(plan)
  {
    hide HintOf, Jittered, RawDelay, Sleepy;
    var r :| plan.decide(r) == Retry && HintAfter(plan, r).Some? &&
      0 < HintAfter(plan, r).value <= plan.totalTimeout.value;
    var env := With(plan, _ => Drowsy(plan, r, 0, 0, 0));
    var call := Attempted(env, 1, 0, 0);
    assert call == Call(1, 0, 0, 0, Completed(r));
    assert HintOf(plan, Update(None, call)) == HintAfter(plan, r);
    SleepsNow(env, 1, None, None, 0);
  }

  /** An attempt that completes at the deadline. */
  lemma {:induction false} LateResultSleeps<T(!new), E(!new)>(plan: Plan<T, E>)
    requires plan.totalTimeout.Some? && plan.maxAttempts >= 2
    requires PlainRetry(plan) && Before(plan, plan.totalTimeout.value)
    ensures CanFallAsleep(plan)
  {
    hide HintOf, Delay, Sleepy;
    var r :| plan.decide(r) == Retry && NoWait(HintAfter(plan, r));
    var total := plan.totalTimeout.value;
    var early := plan.attemptTimeout.Some? && plan.attemptTimeout.value < total;
    var poll := if early then total - plan.attemptTimeout.value else 0;
    var env := With(plan, _ => Drowsy(plan, r, total, poll, 0));
    var call := Attempted(env, 1, 0, 0);
    assert call == Call(1, 0, 0, total, Completed(r));
    assert HintOf(plan, Update(None, call)) == HintAfter(plan, r);
    SleepsNow(env, 1, None, None, 0);
  }

  /** An attempt that times out at the deadline or after. */
  lemma {:induction false} LateTimeoutSleeps<T(!new), E(!new)>(plan: Plan<T, E>, any: Result<T, E>)
    requires plan.totalTimeout.Some? && plan.attemptTimeout.Some? && plan.maxAttempts >= 2
    requires Before(plan, Max(plan.attemptTimeout.value, plan.totalTimeout.value))
    ensures CanFallAsleep(plan)
  {
    hide Delay, Sleepy;
    var a, total := plan.attemptTimeout.value, plan.totalTimeout.value;
    var late := if a < total then total else a;
    var env := With(plan, _ => Drowsy(plan, any, late + 1, late - (if a < total then a else total), 0));
    var call := Attempted(env, 1, 0, 0);
    assert call == Call(1, 0, 0, late, OutOfAttemptTime);
    SleepsNow(env, 1, None, None, 0);
  }

  lemma {:induction false} BackoffSleeps<T(!new), E(!new)>(plan: Plan<T, E>, n: nat)
    requires plan.totalTimeout.Some? && 1 <= n < plan.maxAttempts && Positive(plan, n)
    requires PlainRetry(plan) && Before(plan, 0)
    ensures CanFallAsleep(plan)
  {
    hide HintOf, Sleepy, Jittered, RawDelay;
    if plan.totalTimeout.value == 0 {
      LateResultSleeps(plan);
    } else {
      var r :| plan.decide(r) == Retry && NoWait(HintAfter(plan, r));
      var first := FirstPositive(plan, n);
      var rng: U64 :| Jittered(plan.jitter, RawDelay(plan.schedule, first), rng) > 0;
      InstantRun(plan, r, rng, first, 1, None, None);
    }
  }

  lemma {:induction false} TimeoutsSleep<T(!new), E(!new)>(plan: Plan<T, E>, any: Result<T, E>, n: nat)
    requires plan.totalTimeout.Some? && 1 <= n < plan.maxAttempts && Positive(plan, n)
    requires TimeFor(plan, plan.totalTimeout.value, n)
    ensures CanFallAsleep(plan)
  {
    hide Sleepy, Jittered, RawDelay;
    var first := FirstPositive(plan, n);
    var rng: U64 :| Jittered(plan.jitter, RawDelay(plan.schedule, first), rng) > 0;
    AtMost(first, n, plan.attemptTimeout.value);
    AtMost(first - 1, n - 1, plan.attemptTimeout.value);
    SlowRun(plan, any, rng, first, 1, None);
  }

  lemma {:induction false} OversleeperSleeps<T(!new), E(!new)>(plan: Plan<T, E>, any: Result<T, E>)
    requires CanOversleep(plan)
    ensures CanFallAsleep(plan)
  {
    hide CanFallAsleep, HintedRetry, PlainRetry, Positive, TimeFor, Before;
    var total := plan.totalTimeout.value;
    if HintedRetry(plan, total) {
      HintSleeps(plan);
    } else if PlainRetry(plan) && Before(plan, total) {
      LateResultSleeps(plan);
    } else if n: nat :| PlainRetry(plan) && Before(plan, 0) && 1 <= n < plan.maxAttempts && Positive(plan, n) {
      BackoffSleeps(plan, n);
    } else if Before(plan, Max(plan.attemptTimeout.value, total)) {
      LateTimeoutSleeps(plan, any);
    } else {
      var n: nat :| 1 <= n < plan.maxAttempts && Positive(plan, n) && TimeFor(plan, total, n);
      TimeoutsSleep(plan, any, n);
    }
  }

  lemma {:induction false} SleeperNeeds<T(!new), E(!new)>(plan: Plan<T, E>, env: Env<T, E>, at: nat)
    requires Surrounds(plan, env, at) && EndsAsleep(env, None, DriveSpec(env, at).calls)
    ensures CanOversleep(plan)
  {
    hide CanOversleep, DriveFrom, EndsAsleep;
    if plan.totalTimeout.None? {
      NoDeadlineNoSleep(env, None, DriveSpec(env, at).calls);
    } else {
      AsleepNeeds(env, plan.totalTimeout.value, 1, None, None, at);
    }
  }

  /** Exactly which plans let a run end in silence: there are surroundings in which the retry loop
      announces no end if and only if the plan has a total timeout and an attainable retry, with a
      hint that fits it, whose sleep can reach it.  (`any` only says that the operation has some
      result.) */
  lemma {:induction false} SilencedExactlyWhen<T(!new), E(!new)>(plan: Plan<T, E>, any: Result<T, E>)
    ensures (exists env, at: nat :: Surrounds(plan, env, at) && Terminals(DriveSpec(env, at).events) == 0)
      <==> CanOversleep(plan)
  {
    hide CanOversleep, DriveFrom, EndsAsleep;
    if CanOversleep(plan) {
      OversleeperSleeps(plan, any);
      var oracle: nat -> Turn<T, E> :| Sleepy(With(plan, oracle), 1, None, None, 0);
      var env := With(plan, oracle);
      SilentExactlyWhen(env, 0);
      assert Surrounds(plan, env, 0) && Terminals(DriveSpec(env, 0).events) == 0;
    } else {
      forall env, at: nat | Surrounds(plan, env, at) ensures Terminals(DriveSpec(env, at).events) != 0 {
        SilentExactlyWhen(env, at);
        if EndsAsleep(env, None, DriveSpec(env, at).calls) {
          SleeperNeeds(plan, env, at);
        }
      }
    }
  }

  lemma {:induction false} SleepyRun<T, E>(env: Env<T, E>, at: nat)
    ensures Sleepy(env, 1, None, None, at) <==> EndsAsleep(env, None, DriveSpec(env, at).calls)
  {
    hide DriveFrom, EndsAsleep;
  }

  /** One input: an operation that is to be retried after ten nanoseconds, five before the total
      deadline. */
  lemma {:induction false} SilentRun<T, E>(result: Result<T, E>) returns (env: Env<T, E>)
    ensures env.plan.totalTimeout == Some(5) && env.plan.schedule == Fixed(10) && Surrounds(env.plan, env, 0)
    ensures Terminals(DriveSpec(env, 0).events) == 0
  {
    hide DriveSpec, DriveFrom;
    var plan: Plan<T, E> := Plan(2, None, Fixed(10), NoJitter, _ => Retry, None, false, None, Some(5), None);
    env := With(plan, _ => Drowsy(plan, result, 0, 0, 0));
    assert Attempted(env, 1, 0, 0) == Call(1, 0, 0, 0, Completed(result));
    SleepsNow(env, 1, None, None, 0);
    SleepyRun(env, 0);
    SilentExactlyWhen(env, 0);
  }
}
