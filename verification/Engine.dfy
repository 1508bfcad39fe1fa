/** The retry loop (src/engine.rs, `drive` and its boxed twin): its recursive specification and
    the loop itself.

    Everything the loop does not decide is an oracle: what each attempt's operation returns and
    when, whether permits and retry tokens are to be had, the random words, and how late timers
    fire and tasks are polled.  The clock moves only while something is awaited. */
module Engine {
  import opened Common
  import opened Backoff

  datatype Result<T, E> = Ok(value: T) | Err(error: E)
  datatype Decision = Retry | Stop
  datatype BreakerView = Disabled | Closed | Open | HalfOpen
  datatype Scope = Operations | Attempts
  datatype Saturation = Reject | Wait(maxQueued: nat, queueTimeout: Option<nat>)
  datatype Limit = Limit(scope: Scope, saturation: Saturation)

  /** What `drive` reads of a plan.  The builder rejects a plan without attempts. */
  datatype Plan<!T, !E> = Plan(
    maxAttempts: nat,
    maxElapsed: Option<nat>,
    schedule: Schedule,
    jitter: Jitter,
    decide: Result<T, E> -> Decision,
    retryAfter: Option<E -> Option<Duration>>,
    budgeted: bool,
    attemptTimeout: Option<nat>,
    totalTimeout: Option<nat>,
    limit: Option<Limit>)

  /** How late the timers of one wait fire, and how long after the first one fires the task is
      polled.  Exact timers are never late. */
  datatype Lateness = Lateness(inner: nat, outer: nat, poll: nat)

  const EXACT := Lateness(0, 0, 0)

  /** What the semaphore has in store for one acquisition: a free permit, or the queue length
      met and the time until a permit would come. */
  datatype PermitTurn = PermitTurn(free: bool, queued: nat, after: nat, late: Lateness)

  /** What the world has in store for one attempt. */
  datatype Turn<T, E> = Turn(
    permit: PermitTurn,
    result: Result<T, E>,
    after: nat,
    late: Lateness,
    granted: bool,
    rng: U64,
    sleepLate: nat)

  /** The fixed surroundings of one call of `drive`. */
  datatype Env<!T, !E> = Env(
    plan: Plan<T, E>,
    oracle: nat -> Turn<T, E>,
    start: nat,
    deadline: Option<nat>,
    view: BreakerView)

  datatype Context = Context(attempts: nat, elapsed: int, lastDelay: Option<nat>, view: BreakerView)

  datatype Cause<E> =
    | Operation(source: E)
    | AttemptTimeout
    | TotalTimeout
    | CircuitOpen
    | ConcurrencyRejected
    | BudgetExhausted

  datatype Outcome<T, E> = Success(value: T) | Failure(cause: Cause<E>, context: Context)

  datatype Event =
    | AttemptFailed(attempt: nat)
    | AttemptTimedOut(attempt: nat)
    | RetryScheduled(attempt: nat, delay: nat)
    | Succeeded(attempts: nat)
    | GaveUp(attempts: nat)
    | CircuitStateChanged(to: BreakerView)
    | Rejected
    | OutOfBudget(attempts: nat)

  /** How one attempt ended. */
  datatype Ending<T, E> = Completed(result: Result<T, E>) | OutOfAttemptTime | OutOfTotalTime

  /** One invocation of the operation: its number, when its turn came, when the operation
      started (after any wait for a permit) and when it ended. */
  datatype Call<T, E> = Call(number: nat, turn: nat, started: nat, ended: nat, ending: Ending<T, E>)

  /** All a run leaves behind. */
  datatype Report<T, E> = Report(
    outcome: Outcome<T, E>,
    events: seq<Event>,
    calls: seq<Call<T, E>>,
    withdrawals: nat,
    clock: nat)

  // --- Waiting -------------------------------------------------------------------------------

  datatype Winner = Main | Inner | Outer

  /** When the outer timer of a wait fires: it was armed with what is left until the deadline. */
  function OuterAt(deadline: Option<nat>, now: nat, late: Lateness): Option<nat> {
    if deadline.None? then None else Some(Max(deadline.value, now) + late.outer)
  }

  function InnerAt(timeout: Option<nat>, now: nat, late: Lateness): Option<nat> {
    if timeout.None? then None else Some(now + timeout.value + late.inner)
  }

  function Earlier(a: nat, b: Option<nat>): nat {
    if b.Some? && b.value < a then b.value else a
  }

  /** The polled select: the awaited thing first, then the inner timer, then the outer one.  It
      is polled at once, and after that when something is ready. */
  function Select(now: nat, after: nat, timeout: Option<nat>, deadline: Option<nat>, late: Lateness): (Winner, nat) {
    if after == 0 then (Main, now)
    else
      var inner, outer := InnerAt(timeout, now, late), OuterAt(deadline, now, late);
      var wake := Earlier(Earlier(now + after, inner), outer) + late.poll;
      if now + after <= wake then (Main, wake)
      else if inner.Some? && inner.value <= wake then (Inner, wake)
      else (Outer, wake)
  }

  /** `acquire_permit`: whether a permit was obtained, and when that was settled. */
  function Acquire(s: Saturation, turn: PermitTurn, now: nat, deadline: Option<nat>): (bool, nat) {
    if turn.free then (true, now)
    else
      match s
      case Reject => (false, now)
      case Wait(maxQueued, queueTimeout) =>
        if turn.queued >= maxQueued then (false, now)
        else
          var (winner, wake) := Select(now, turn.after, queueTimeout, deadline, turn.late);
          (winner == Main, wake)
  }

  function AcquireFor(plan: Plan, scope: Scope, turn: PermitTurn, now: nat, deadline: Option<nat>): (bool, nat) {
    if plan.limit.Some? && plan.limit.value.scope == scope
    then Acquire(plan.limit.value.saturation, turn, now, deadline)
    else (true, now)
  }

  // --- The specification ------------------------------------------------------------------------

  function HintOf<T, E>(plan: Plan<T, E>, error: Option<E>): Option<Duration> {
    if plan.retryAfter.Some? && error.Some? then plan.retryAfter.value(error.value) else None
  }

  /** What an attempt's ending means: the run is over, or it goes on with a latest error. */
  datatype Settled<T, E> =
    | Over(result: Result<T, Cause<E>>, events: seq<Event>)
    | GoOn(events: seq<Event>, error: Option<E>)

  function Settle<T, E>(plan: Plan<T, E>, n: nat, ending: Ending<T, E>, error: Option<E>): (s: Settled<T, E>)
    ensures s.GoOn? ==> n < plan.maxAttempts
  {
    match ending
    case OutOfTotalTime => Over(Err(TotalTimeout), [GaveUp(n)])
    case OutOfAttemptTime =>
      if n >= plan.maxAttempts then Over(Err(AttemptTimeout), [AttemptTimedOut(n), GaveUp(n)])
      else GoOn([AttemptTimedOut(n)], error)
    case Completed(result) =>
      if plan.decide(result) == Stop || n >= plan.maxAttempts then
        (match result
         case Ok(v) => Over(Ok(v), [Succeeded(n)])
         case Err(e) => Over(Err(Operation(e)), [GaveUp(n)]))
      else
        (match result
         case Ok(_) => GoOn([], error)
         case Err(e) => GoOn([AttemptFailed(n)], Some(e)))
  }

  /** What happens between two attempts: the run ends for want of time or tokens, or resumes. */
  datatype Pause<E> =
    | Ends(cause: Cause<E>, events: seq<Event>, lastDelay: Option<nat>, withdrawals: nat, clock: nat)
    | Resumes(events: seq<Event>, delay: nat, withdrawals: nat, clock: nat)

  function Remaining(deadline: Option<nat>, now: nat): Option<nat> {
    if deadline.None? then None else Some(if deadline.value > now then deadline.value - now else 0)
  }

  function PauseAfter<T, E>(env: Env<T, E>, n: nat, error: Option<E>, lastDelay: Option<nat>, now: nat): Pause<E> {
    var plan, turn := env.plan, env.oracle(n);
    if plan.maxElapsed.Some? && now - env.start >= plan.maxElapsed.value then
      Ends(if error.Some? then Operation(error.value) else AttemptTimeout, [GaveUp(n)], lastDelay, 0, now)
    else if plan.budgeted && !turn.granted then
      Ends(BudgetExhausted, [OutOfBudget(n)], lastDelay, 0, now)
    else
      var spent := if plan.budgeted then 1 else 0;
      var hint := HintOf(plan, error);
      var raw: nat := Delay(plan.schedule, plan.jitter, n, turn.rng, hint);
      var remaining := Remaining(env.deadline, now);
      if remaining.Some? && hint.Some? && hint.value > remaining.value then
        Ends(TotalTimeout, [GaveUp(n)], Some(raw), spent, now)
      else
        var delay := if remaining.Some? && remaining.value < raw then remaining.value else raw;
        var clock := if delay == 0 then now else now + delay + turn.sleepLate;
        if env.deadline.Some? && clock >= env.deadline.value then
          Ends(TotalTimeout, [RetryScheduled(n, delay)], Some(raw), spent, clock)
        else
          Resumes([RetryScheduled(n, delay)], raw, spent, clock)
  }

  /** Attempt `n` up to its ending, its permit already held. */
  function Attempted<T, E>(env: Env<T, E>, n: nat, turn: nat, started: nat): Call<T, E> {
    var t := env.oracle(n);
    var (winner, ended) := Select(started, t.after, env.plan.attemptTimeout, env.deadline, t.late);
    Call(n, turn, started, ended,
      match winner
      case Main => Completed(t.result)
      case Inner => OutOfAttemptTime
      case Outer => OutOfTotalTime)
  }

  function Failed<T, E>(env: Env<T, E>, n: nat, cause: Cause<E>, lastDelay: Option<nat>, now: nat): Outcome<T, E> {
    Failure(cause, Context(n, now - env.start, lastDelay, env.view))
  }

  function Conclude<T, E>(env: Env<T, E>, n: nat, result: Result<T, Cause<E>>, lastDelay: Option<nat>,
      now: nat): Outcome<T, E>
  {
    match result
    case Ok(v) => Success(v)
    case Err(cause) => Failed(env, n, cause, lastDelay, now)
  }

  /** A report with something before it. */
  function After<T, E>(events: seq<Event>, calls: seq<Call<T, E>>, withdrawals: nat, r: Report<T, E>): Report<T, E> {
    r.(events := events + r.events, calls := calls + r.calls, withdrawals := withdrawals + r.withdrawals)
  }

  /** One turn of the loop: it ends the run, or leads to the next attempt. */
  datatype Turned<T, E> =
    | Final(report: Report<T, E>)
    | Next(events: seq<Event>, call: Call<T, E>, spent: nat, delay: nat, error: Option<E>, clock: nat)

  function AfterPause<T, E>(env: Env<T, E>, n: nat, events: seq<Event>, call: Call<T, E>, error: Option<E>,
      p: Pause<E>): Turned<T, E>
  {
    match p
    case Ends(cause, events', lastDelay, spent, clock) =>
      Final(Report(Failed(env, n, cause, lastDelay, clock), events + events', [call], spent, clock))
    case Resumes(events', delay, spent, clock) =>
      Next(events + events', call, spent, delay, error, clock)
  }

  function AfterCall<T, E>(env: Env<T, E>, n: nat, lastDelay: Option<nat>, error: Option<E>,
      call: Call<T, E>): (t: Turned<T, E>)
    ensures t.Next? ==> n < env.plan.maxAttempts
  {
    match Settle(env.plan, n, call.ending, error)
    case Over(result, events) =>
      Final(Report(Conclude(env, n, result, lastDelay, call.ended), events, [call], 0, call.ended))
    case GoOn(events, error') =>
      AfterPause(env, n, events, call, error', PauseAfter(env, n, error', lastDelay, call.ended))
  }

  function TurnOf<T, E>(env: Env<T, E>, n: nat, lastDelay: Option<nat>, error: Option<E>, clock: nat): (t: Turned<T, E>)
    ensures t.Next? ==> n < env.plan.maxAttempts
  {
    var (held, started) := AcquireFor(env.plan, Attempts, env.oracle(n).permit, clock, env.deadline);
    if !held then
      Final(Report(Failed(env, n, ConcurrencyRejected, lastDelay, started), [Rejected], [], 0, started))
    else
      AfterCall(env, n, lastDelay, error, Attempted(env, n, clock, started))
  }

  /** The run from attempt `n` on. */
  function DriveFrom<T, E>(env: Env<T, E>, n: nat, lastDelay: Option<nat>, error: Option<E>, clock: nat): Report<T, E>
    decreases env.plan.maxAttempts - n
  {
    match TurnOf(env, n, lastDelay, error, clock)
    case Final(r) => r
    case Next(events, call, spent, delay, error', clock') =>
      After(events, [call], spent, DriveFrom(env, n + 1, Some(delay), error', clock'))
  }

  function DriveSpec<T, E>(env: Env<T, E>, clock: nat): Report<T, E> {
    DriveFrom(env, 1, None, None, clock)
  }

  // --- The loop ------------------------------------------------------------------------------------

  lemma {:induction false} AfterAgain<T, E>(ev: seq<Event>, cs: seq<Call<T, E>>, k: nat,
      ev': seq<Event>, cs': seq<Call<T, E>>, k': nat, r: Report<T, E>)
    ensures After(ev, cs, k, After(ev', cs', k', r)) == After(ev + ev', cs + cs', k + k', r)
  {
    assert ev + (ev' + r.events) == (ev + ev') + r.events;
    assert cs + (cs' + r.calls) == (cs + cs') + r.calls;
  }

  /** The part of the loop body after an attempt that did not settle the run: the elapsed-time
      guard, the retry budget, the backoff and the sleep. */
  method Between<T, E>(env: Env<T, E>, attemptNo: nat, lastError: Option<E>, lastDelay: Option<nat>, now: nat)
    returns (p: Pause<E>)
    ensures p == PauseAfter(env, attemptNo, lastError, lastDelay, now)
  {
    hide Delay, HintOf;
    var plan, turn := env.plan, env.oracle(attemptNo);
    var clock, withdrawals: nat := now, 0;
    if plan.maxElapsed.Some? && clock - env.start >= plan.maxElapsed.value {
      var cause := if lastError.Some? then Operation(lastError.value) else AttemptTimeout;
      return Ends(cause, [GaveUp(attemptNo)], lastDelay, withdrawals, clock);
    }
    if plan.budgeted {
      if !turn.granted {
        return Ends(BudgetExhausted, [OutOfBudget(attemptNo)], lastDelay, withdrawals, clock);
      }
      withdrawals := withdrawals + 1;
    }
    var hint := HintOf(plan, lastError);
    var raw := Delay(plan.schedule, plan.jitter, attemptNo, turn.rng, hint);
    var remaining := Remaining(env.deadline, clock);
    if remaining.Some? && hint.Some? && hint.value > remaining.value {
      return Ends(TotalTimeout, [GaveUp(attemptNo)], Some(raw), withdrawals, clock);
    }
    var delay: nat := raw;
    if remaining.Some? && remaining.value < raw {
      delay := remaining.value;
    }
    if delay != 0 {
      clock := clock + delay + turn.sleepLate;
    }
    if env.deadline.Some? && clock >= env.deadline.value {
      return Ends(TotalTimeout, [RetryScheduled(attemptNo, delay)], Some(raw), withdrawals, clock);
    }
    return Resumes([RetryScheduled(attemptNo, delay)], raw, withdrawals, clock);
  }

  /** The part of the loop body that runs one attempt and settles it: the select over the
      operation and the two timers, then the classification of what came of it. */
  method RunAttempt<T, E>(env: Env<T, E>, attemptNo: nat, turnAt: nat, started: nat, lastError: Option<E>)
    returns (call: Call<T, E>, s: Settled<T, E>)
    ensures call == Attempted(env, attemptNo, turnAt, started)
    ensures s == Settle(env.plan, attemptNo, call.ending, lastError)
  {
    var plan, turn := env.plan, env.oracle(attemptNo);
    var (winner, ended) := Select(started, turn.after, plan.attemptTimeout, env.deadline, turn.late);
    match winner {
      case Outer =>
        call := Call(attemptNo, turnAt, started, ended, OutOfTotalTime);
        s := Over(Err(TotalTimeout), [GaveUp(attemptNo)]);
      case Inner =>
        call := Call(attemptNo, turnAt, started, ended, OutOfAttemptTime);
        var events := [AttemptTimedOut(attemptNo)];
        if attemptNo >= plan.maxAttempts {
          return call, Over(Err(AttemptTimeout), events + [GaveUp(attemptNo)]);
        }
        s := GoOn(events, lastError);
      case Main =>
        call := Call(attemptNo, turnAt, started, ended, Completed(turn.result));
        match (plan.decide(turn.result), turn.result) {
          case (Stop, Ok(v)) => s := Over(Ok(v), [Succeeded(attemptNo)]);
          case (Stop, Err(e)) => s := Over(Err(Operation(e)), [GaveUp(attemptNo)]);
          case (Retry, Ok(v)) =>
            s := if attemptNo >= plan.maxAttempts then Over(Ok(v), [Succeeded(attemptNo)]) else GoOn([], lastError);
          case (Retry, Err(e)) =>
            s := if attemptNo >= plan.maxAttempts then Over(Err(Operation(e)), [GaveUp(attemptNo)])
                 else GoOn([AttemptFailed(attemptNo)], Some(e));
        }
    }
  }

  /** `drive`: one loop over the attempts. */
  method Drive<T, E>(env: Env<T, E>, clock0: nat) returns (r: Report<T, E>)
    requires env.plan.maxAttempts >= 1
    ensures r == DriveSpec(env, clock0)
  {
    var clock: nat := clock0;
    var events: seq<Event>, calls: seq<Call<T, E>>, withdrawals := [], [], 0;
    var lastDelay: Option<nat>, lastError: Option<E> := None, None;
    var attemptNo: nat := 1;
    assert After<T, E>([], [], 0, DriveSpec(env, clock0)) == DriveSpec(env, clock0);
    while true
      invariant 1 <= attemptNo <= env.plan.maxAttempts
      invariant DriveSpec(env, clock0) ==
        After(events, calls, withdrawals, DriveFrom(env, attemptNo, lastDelay, lastError, clock))
      decreases env.plan.maxAttempts - attemptNo
    {
      ghost var rest := DriveFrom(env, attemptNo, lastDelay, lastError, clock);
      var (held, started) := AcquireFor(env.plan, Attempts, env.oracle(attemptNo).permit, clock, env.deadline);
      if !held {
        r := Report(Failed(env, attemptNo, ConcurrencyRejected, lastDelay, started), [Rejected], [], 0, started);
        assert r == rest;
        return After(events, calls, withdrawals, r);
      }
      var call, settled := RunAttempt(env, attemptNo, clock, started, lastError);
      match settled {
        case Over(result, events') =>
          r := Report(Conclude(env, attemptNo, result, lastDelay, call.ended), events', [call], 0, call.ended);
          assert r == rest;
          return After(events, calls, withdrawals, r);
        case GoOn(events', error') =>
          var pause := Between(env, attemptNo, error', lastDelay, call.ended);
          match pause {
            case Ends(cause, events'', lastDelay', spent, clock') =>
              r := Report(Failed(env, attemptNo, cause, lastDelay', clock'), events' + events'', [call], spent, clock');
              assert r == rest;
              return After(events, calls, withdrawals, r);
            case Resumes(events'', delay, spent, clock') =>
              ghost var next := DriveFrom(env, attemptNo + 1, Some(delay), error', clock');
              assert rest == After(events' + events'', [call], spent, next);
              AfterAgain(events, calls, withdrawals, events' + events'', [call], spent, next);
              events := events + (events' + events'');
              calls := calls + [call];
              withdrawals := withdrawals + spent;
              lastDelay, lastError, clock := Some(delay), error', clock';
          }
      }
      attemptNo := attemptNo + 1;
    }
  }
}
