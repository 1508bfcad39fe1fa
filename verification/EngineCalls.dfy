/** What the world decides of a run (src/engine.rs:124-168, 196-266, 322-403): every call, every pause
    and every event of the retry loop, read off the oracle by arithmetic. */
module EngineCalls {
  import opened Common
  import opened Backoff
  import opened Engine
  import opened EngineTheorems

  // --- Waits ---------------------------------------------------------------------------------

  /** What is awaited is ready by the time either timer has fired and been noticed. */
  predicate ReadyFirst(now: nat, after: nat, timeout: Option<nat>, deadline: Option<nat>, late: Lateness) {
    after == 0 ||
    ((timeout.Some? ==> after <= timeout.value + late.inner + late.poll) &&
     (deadline.Some? ==> now + after <= Max(deadline.value, now) + late.outer + late.poll))
  }

  /** The wait's own timer has fired by the time a timer is noticed. */
  predicate OwnTimerFirst(now: nat, timeout: Option<nat>, deadline: Option<nat>, late: Lateness) {
    timeout.Some? &&
    (deadline.None? || now + timeout.value + late.inner <= Max(deadline.value, now) + late.outer + late.poll)
  }

  /** A wait is over at once, or as soon as the first of what is awaited and the two timers is there
      and has been noticed. */
  predicate NoticedAt(now: nat, after: nat, timeout: Option<nat>, deadline: Option<nat>, late: Lateness, end: nat) {
    if after == 0 then end == now
    else
      var first := end - late.poll;
      first <= now + after &&
      (timeout.Some? ==> first <= now + timeout.value + late.inner) &&
      (deadline.Some? ==> first <= Max(deadline.value, now) + late.outer) &&
      (first == now + after ||
       (timeout.Some? && first == now + timeout.value + late.inner) ||
       (deadline.Some? && first == Max(deadline.value, now) + late.outer))
  }

  /** The select ends with the awaited thing exactly when that is ready first, and otherwise with the
      wait's own timer exactly when that has fired when a timer is noticed. */
  lemma SelectDecides(now: nat, after: nat, timeout: Option<nat>, deadline: Option<nat>, late: Lateness)
    ensures var (winner, end) := Select(now, after, timeout, deadline, late);
      NoticedAt(now, after, timeout, deadline, late, end) &&
      (winner == Main <==> ReadyFirst(now, after, timeout, deadline, late)) &&
      (winner == Inner <==>
        !ReadyFirst(now, after, timeout, deadline, late) && OwnTimerFirst(now, timeout, deadline, late))
  {}

  // --- One call --------------------------------------------------------------------------------

  /** A call ends with its own operation's result if that is ready first, and otherwise with the timer
      that fired first, when that is noticed. */
  predicate RunsItsCourse<T(==), E(==)>(env: Env<T, E>, call: Call<T, E>) {
    var t, timeout := env.oracle(call.number), env.plan.attemptTimeout;
    call.ending ==
      (if ReadyFirst(call.started, t.after, timeout, env.deadline, t.late) then Completed(t.result)
       else if OwnTimerFirst(call.started, timeout, env.deadline, t.late) then OutOfAttemptTime
       else OutOfTotalTime) &&
    NoticedAt(call.started, t.after, timeout, env.deadline, t.late, call.ended)
  }

  // --- One permit --------------------------------------------------------------------------------

  /** A permit is not to be had at once: the limit has this scope and none is free. */
  predicate MustWait(limit: Option<Limit>, scope: Scope, p: PermitTurn) {
    limit.Some? && limit.value.scope == scope && !p.free
  }

  /** A permit asked for at `now` is had at once, or after waiting in the queue, before a timer fires. */
  predicate HeldAt(limit: Option<Limit>, scope: Scope, p: PermitTurn, deadline: Option<nat>, now: nat, at: nat) {
    if !MustWait(limit, scope, p) then at == now
    else
      var s := limit.value.saturation;
      s.Wait? && p.queued < s.maxQueued && !TimedOutFirst(s.queueTimeout, p, now, deadline) &&
      NoticedAt(now, p.after, s.queueTimeout, deadline, p.late, at)
  }

  /** A permit asked for at `now` is refused: at once, because the policy rejects or the queue is full,
      or when a timer fires first. */
  predicate RefusedAt(limit: Option<Limit>, scope: Scope, p: PermitTurn, deadline: Option<nat>, now: nat, at: nat) {
    MustWait(limit, scope, p) &&
    var s := limit.value.saturation;
    if s.Reject? || p.queued >= s.maxQueued then at == now
    else
      TimedOutFirst(s.queueTimeout, p, now, deadline) &&
      NoticedAt(now, p.after, s.queueTimeout, deadline, p.late, at)
  }

  lemma {:induction false} PermitDecides(plan: Plan, scope: Scope, p: PermitTurn, now: nat, deadline: Option<nat>)
    ensures var (held, at) := AcquireFor(plan, scope, p, now, deadline);
      if held then HeldAt(plan.limit, scope, p, deadline, now, at)
      else RefusedAt(plan.limit, scope, p, deadline, now, at)
  {
    hide Select, NoticedAt, TimedOutFirst;
    if MustWait(plan.limit, scope, p) {
      var s := plan.limit.value.saturation;
      RefusedExactlyWhen(s, p, now, deadline);
      if s.Wait? {
        SelectDecides(now, p.after, s.queueTimeout, deadline, p.late);
      }
    }
  }

  predicate StartsAt<T, E>(env: Env<T, E>, n: nat, turn: nat, started: nat) {
    HeldAt(env.plan.limit, Attempts, env.oracle(n).permit, env.deadline, turn, started)
  }

  lemma {:induction false} AttemptRuns<T, E>(env: Env<T, E>, n: nat, turn: nat, started: nat)
    ensures var call := Attempted(env, n, turn, started);
      call.number == n && call.turn == turn && call.started == started && RunsItsCourse(env, call)
  {
    hide Select, ReadyFirst, OwnTimerFirst, NoticedAt;
    var t := env.oracle(n);
    SelectDecides(started, t.after, env.plan.attemptTimeout, env.deadline, t.late);
  }

  // --- One pause ---------------------------------------------------------------------------------

  /** What the plan's reading of the latest error asks a retry to wait for. */
  function Asked<T, E>(env: Env<T, E>, error: Option<E>): nat {
    if env.plan.retryAfter.None? || error.None? then 0
    else
      match env.plan.retryAfter.value(error.value)
      case None => 0
      case Some(hint) => hint
  }

  /** The full delay after a call: the jittered backoff of its number, or the hint if that is longer. */
  function FullDelay<T, E>(env: Env<T, E>, call: Call<T, E>, error: Option<E>): nat {
    var t := env.oracle(call.number);
    Max(Asked(env, error), Jittered(env.plan.jitter, RawDelay(env.plan.schedule, call.number), t.rng))
  }

  /** The hint alone reaches beyond the deadline. */
  predicate AskedTooMuch<T, E>(env: Env<T, E>, call: Call<T, E>, error: Option<E>) {
    env.deadline.Some? && Asked(env, error) > 0 && call.ended + Asked(env, error) > env.deadline.value
  }

  /** The delay that is slept: the full one, cut short at the deadline. */
  function Nap<T, E>(env: Env<T, E>, call: Call<T, E>, error: Option<E>): nat {
    var full := FullDelay(env, call, error);
    if env.deadline.None? || call.ended + full <= env.deadline.value then full
    else Max(env.deadline.value - call.ended, 0)
  }

  function WakesAt<T, E>(env: Env<T, E>, call: Call<T, E>, error: Option<E>): nat {
    var nap := Nap(env, call, error);
    call.ended + nap + (if nap == 0 then 0 else env.oracle(call.number).sleepLate)
  }

  predicate WakesTooLate<T, E>(env: Env<T, E>, call: Call<T, E>, error: Option<E>) {
    env.deadline.Some? && WakesAt(env, call, error) >= env.deadline.value
  }

  /** The classifier and the attempt cap leave room for a retry. */
  predicate Unsettled<T, E>(env: Env<T, E>, call: Call<T, E>) {
    call.number < env.plan.maxAttempts &&
    (call.ending.OutOfAttemptTime? || (call.ending.Completed? && env.plan.decide(call.ending.result) == Retry))
  }

  predicate TimeLeft<T, E>(env: Env<T, E>, call: Call<T, E>) {
    env.plan.maxElapsed.Some? ==> call.ended - env.start < env.plan.maxElapsed.value
  }

  function Price<T, E>(env: Env<T, E>): nat {
    if env.plan.budgeted then 1 else 0
  }

  lemma HintAsks<T, E>(env: Env<T, E>, error: Option<E>)
    ensures Asked(env, error) == HintOf(env.plan, error).GetOr(0)
  {}

  lemma {:induction false} DelayIsFull<T, E>(env: Env<T, E>, call: Call<T, E>, error: Option<E>)
    ensures DelayAfter(env, call, error) == FullDelay(env, call, error)
  {
    hide Jittered, RawDelay;
    HintAsks(env, error);
  }

  ghost predicate PauseIs<T, E>(env: Env<T, E>, call: Call<T, E>, error: Option<E>, lastDelay: Option<nat>,
      p: Pause<E>)
  {
    var n, full, nap := call.number, FullDelay(env, call, error), Nap(env, call, error);
    if !TimeLeft(env, call) then p.Ends? && p == Ends(p.cause, [GaveUp(n)], lastDelay, 0, call.ended)
    else if !MayRetry(env, call) then p.Ends? && p == Ends(p.cause, [OutOfBudget(n)], lastDelay, 0, call.ended)
    else if AskedTooMuch(env, call, error) then
      p.Ends? && p == Ends(p.cause, [GaveUp(n)], Some(full), Price(env), call.ended)
    else if WakesTooLate(env, call, error) then
      p.Ends? && p == Ends(p.cause, [RetryScheduled(n, nap)], Some(full), Price(env), WakesAt(env, call, error))
    else p == Resumes([RetryScheduled(n, nap)], full, Price(env), WakesAt(env, call, error))
  }

  lemma {:induction false} PauseDecides<T, E>(env: Env<T, E>, call: Call<T, E>, error: Option<E>,
      lastDelay: Option<nat>)
    requires Unsettled(env, call)
    ensures PauseIs(env, call, error, lastDelay, PauseAfter(env, call.number, error, lastDelay, call.ended))
  {
    hide Delay, HintOf, Asked, FullDelay;
    HintAsks(env, error);
    DelayIsFull(env, call, error);
  }

  // --- The run as a chronicle of its calls ----------------------------------------------------------

  /** The calls of a run whose turn `n` comes at `clock`, and when it ends: each call runs its course,
      and the next turn comes when the pause after it is over; the run ends at a refused permit, a
      call that may not be retried, a hint that asks too much, or a sleep that reaches the deadline. */
  predicate Chronicle<T(==), E(==)>(env: Env<T, E>, n: nat, error: Option<E>, clock: nat, calls: seq<Call<T, E>>,
      end: nat)
    decreases |calls|
  {
    if calls == [] then RefusedAt(env.plan.limit, Attempts, env.oracle(n).permit, env.deadline, clock, end)
    else
      var call, error' := calls[0], Update(error, calls[0]);
      call.number == n && call.turn == clock && StartsAt(env, n, clock, call.started) && RunsItsCourse(env, call) &&
      (if !MayRetry(env, call) || AskedTooMuch(env, call, error') then |calls| == 1 && end == call.ended
       else if WakesTooLate(env, call, error') then |calls| == 1 && end == WakesAt(env, call, error')
       else Chronicle(env, n + 1, error', WakesAt(env, call, error'), calls[1..], end))
  }

  /** What is announced of a call that may be retried before it is known whether it is. */
  function Marks<T, E>(env: Env<T, E>, call: Call<T, E>): seq<Event> {
    match call.ending
    case OutOfAttemptTime => [AttemptTimedOut(call.number)]
    case OutOfTotalTime => []
    case Completed(result) =>
      if Unsettled(env, call) && result.Err? then [AttemptFailed(call.number)] else []
  }

  /** What is announced of a call that may not be retried. */
  function Farewell<T, E>(env: Env<T, E>, call: Call<T, E>): Event {
    if Unsettled(env, call) && TimeLeft(env, call) then OutOfBudget(call.number)
    else if !Unsettled(env, call) && call.ending.Completed? && call.ending.result.Ok? then Succeeded(call.number)
    else GaveUp(call.number)
  }

  /** The trace of a run with these calls. */
  function Trace<T, E>(env: Env<T, E>, error: Option<E>, calls: seq<Call<T, E>>): seq<Event>
    decreases |calls|
  {
    if calls == [] then [Rejected]
    else
      var call, error' := calls[0], Update(error, calls[0]);
      Marks(env, call) +
      (if !MayRetry(env, call) then [Farewell(env, call)]
       else if AskedTooMuch(env, call, error') then [GaveUp(call.number)]
       else
         [RetryScheduled(call.number, Nap(env, call, error'))] +
         (if WakesTooLate(env, call, error') then [] else Trace(env, error', calls[1..])))
  }

  /** The tokens withdrawn for the calls that may be retried. */
  function Paid<T, E>(env: Env<T, E>, calls: seq<Call<T, E>>): nat {
    if calls == [] then 0 else (if MayRetry(env, calls[0]) then Price(env) else 0) + Paid(env, calls[1..])
  }

  /** The full delay after the last call that may be retried. */
  function LastDelay<T, E>(env: Env<T, E>, error: Option<E>, before: Option<nat>, calls: seq<Call<T, E>>): Option<nat>
    decreases |calls|
  {
    if calls == [] then before
    else
      var call, error' := calls[0], Update(error, calls[0]);
      LastDelay(env, error', if MayRetry(env, call) then Some(FullDelay(env, call, error')) else before, calls[1..])
  }

  ghost predicate Told<T, E>(env: Env<T, E>, n: nat, error: Option<E>, before: Option<nat>, clock: nat,
      r: Report<T, E>)
  {
    Chronicle(env, n, error, clock, r.calls, r.clock) &&
    r.events == Trace(env, error, r.calls) && r.withdrawals == Paid(env, r.calls) &&
    (r.outcome.Failure? ==> r.outcome.context.lastDelay == LastDelay(env, error, before, r.calls))
  }

  lemma SettleDecides<T, E>(env: Env<T, E>, error: Option<E>, call: Call<T, E>)
    ensures match Settle(env.plan, call.number, call.ending, error)
      case Over(_, events) => !Unsettled(env, call) && events == Marks(env, call) + [Farewell(env, call)]
      case GoOn(events, error') => Unsettled(env, call) && events == Marks(env, call) && error' == Update(error, call)
  {}

  ghost predicate CallTold<T, E>(env: Env<T, E>, error: Option<E>, before: Option<nat>, call: Call<T, E>,
      t: Turned<T, E>)
  {
    var error', full := Update(error, call), FullDelay(env, call, Update(error, call));
    match t
    case Final(r) =>
      r.calls == [call] && r.events == Trace(env, error, [call]) && r.withdrawals == Paid(env, [call]) &&
      (r.outcome.Failure? ==> r.outcome.context.lastDelay == LastDelay(env, error, before, [call])) &&
      (if !MayRetry(env, call) || AskedTooMuch(env, call, error') then r.clock == call.ended
       else WakesTooLate(env, call, error') && r.clock == WakesAt(env, call, error'))
    case Next(events, call', spent, delay, error'', clock') =>
      call' == call && error'' == error' && delay == full && clock' == WakesAt(env, call, error') &&
      MayRetry(env, call) && !AskedTooMuch(env, call, error') && !WakesTooLate(env, call, error') &&
      events == Marks(env, call) + [RetryScheduled(call.number, Nap(env, call, error'))] && spent == Price(env)
  }

  lemma {:induction false} OneCall<T, E>(env: Env<T, E>, error: Option<E>, before: Option<nat>, call: Call<T, E>)
    ensures var error' := Update(error, call);
      Trace(env, error, [call]) == Marks(env, call) +
        (if !MayRetry(env, call) then [Farewell(env, call)]
         else if AskedTooMuch(env, call, error') then [GaveUp(call.number)]
         else
           [RetryScheduled(call.number, Nap(env, call, error'))] +
           (if WakesTooLate(env, call, error') then [] else [Rejected])) &&
      Paid(env, [call]) == (if MayRetry(env, call) then Price(env) else 0) &&
      LastDelay(env, error, before, [call]) ==
        (if MayRetry(env, call) then Some(FullDelay(env, call, error')) else before)
  {
    hide AskedTooMuch, WakesTooLate, WakesAt, Nap, FullDelay, Marks, Farewell, Update, MayRetry;
    assert [call][0] == call && [call][1..] == [];
  }

  lemma {:induction false} PausedCall<T, E>(env: Env<T, E>, error: Option<E>, before: Option<nat>, call: Call<T, E>,
      p: Pause<E>)
    requires Unsettled(env, call) && PauseIs(env, call, Update(error, call), before, p)
    ensures CallTold(env, error, before, call,
      AfterPause(env, call.number, Marks(env, call), call, Update(error, call), p))
  {
    hide AskedTooMuch, WakesTooLate, WakesAt, Nap, FullDelay, Marks, Update, Trace, Paid, LastDelay;
    OneCall(env, error, before, call);
    var nap := [RetryScheduled(call.number, Nap(env, call, Update(error, call)))];
    assert nap + [] == nap;
  }

  lemma {:induction false} CallDecides<T, E>(env: Env<T, E>, error: Option<E>, before: Option<nat>, call: Call<T, E>)
    ensures CallTold(env, error, before, call, AfterCall(env, call.number, before, error, call))
  {
    hide Settle, PauseAfter, AfterPause, PauseIs, AskedTooMuch, WakesTooLate, WakesAt, Nap, FullDelay, Marks, Farewell,
      Update, Trace, Paid, LastDelay;
    SettleDecides(env, error, call);
    var s := Settle(env.plan, call.number, call.ending, error);
    if s.GoOn? {
      hide CallTold;
      PauseDecides(env, call, s.error, before);
      PausedCall(env, error, before, call, PauseAfter(env, call.number, s.error, before, call.ended));
    } else {
      OneCall(env, error, before, call);
    }
  }

  lemma {:induction false} TurnTold<T, E>(env: Env<T, E>, n: nat, before: Option<nat>, error: Option<E>, clock: nat)
    ensures match TurnOf(env, n, before, error, clock)
      case Final(r) => Told(env, n, error, before, clock, r)
      case Next(_, call, _, _, _, _) =>
        CallTold(env, error, before, call, TurnOf(env, n, before, error, clock)) &&
        call.number == n && call.turn == clock && StartsAt(env, n, clock, call.started) && RunsItsCourse(env, call)
  {
    hide AfterCall, AcquireFor, Attempted, RunsItsCourse, HeldAt, RefusedAt, MayRetry, Marks, Farewell,
      AskedTooMuch, WakesTooLate, WakesAt, Nap, FullDelay;
    PermitDecides(env.plan, Attempts, env.oracle(n).permit, clock, env.deadline);
    var (held, started) := AcquireFor(env.plan, Attempts, env.oracle(n).permit, clock, env.deadline);
    if held {
      var call := Attempted(env, n, clock, started);
      AttemptRuns(env, n, clock, started);
      CallDecides(env, error, before, call);
    }
  }

  lemma {:induction false} DriveTold<T, E>(env: Env<T, E>, n: nat, before: Option<nat>, error: Option<E>, clock: nat)
    ensures Told(env, n, error, before, clock, DriveFrom(env, n, before, error, clock))
    decreases env.plan.maxAttempts - n
  {
    hide TurnOf, RunsItsCourse, StartsAt, RefusedAt, MayRetry, Marks, Farewell, AskedTooMuch, WakesTooLate, WakesAt,
      Nap, FullDelay, Update;
    TurnTold(env, n, before, error, clock);
    match TurnOf(env, n, before, error, clock)
    case Final(_) =>
    case Next(events, call, spent, delay, error', clock') =>
      DriveTold(env, n + 1, Some(delay), error', clock');
      var rest := DriveFrom(env, n + 1, Some(delay), error', clock');
      assert ([call] + rest.calls)[1..] == rest.calls;
      var nap := [RetryScheduled(call.number, Nap(env, call, error'))];
      assert Marks(env, call) + (nap + rest.events) == events + rest.events;
  }

  /** A run is what the world makes of it: its calls, the instants they start and end, the instant the
      run ends, its trace, the tokens it withdraws and the delay its error reports are all determined
      by the operation's results, the permits, the tokens, the random words and the timers. */
  lemma {:induction false} RunTold<T, E>(env: Env<T, E>, clock: nat)
    ensures Told(env, 1, None, None, clock, DriveSpec(env, clock))
  {
    DriveTold(env, 1, None, None, clock);
  }

  // --- What that says of each call -------------------------------------------------------------------

  predicate Erred<T, E>(call: Call<T, E>) {
    call.ending.Completed? && call.ending.result.Err?
  }

  /** The latest error is that of the last call whose operation returned one. */
  lemma {:induction false} LatestErrorIs<T, E>(error: Option<E>, calls: seq<Call<T, E>>)
    ensures var latest := LatestError(error, calls);
      (latest == error && forall i :: 0 <= i < |calls| ==> !Erred(calls[i])) ||
      exists i :: 0 <= i < |calls| && Erred(calls[i]) && latest == Some(calls[i].ending.result.error) &&
        forall j :: i < j < |calls| ==> !Erred(calls[j])
    decreases |calls|
  {
    if calls != [] {
      LatestErrorIs(Update(error, calls[0]), calls[1..]);
      assert forall i :: 0 < i < |calls| ==> calls[i] == calls[1..][i - 1];
      var latest := LatestError(error, calls);
      if !(latest == Update(error, calls[0]) && forall i :: 0 <= i < |calls[1..]| ==> !Erred(calls[1..][i])) {
        var k :| 0 <= k < |calls[1..]| && Erred(calls[1..][k]) &&
          latest == Some(calls[1..][k].ending.result.error) &&
          forall j :: k < j < |calls[1..]| ==> !Erred(calls[1..][j]);
        assert Erred(calls[k + 1]);
      }
    }
  }

  /** What the chronicle says of call `i`. */
  ghost predicate CallInPlace<T, E>(env: Env<T, E>, n: nat, error: Option<E>, clock: nat, calls: seq<Call<T, E>>,
      i: nat)
    requires i < |calls|
  {
    var call := calls[i];
    call.number == n + i && StartsAt(env, n + i, call.turn, call.started) && RunsItsCourse(env, call) &&
    call.turn == (if i == 0 then clock else WakesAt(env, calls[i - 1], LatestError(error, calls[..i])))
  }

  lemma {:induction false} ChronicleAt<T, E>(env: Env<T, E>, n: nat, error: Option<E>, clock: nat,
      calls: seq<Call<T, E>>, end: nat, i: nat)
    requires Chronicle(env, n, error, clock, calls, end) && i < |calls|
    ensures CallInPlace(env, n, error, clock, calls, i)
    decreases i
  {
    hide RunsItsCourse, StartsAt, RefusedAt, MayRetry, AskedTooMuch, WakesTooLate, WakesAt, Update;
    if i > 0 {
      var error' := Update(error, calls[0]);
      ChronicleAt(env, n + 1, error', WakesAt(env, calls[0], error'), calls[1..], end, i - 1);
      assert calls[1..][i - 1] == calls[i];
      assert calls[..i][0] == calls[0] && calls[..i][1..] == calls[1..][..i - 1];
      assert LatestError(error, calls[..i]) == LatestError(error', calls[1..][..i - 1]);
      if i == 1 {
        assert calls[1..][..0] == [];
      }
    }
  }

  /** Every call ends with what its own operation returned exactly when that is ready by the time either
      timer has fired and been noticed, and otherwise with the timer that fired first; it starts when
      its turn comes, or when the permit it waited for does; and its turn comes at the start, or when
      the full delay after the call before, and that sleep's lateness, have passed. */
  lemma {:induction false} CallsRunTheirCourse<T, E>(env: Env<T, E>, clock: nat, i: nat)
    requires i < |DriveSpec(env, clock).calls|
    ensures CallInPlace(env, 1, None, clock, DriveSpec(env, clock).calls, i)
  {
    hide DriveSpec, CallInPlace, Chronicle;
    RunTold(env, clock);
    var r := DriveSpec(env, clock);
    ChronicleAt(env, 1, None, clock, r.calls, r.clock, i);
  }

  /** With exact timers an attempt ends the moment its operation is ready, its own time is up or the
      deadline comes, whichever is first; at a tie the operation wins, then the attempt's own timer. */
  lemma {:induction false} ExactCourse<T, E>(env: Env<T, E>, clock: nat, i: nat)
    requires i < |DriveSpec(env, clock).calls| && env.oracle(i + 1).late == EXACT
    ensures var call, t, own := DriveSpec(env, clock).calls[i], env.oracle(i + 1), env.plan.attemptTimeout;
      var ready := call.started + t.after;
      var left := if env.deadline.Some? then Max(env.deadline.value, call.started) else ready;
      (call.ending.Completed? <==> t.after == 0 || ((own.Some? ==> t.after <= own.value) && ready <= left)) &&
      (call.ending.Completed? ==> call.ending.result == t.result && call.ended == ready) &&
      (call.ending.OutOfAttemptTime? ==> own.Some? && call.ended == call.started + own.value < ready) &&
      (call.ending.OutOfTotalTime? ==> env.deadline.Some? && call.ended == left < ready) &&
      (call.ending.OutOfTotalTime? && own.Some? ==> left < call.started + own.value)
  {
    hide DriveSpec, StartsAt, WakesAt, LatestError;
    CallsRunTheirCourse(env, clock, i);
  }

  lemma {:induction false} LastCallExplains<T, E>(env: Env<T, E>, error: Option<E>, calls: seq<Call<T, E>>,
      o: Outcome<T, E>)
    requires Explained(env, error, calls, o)
    ensures o.Success? ==> calls != [] && calls[|calls| - 1].ending == Completed(Ok(o.value))
    ensures o.Failure? && o.cause.Operation? ==> LatestError(error, calls) == Some(o.cause.source)
    decreases |calls|
  {
    hide MayRetry;
    if calls != [] && MayRetry(env, calls[0]) && calls[1..] != [] {
      LastCallExplains(env, Update(error, calls[0]), calls[1..], o);
    }
  }

  /** A run that succeeds returns what the operation returned to its last attempt, and a run that fails
      with an operation's error returns the latest one. */
  lemma {:induction false} ResultIsTheOperations<T, E>(env: Env<T, E>, clock: nat)
    ensures var r := DriveSpec(env, clock);
      (r.outcome.Success? ==> r.calls != [] && env.oracle(|r.calls|).result == Ok(r.outcome.value)) &&
      (r.outcome.Failure? && r.outcome.cause.Operation? ==>
        exists i :: 0 <= i < |r.calls| && env.oracle(i + 1).result == Err(r.outcome.cause.source) &&
          Erred(r.calls[i]) && forall j :: i < j < |r.calls| ==> !Erred(r.calls[j]))
  {
    hide DriveSpec, Explained, WakesAt, StartsAt, ReadyFirst, OwnTimerFirst, NoticedAt;
    var r := DriveSpec(env, clock);
    RunExplained(env, clock);
    LastCallExplains(env, None, r.calls, r.outcome);
    if r.outcome.Success? {
      CallsRunTheirCourse(env, clock, |r.calls| - 1);
    } else if r.outcome.cause.Operation? {
      LatestErrorIs(None, r.calls);
      var i :| 0 <= i < |r.calls| && Erred(r.calls[i]) && Some(r.outcome.cause.source) ==
        Some(r.calls[i].ending.result.error) && forall j :: i < j < |r.calls| ==> !Erred(r.calls[j]);
      CallsRunTheirCourse(env, clock, i);
    }
  }
}
