/** What every course of the pipeline keeps, and what that means for a breaker shared by many calls
    (src/engine.rs:47-121). */
module PipelineTheorems {
  import opened Common
  import opened Engine
  import opened EngineCalls
  import opened EngineSilence
  import opened EngineTheorems
  import opened Pipeline
  import B = Breaker
  import Episodes = BreakerEpisodes
  import H = BreakerHistory

  // --- One vote ------------------------------------------------------------------------------

  predicate TimedOut<T, E>(o: Outcome<T, E>) {
    o.Failure? && (o.cause.AttemptTimeout? || o.cause.TotalTimeout?)
  }

  /** An outcome counts against the breaker when it is a timeout or an operation error that
      `record_when` does not excuse. */
  predicate CountsAsFailure<T, E>(recordWhen: Option<E -> bool>, o: Outcome<T, E>) {
    TimedOut(o) || (o.Failure? && o.cause.Operation? && (recordWhen.None? || recordWhen.value(o.cause.source)))
  }

  ghost predicate VotesOnce<T(!new), E(!new)>(plan: Plan<T, E>, guarded: bool, recordWhen: Option<E -> bool>,
      j: Journey<T, E>)
  {
    (j.voted.Some? <==> guarded && j.report.calls != [] && Votes(j.report.outcome)) &&
    (guarded && !CanAbandon(plan) ==> (j.voted.Some? <==> j.report.calls != [])) &&
    (j.voted.Some? ==>
      j.gated.Some? && j.voted.value == B.Record(CountsAsFailure(recordWhen, j.report.outcome), j.report.clock))
  }

  lemma {:induction false} CompletedVotes<T(!new), E(!new)>(env: Env<T, E>, at: nat)
    requires at >= env.start
    ensures !CanAbandon(env.plan) ==> Votes(DriveSpec(env, at).outcome)
  {
    hide DriveFrom, Votes, CanAbandon;
    if !Votes(DriveSpec(env, at).outcome) {
      UnvotedNeeds(env, 1, None, None, at);
    }
  }

  lemma {:induction false} AdmittedVotesOnce<T(!new), E(!new)>(plan: Plan<T, E>, c: Option<B.Config>,
      recordWhen: Option<E -> bool>, history: seq<B.Event>, scene: Scene<T, E>, view: BreakerView, at: nat)
    requires (c.Some? ==> c.value.Sane()) && at >= scene.start
    ensures VotesOnce(plan, c.Some?, recordWhen, Admitted(plan, c, recordWhen, history, scene, view, at))
  {
    hide DriveSpec, B.Transition, B.Run, CanAbandon;
    var env := EnvOf(plan, scene, view);
    RunAccounted(env, at);
    CompletedVotes(env, at);
  }

  /** A call votes at most once, and exactly when it was admitted, ran its operation and ended in
      an outcome the breaker counts; under a plan that cannot abandon, exactly when it ran its
      operation at all. */
  lemma {:induction false} OneVotePerCall<T(!new), E(!new)>(plan: Plan<T, E>, c: Option<B.Config>,
      recordWhen: Option<E -> bool>,
      history: seq<B.Event>, scene: Scene<T, E>)
    requires c.Some? ==> c.value.Sane()
    ensures VotesOnce(plan, c.Some?, recordWhen, Course(plan, c, recordWhen, history, scene))
  {
    hide Admitted, Pass, AcquireFor;
    var (held, at) := AcquireFor(plan, Operations, scene.permit, scene.start, TotalDeadline(plan, scene.start));
    AcquireWaits(plan, Operations, scene.permit, scene.start, TotalDeadline(plan, scene.start));
    var pass := Pass(c, history + scene.before, at);
    if held && pass.Some? {
      AdmittedVotesOnce(plan, c, recordWhen, history + scene.before, scene, pass.value, at);
    }
  }

  // --- Permits, gate and announcements -----------------------------------------------------------

  /** A call refused before its gate leaves nothing but one `Rejected`, and an error that says so. */
  ghost predicate TurnedAway<T, E>(start: nat, j: Journey<T, E>) {
    var end := j.report.clock;
    j == Journey(
      Report(Failure(ConcurrencyRejected, Context(0, end - start, None, Disabled)), [Rejected], [], 0, end),
      None, None, 0)
  }

  lemma {:induction false} DriveRefusesLater<T, E>(env: Env<T, E>, at: nat)
    ensures var o := DriveSpec(env, at).outcome;
      o.Failure? && o.cause == ConcurrencyRejected ==> o.context.attempts >= 1
  {
    hide DriveSpec;
    RunAccounted(env, at);
  }

  /** A call is refused before its gate exactly when its plan limits operations, none is free, and the
      policy rejects, the queue is full or a timer fires first; otherwise its gate comes at once, or
      when the permit it waited for does. */
  lemma {:induction false} TurnedAwayExactlyWhen<T, E>(plan: Plan<T, E>, c: Option<B.Config>,
      recordWhen: Option<E -> bool>, history: seq<B.Event>, scene: Scene<T, E>)
    requires c.Some? ==> c.value.Sane()
    ensures var j, limit, p := Course(plan, c, recordWhen, history, scene), plan.limit, scene.permit;
      var o := j.report.outcome;
      var deadline := if plan.totalTimeout.None? then None else Some(scene.start + plan.totalTimeout.value);
      if limit.Some? && limit.value.scope == Operations && !p.free &&
        (limit.value.saturation.Reject? || p.queued >= limit.value.saturation.maxQueued ||
         TimedOutFirst(limit.value.saturation.queueTimeout, p, scene.start, deadline))
      then TurnedAway(scene.start, j) && RefusedAt(limit, Operations, p, deadline, scene.start, j.report.clock)
      else
        !(o.Failure? && o.cause == ConcurrencyRejected && o.context.attempts == 0) &&
        (c.None? ==> j.gated.None?) &&
        (c.Some? ==>
          j.gated.Some? && j.gated.value.Gate? &&
          HeldAt(limit, Operations, p, deadline, scene.start, j.gated.value.now))
  {
    hide DriveSpec, Pass, AcquireFor, NoticedAt, TimedOutFirst, B.Run, B.Transition;
    var deadline := TotalDeadline(plan, scene.start);
    PermitDecides(plan, Operations, scene.permit, scene.start, deadline);
    var (held, at) := AcquireFor(plan, Operations, scene.permit, scene.start, deadline);
    var pass := Pass(c, history + scene.before, at);
    if held && pass.Some? {
      DriveRefusesLater(EnvOf(plan, scene, pass.value), at);
    }
  }

  /** How a half-open admission and the vote's transition are announced around the attempts' own trace. */
  ghost predicate Announces<T, E>(c: Option<B.Config>, history: seq<B.Event>, probe: bool, trace: seq<Event>,
      j: Journey<T, E>)
    requires c.Some? ==> c.value.Sane()
  {
    var opening := if probe then [CircuitStateChanged(BreakerView.HalfOpen)] else [];
    var told :=
      if c.None? || j.voted.None? || j.voted.value.Gate? then None
      else B.Transition(c.value, B.Run(c.value, history), j.voted.value.failure, j.voted.value.now);
    j.report.events == opening + trace +
      (if told == Some(B.Open) then [CircuitStateChanged(BreakerView.Open)]
       else if told == Some(B.Phase.Closed) then [CircuitStateChanged(BreakerView.Closed)] else [])
  }

  /** What an admitted call that holds its permit at `at` leaves behind, read off its calls: its
      attempts begin at once, and see the phase in which it was admitted. */
  ghost predicate RunsAdmitted<T, E>(plan: Plan<T, E>, c: Option<B.Config>, history: seq<B.Event>, scene: Scene<T, E>,
      view: BreakerView, at: nat, j: Journey<T, E>)
    requires c.Some? ==> c.value.Sane()
  {
    var deadline := if plan.totalTimeout.None? then None else Some(scene.start + plan.totalTimeout.value);
    var env, r := Env(plan, scene.oracle, scene.start, deadline, view), j.report;
    Chronicle(env, 1, None, at, r.calls, r.clock) && Explained(env, None, r.calls, r.outcome) &&
    r.withdrawals == Paid(env, r.calls) && j.deposits == (if plan.budgeted then 1 else 0) &&
    j.gated == (if c.None? then None else Some(B.Gate(at))) &&
    Announces(c, history + [B.Gate(at)] + scene.during, view == BreakerView.HalfOpen, Trace(env, None, r.calls), j) &&
    (r.outcome.Failure? ==>
      var called := |r.calls| + if r.outcome.cause.ConcurrencyRejected? then 1 else 0;
      r.outcome.context == Context(called, r.clock - scene.start, LastDelay(env, None, None, r.calls), view))
  }

  lemma {:induction false} AdmittedTold<T, E>(plan: Plan<T, E>, c: Option<B.Config>, recordWhen: Option<E -> bool>,
      history: seq<B.Event>, scene: Scene<T, E>, view: BreakerView, at: nat)
    requires c.Some? ==> c.value.Sane()
    ensures RunsAdmitted(plan, c, history, scene, view, at,
      Admitted(plan, c, recordWhen, history, scene, view, at))
  {
    hide DriveSpec, Chronicle, Explained, Paid, Trace, LastDelay, B.Run, B.Step, B.Tallied, B.ShouldTrip;
    var env := EnvOf(plan, scene, view);
    RunTold(env, at);
    RunExplained(env, at);
    RunAccounted(env, at);
  }

  /** A call that gets its permit is rejected by the breaker, without an event, exactly when the gate
      says so; otherwise its attempts, its announcements, its error's context and its dealings with
      the retry budget are those of its calls. */
  lemma {:induction false} CourseTold<T, E>(plan: Plan<T, E>, c: Option<B.Config>, recordWhen: Option<E -> bool>,
      history: seq<B.Event>, scene: Scene<T, E>) returns (at: nat)
    requires c.Some? ==> c.value.Sane()
    ensures var j, before := Course(plan, c, recordWhen, history, scene), history + scene.before;
      var deadline := if plan.totalTimeout.None? then None else Some(scene.start + plan.totalTimeout.value);
      TurnedAway(scene.start, j) ||
      (HeldAt(plan.limit, Operations, scene.permit, deadline, scene.start, at) &&
       (if c.None? then RunsAdmitted(plan, c, before, scene, Disabled, at, j)
        else if B.GateAnswer(c.value, B.Run(c.value, before), at) == B.Admit(B.HalfOpen) then
          RunsAdmitted(plan, c, before, scene, BreakerView.HalfOpen, at, j)
        else if B.GateAnswer(c.value, B.Run(c.value, before), at) == B.Admit(B.Phase.Closed) then
          RunsAdmitted(plan, c, before, scene, BreakerView.Closed, at, j)
        else
          var error := Failure(CircuitOpen, Context(0, at - scene.start, None, BreakerView.Open));
          j == Journey(Report(error, [], [], 0, at), Some(B.Gate(at)), None, 0)))
  {
    hide Admitted, RunsAdmitted, AcquireFor, HeldAt, RefusedAt, B.Run;
    var deadline := TotalDeadline(plan, scene.start);
    PermitDecides(plan, Operations, scene.permit, scene.start, deadline);
    var (held, now) := AcquireFor(plan, Operations, scene.permit, scene.start, deadline);
    at := now;
    var pass := Pass(c, history + scene.before, at);
    if held && pass.Some? {
      AdmittedTold(plan, c, recordWhen, history + scene.before, scene, pass.value, at);
    }
  }

  // --- Deadlines ------------------------------------------------------------------------------

  ghost predicate ExactScene<T, E>(scene: Scene<T, E>) {
    scene.permit.late == EXACT &&
    forall k :: scene.oracle(k).late == EXACT && scene.oracle(k).permit.late == EXACT && scene.oracle(k).sleepLate == 0
  }

  /** What an error reports as elapsed is the time from the start to the end of the run. */
  ghost predicate ElapsedIs<T, E>(start: nat, r: Report<T, E>) {
    r.outcome.Failure? ==> r.outcome.context.elapsed == r.clock - start
  }

  lemma {:induction false} PermitInTime(plan: Plan, scope: Scope, turn: PermitTurn, now: nat, deadline: Option<nat>)
    requires turn.late == EXACT && By(deadline, now)
    ensures By(deadline, AcquireFor(plan, scope, turn, now, deadline).1)
  {
    hide Select;
    if plan.limit.Some? && plan.limit.value.saturation.Wait? {
      SelectInTime(now, turn.after, plan.limit.value.saturation.queueTimeout, deadline);
    }
  }

  lemma {:induction false} AdmittedInTime<T, E>(plan: Plan<T, E>, c: Option<B.Config>, recordWhen: Option<E -> bool>,
      history: seq<B.Event>, scene: Scene<T, E>, view: BreakerView, at: nat)
    requires c.Some? ==> c.value.Sane()
    requires ExactScene(scene) && By(TotalDeadline(plan, scene.start), at)
    ensures var r := Admitted(plan, c, recordWhen, history, scene, view, at).report;
      By(TotalDeadline(plan, scene.start), r.clock) && ElapsedIs(scene.start, r)
  {
    hide DriveFrom, B.Transition, B.Run;
    RunAccounted(EnvOf(plan, scene, view), at);
    DriveInTime(EnvOf(plan, scene, view), 1, None, None, at);
  }

  /** With exact timers every call ends within the total timeout of its start, the waits for
      permits included, and an error's context says so. */
  lemma {:induction false} WithinTotalTimeout<T, E>(plan: Plan<T, E>, c: Option<B.Config>,
      recordWhen: Option<E -> bool>,
      history: seq<B.Event>, scene: Scene<T, E>)
    requires (c.Some? ==> c.value.Sane()) && ExactScene(scene) && plan.totalTimeout.Some?
    ensures var r := Course(plan, c, recordWhen, history, scene).report;
      r.clock - scene.start <= plan.totalTimeout.value &&
      (r.outcome.Failure? ==> r.outcome.context.elapsed <= plan.totalTimeout.value)
  {
    hide Admitted, Pass, AcquireFor;
    var deadline := TotalDeadline(plan, scene.start);
    PermitInTime(plan, Operations, scene.permit, scene.start, deadline);
    var (held, at) := AcquireFor(plan, Operations, scene.permit, scene.start, deadline);
    var pass := Pass(c, history + scene.before, at);
    if held && pass.Some? {
      AdmittedInTime(plan, c, recordWhen, history + scene.before, scene, pass.value, at);
    }
  }

  // --- Completed calls never wedge a half-open breaker ------------------------------------------

  /** Where an admitted call starts its attempts. */
  datatype Visit<!T, !E> = Visit(env: Env<T, E>, at: nat)

  /** How an admitted call that runs to completion leaves the breaker. */
  function Finish<T, E>(recordWhen: Option<E -> bool>, call: nat, v: Visit<T, E>): Episodes.Action {
    var r := DriveSpec(v.env, v.at);
    var vote := VoteOf(recordWhen, r.outcome);
    if vote.Some? then Episodes.Vote(call, vote.value, r.clock) else Episodes.Abandon(call)
  }

  /** Every call that leaves does so by running to completion. */
  ghost predicate Completed<T, E>(recordWhen: Option<E -> bool>, visits: nat -> Visit<T, E>,
      acts: seq<Episodes.Action>)
  {
    forall i :: 0 <= i < |acts| && !acts[i].Arrive? ==>
      acts[i] == Finish(recordWhen, acts[i].call, visits(acts[i].call))
  }

  lemma {:induction false} AbandonsWhenUnvoted<T, E>(recordWhen: Option<E -> bool>, call: nat, v: Visit<T, E>)
    ensures Finish(recordWhen, call, v) == Episodes.Abandon(call) <==> !Votes(DriveSpec(v.env, v.at).outcome)
  {
    hide DriveSpec;
  }

  /** Under plans that cannot abandon, in every interleaving of calls that run to completion, a
      half-open rejection means at least `half_open_max_calls` probes of the episode are
      outstanding, and with none outstanding the next call is admitted. */
  lemma {:induction false} CompletedCallsNeverWedge<T(!new), E(!new)>(c: B.Config, recordWhen: Option<E -> bool>,
      visits: nat -> Visit<T, E>, acts: seq<Episodes.Action>, now: nat)
    requires c.Sane() && Completed(recordWhen, visits, acts)
    requires forall k :: visits(k).at >= visits(k).env.start && !CanAbandon(visits(k).env.plan)
    requires Episodes.After(c, acts).state.phase == B.HalfOpen
    ensures var w := Episodes.After(c, acts);
      w.state.inFlight <= |Episodes.Probes(w)| &&
      (B.GateAnswer(c, w.state, now) == B.Reject ==> |Episodes.Probes(w)| >= c.maxCalls) &&
      (Episodes.Probes(w) == {} ==> B.GateAnswer(c, w.state, now) == B.Admit(B.HalfOpen))
  {
    hide Finish, CanAbandon;
    forall i | 0 <= i < |acts| ensures !acts[i].Abandon? {
      if !acts[i].Arrive? {
        var v := visits(acts[i].call);
        AbandonsWhenUnvoted(recordWhen, acts[i].call, v);
        CompletedVotes(v.env, v.at);
      }
    }
    Episodes.HalfOpenNeverWedges(c, acts, now);
  }

  /** Exactly which plans let an admitted call that runs to completion keep its half-open slot for
      good: there are surroundings in which one ends without a vote if and only if the plan has an
      attempts-scope limit, or a retry budget together with an attainable retry. */
  lemma {:induction false} SomeCallAbandonsExactlyWhen<T(!new), E(!new)>(plan: Plan<T, E>,
      recordWhen: Option<E -> bool>,
      call: nat, any: Result<T, E>)
    ensures (exists env, at: nat ::
        Surrounds(plan, env, at) && Finish(recordWhen, call, Visit(env, at)) == Episodes.Abandon(call))
      <==> CanAbandon(plan)
  {
    hide DriveSpec, Votes, CanAbandon, Finish;
    forall env: Env<T, E>, at: nat
      ensures Finish(recordWhen, call, Visit(env, at)) == Episodes.Abandon(call) <==> !Votes(DriveSpec(env, at).outcome)
    {
      AbandonsWhenUnvoted(recordWhen, call, Visit(env, at));
    }
    AbandonsExactlyWhen(plan, any);
  }

  /** The limit at work: an admitted call invokes no operation exactly when its first permit is
      refused, and it then ends without a vote. */
  lemma {:induction false} LimitedCallCanAbandon<T, E>(recordWhen: Option<E -> bool>, call: nat, env: Env<T, E>,
      at: nat)
    ensures DriveSpec(env, at).calls == [] <==>
      env.plan.limit.Some? && env.plan.limit.value.scope == Attempts &&
      !Acquire(env.plan.limit.value.saturation, env.oracle(1).permit, at, env.deadline).0
    ensures DriveSpec(env, at).calls == [] ==> Finish(recordWhen, call, Visit(env, at)) == Episodes.Abandon(call)
  {
    hide DriveSpec, Acquire, Finish;
    NoCallExactlyWhen(env, at);
    AbandonsWhenUnvoted(recordWhen, call, Visit(env, at));
  }

  /** The budget at work: a first attempt that would be retried, without a token for it, ends the
      call without a vote after one invocation of the operation. */
  lemma {:induction false} BudgetedCallCanAbandon<T, E>(recordWhen: Option<E -> bool>, call: nat, env: Env<T, E>,
      at: nat)
    requires AcquireFor(env.plan, Attempts, env.oracle(1).permit, at, env.deadline).0
    requires env.plan.budgeted && !env.oracle(1).granted && env.plan.maxAttempts >= 2
    requires var started := AcquireFor(env.plan, Attempts, env.oracle(1).permit, at, env.deadline).1;
      var first := Attempted(env, 1, at, started);
      (first.ending.OutOfAttemptTime? ||
        (first.ending.Completed? && env.plan.decide(first.ending.result) == Retry)) &&
      (env.plan.maxElapsed.Some? ==> first.ended - env.start < env.plan.maxElapsed.value)
    ensures Finish(recordWhen, call, Visit(env, at)) == Episodes.Abandon(call)
    ensures |DriveSpec(env, at).calls| == 1
  {
    hide DriveSpec, Acquire, AcquireFor, Finish;
    DeniedRetryAbandons(env, at);
    AbandonsWhenUnvoted(recordWhen, call, Visit(env, at));
  }

  // --- Calls that announce no end ------------------------------------------------------------------

  lemma {:induction false} AnnouncementsEndNothing(events: seq<Event>, p: Option<B.Phase>)
    ensures Terminals([CircuitStateChanged(BreakerView.HalfOpen)] + events) == Terminals(events)
    ensures Terminals([] + events) == Terminals(events)
    ensures Terminals(events + Announce(p)) == Terminals(events)
  {
    assert [] + events == events;
    var first := [CircuitStateChanged(BreakerView.HalfOpen)];
    assert first[1..] == [] && Terminals(first) == 0;
    TerminalsConcat(first, events);
    assert Announce(p) != [] ==> Announce(p)[1..] == [];
    TerminalsConcat(events, Announce(p));
  }

  lemma {:induction false} AdmittedAnnounces<T, E>(plan: Plan<T, E>, c: Option<B.Config>, recordWhen: Option<E -> bool>,
      history: seq<B.Event>, scene: Scene<T, E>, view: BreakerView, at: nat)
    requires c.Some? ==> c.value.Sane()
    ensures Terminals(Admitted(plan, c, recordWhen, history, scene, view, at).report.events) ==
      Terminals(DriveSpec(EnvOf(plan, scene, view), at).events)
  {
    hide DriveSpec, B.Run, B.Transition, Announce;
    var r := DriveSpec(EnvOf(plan, scene, view), at);
    AnnouncementsEndNothing(r.events, None);
    var vote := VoteOf(recordWhen, r.outcome);
    if c.Some? && vote.Some? {
      var met := B.Run(c.value, history + [B.Gate(at)] + scene.during);
      var transition := B.Transition(c.value, met, vote.value, r.clock);
      AnnouncementsEndNothing(r.events, transition);
      AnnouncementsEndNothing([CircuitStateChanged(BreakerView.HalfOpen)] + r.events, transition);
      AnnouncementsEndNothing([] + r.events, transition);
    }
  }

  /** A call announces its end exactly once, and not at all exactly when the breaker rejects it or
      its last attempt may be retried but the sleep before that reaches the total deadline. */
  lemma {:induction false} CallSilentExactlyWhen<T, E>(plan: Plan<T, E>, c: Option<B.Config>,
      recordWhen: Option<E -> bool>, history: seq<B.Event>, scene: Scene<T, E>)
    requires c.Some? ==> c.value.Sane()
    ensures var (held, at) := AcquireFor(plan, Operations, scene.permit, scene.start, TotalDeadline(plan, scene.start));
      var pass := Pass(c, history + scene.before, at);
      Terminals(Course(plan, c, recordWhen, history, scene).report.events) ==
        if held && (pass.None? ||
          EndsAsleep(EnvOf(plan, scene, pass.value), None, DriveSpec(EnvOf(plan, scene, pass.value), at).calls))
        then 0 else 1
  {
    hide Admitted, Pass, AcquireFor, DriveSpec, EndsAsleep;
    var (held, at) := AcquireFor(plan, Operations, scene.permit, scene.start, TotalDeadline(plan, scene.start));
    var pass := Pass(c, history + scene.before, at);
    if held && pass.Some? {
      AdmittedAnnounces(plan, c, recordWhen, history + scene.before, scene, pass.value, at);
      SilentExactlyWhen(EnvOf(plan, scene, pass.value), at);
    }
  }

  /** Every breaker, whatever its configuration, can silence a call: it is rejected without an event. */
  lemma {:induction false} RejectedCallIsSilent<T, E>(plan: Plan<T, E>, c: B.Config, recordWhen: Option<E -> bool>,
      oracle: nat -> Turn<T, E>) returns (history: seq<B.Event>, scene: Scene<T, E>)
    requires c.Sane()
    ensures var r := Course(plan, Some(c), recordWhen, history, scene).report;
      r.events == [] && r.calls == [] && r.outcome.Failure? && r.outcome.cause.CircuitOpen?
  {
    hide Admitted, B.Run, B.GateAnswer;
    history := H.CanReject(c);
    scene := Scene(0, FREE, [], oracle, []);
    assert history + [] == history;
  }

  lemma {:induction false} SleepyCallIsSilent<T(!new), E(!new)>(plan: Plan<T, E>, recordWhen: Option<E -> bool>,
      any: Result<T, E>) returns (scene: Scene<T, E>)
    requires CanOversleep(plan)
    ensures Terminals(Course(plan, None, recordWhen, [], scene).report.events) == 0
  {
    hide Course, DriveSpec, CanOversleep, EndsAsleep;
    OversleeperSleeps(plan, any);
    var oracle: nat -> Turn<T, E> :| Sleepy(With(plan, oracle), 1, None, None, 0);
    scene := Scene(0, FREE, [], oracle, []);
    assert EnvOf(plan, scene, Disabled) == With(plan, oracle);
    SleepyRun(With(plan, oracle), 0);
    CallSilentExactlyWhen(plan, None, recordWhen, [], scene);
  }

  lemma {:induction false} SilentCallNeeds<T(!new), E(!new)>(plan: Plan<T, E>, recordWhen: Option<E -> bool>,
      history: seq<B.Event>, scene: Scene<T, E>)
    requires Terminals(Course(plan, None, recordWhen, history, scene).report.events) == 0
    ensures CanOversleep(plan)
  {
    hide Course, DriveSpec, CanOversleep, EndsAsleep, AcquireFor;
    CallSilentExactlyWhen(plan, None, recordWhen, history, scene);
    var (held, at) := AcquireFor(plan, Operations, scene.permit, scene.start, TotalDeadline(plan, scene.start));
    AcquireWaits(plan, Operations, scene.permit, scene.start, TotalDeadline(plan, scene.start));
    SleeperNeeds(plan, EnvOf(plan, scene, Disabled), at);
  }

  /** Exactly which policies can leave a call without an announced end: those with a breaker, and
      those whose retry loop can end asleep. */
  lemma {:induction false} CallSilencedExactlyWhen<T(!new), E(!new)>(plan: Plan<T, E>, c: Option<B.Config>,
      recordWhen: Option<E -> bool>, any: Result<T, E>)
    requires c.Some? ==> c.value.Sane()
    ensures (exists history, scene: Scene<T, E> ::
        Terminals(Course(plan, c, recordWhen, history, scene).report.events) == 0)
      <==> c.Some? || CanOversleep(plan)
  {
    hide Course, CanOversleep;
    if c.Some? {
      var history, scene := RejectedCallIsSilent(plan, c.value, recordWhen, _ => Tokenless(FREE, any, 0, 0));
      assert Terminals(Course(plan, c, recordWhen, history, scene).report.events) == 0;
    } else if CanOversleep(plan) {
      var scene := SleepyCallIsSilent(plan, recordWhen, any);
    } else {
      forall history, scene: Scene<T, E>
        ensures Terminals(Course(plan, c, recordWhen, history, scene).report.events) != 0
      {
        if Terminals(Course(plan, c, recordWhen, history, scene).report.events) == 0 {
          SilentCallNeeds(plan, recordWhen, history, scene);
        }
      }
    }
  }
}
