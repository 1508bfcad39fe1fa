/** The whole pipeline around the retry loop (src/engine.rs:47-121): an operations-scope permit,
    the breaker's gate, `drive`, and one vote on the final outcome. */
module Pipeline {
  import opened Common
  import opened Engine
  import opened EngineTheorems
  import B = Breaker

  /** What the world has in store for one call of the pipeline; `before` and `during` are the
      operations other calls perform on the shared breaker until this one's gate, and between
      its gate and its vote. */
  datatype Scene<!T, !E> = Scene(
    start: nat,
    permit: PermitTurn,
    before: seq<B.Event>,
    oracle: nat -> Turn<T, E>,
    during: seq<B.Event>)

  /** A report of the whole pipeline, what this call did to the breaker, and its deposits into
      the retry budget. */
  datatype Journey<T, E> = Journey(report: Report<T, E>, gated: Option<B.Event>, voted: Option<B.Event>, deposits: nat)

  function ViewOf(p: B.Phase): BreakerView {
    match p
    case Closed => BreakerView.Closed
    case Open => BreakerView.Open
    case HalfOpen => BreakerView.HalfOpen
  }

  /** The vote an outcome casts: `Some(true)` is a failure. */
  function VoteOf<T, E>(recordWhen: Option<E -> bool>, o: Outcome<T, E>): Option<bool> {
    match o
    case Success(_) => Some(false)
    case Failure(cause, _) =>
      match cause
      case AttemptTimeout => Some(true)
      case TotalTimeout => Some(true)
      case Operation(e) => Some(recordWhen.None? || recordWhen.value(e))
      case _ => None
  }

  function TotalDeadline(plan: Plan, start: nat): Option<nat> {
    if plan.totalTimeout.None? then None else Some(start + plan.totalTimeout.value)
  }

  /** What the gate lets through, and the view it hands to the attempts. */
  function Pass(c: Option<B.Config>, history: seq<B.Event>, at: nat): (view: Option<BreakerView>)
    ensures c.None? ==> view == Some(Disabled)
  {
    if c.None? then Some(Disabled)
    else
      match B.GateAnswer(c.value, B.Run(c.value, history), at)
      case Admit(seen) => Some(ViewOf(seen))
      case Reject => None
  }

  function Refused<T, E>(cause: Cause<E>, view: BreakerView, events: seq<Event>, start: nat, at: nat): Report<T, E> {
    Report(Failure(cause, Context(0, at - start, None, view)), events, [], 0, at)
  }

  function Announce(p: Option<B.Phase>): seq<Event> {
    if p.None? then [] else [CircuitStateChanged(ViewOf(p.value))]
  }

  function EnvOf<T, E>(plan: Plan<T, E>, scene: Scene<T, E>, view: BreakerView): Env<T, E> {
    Env(plan, scene.oracle, scene.start, TotalDeadline(plan, scene.start), view)
  }

  /** What an admitted call does after its gate: the attempts and the vote. */
  function Admitted<T, E>(plan: Plan<T, E>, c: Option<B.Config>, recordWhen: Option<E -> bool>,
      history: seq<B.Event>, scene: Scene<T, E>, view: BreakerView, at: nat): Journey<T, E>
    requires c.Some? ==> c.value.Sane()
  {
    var r := DriveSpec(EnvOf(plan, scene, view), at);
    var opening := if view == BreakerView.HalfOpen then [CircuitStateChanged(BreakerView.HalfOpen)] else [];
    var deposits := if plan.budgeted then 1 else 0;
    var vote := VoteOf(recordWhen, r.outcome);
    if c.None? || vote.None? then
      Journey(r.(events := opening + r.events), if c.None? then None else Some(B.Gate(at)), None, deposits)
    else
      var met := B.Run(c.value, history + [B.Gate(at)] + scene.during);
      var closing := Announce(B.Transition(c.value, met, vote.value, r.clock));
      var voted := B.Record(vote.value, r.clock);
      Journey(r.(events := opening + r.events + closing), Some(B.Gate(at)), Some(voted), deposits)
  }

  /** What a call that holds its permit does from the gate on. */
  function Gated<T, E>(plan: Plan<T, E>, c: Option<B.Config>, recordWhen: Option<E -> bool>,
      history: seq<B.Event>, scene: Scene<T, E>, at: nat): Journey<T, E>
    requires c.Some? ==> c.value.Sane()
  {
    match Pass(c, history, at)
    case None => Journey(Refused(CircuitOpen, BreakerView.Open, [], scene.start, at), Some(B.Gate(at)), None, 0)
    case Some(view) => Admitted(plan, c, recordWhen, history, scene, view, at)
  }

  /** The course of one call, given the breaker's history before it. */
  function Course<T, E>(plan: Plan<T, E>, c: Option<B.Config>, recordWhen: Option<E -> bool>,
      history: seq<B.Event>, scene: Scene<T, E>): Journey<T, E>
    requires c.Some? ==> c.value.Sane()
  {
    var (held, at) := AcquireFor(plan, Operations, scene.permit, scene.start, TotalDeadline(plan, scene.start));
    if !held then
      Journey(Refused(ConcurrencyRejected, Disabled, [Rejected], scene.start, at), None, None, 0)
    else Gated(plan, c, recordWhen, history + scene.before, scene, at)
  }

  function Own(e: Option<B.Event>): seq<B.Event> {
    if e.None? then [] else [e.value]
  }

  /** The operations on the breaker while one call runs, its own in their places. */
  function Moves<T, E>(scene: Scene<T, E>, j: Journey<T, E>): seq<B.Event> {
    scene.before + Own(j.gated) + scene.during + Own(j.voted)
  }

  // --- The pipeline over the shared breaker ------------------------------------------------------

  /** Another call uses the breaker. */
  method Other(b: B.BreakerRuntime, e: B.Event)
    requires b.Valid()
    modifies b, b.window
    ensures b.Valid() && b.history == old(b.history) + [e]
  {
    hide B.BreakerRuntime.Valid, B.BreakerRuntime.View, B.Run, B.Step, B.Transition, B.GateAnswer;
    match e {
      case Gate(now) => var _ := b.Gate(now);
      case Record(failure, now) =>
        if failure {
          var _ := b.RecordFailure(now);
        } else {
          var _ := b.RecordSuccess(now);
        }
    }
  }

  method Others(b: B.BreakerRuntime, events: seq<B.Event>)
    requires b.Valid()
    modifies b, b.window
    ensures b.Valid() && b.history == old(b.history) + events
  {
    hide B.BreakerRuntime.Valid, B.BreakerRuntime.View, B.Run, B.Step;
    for i := 0 to |events|
      invariant b.Valid() && b.history == old(b.history) + events[..i]
    {
      Other(b, events[i]);
      assert events[..i + 1] == events[..i] + [events[i]];
    }
    assert events[..|events|] == events;
  }

  /** The breaker's share of the pipeline before the attempts: its gate. */
  method AskGate(b: B.BreakerRuntime, at: nat) returns (view: Option<BreakerView>)
    requires b.Valid()
    modifies b
    ensures b.Valid() && b.history == old(b.history) + [B.Gate(at)]
    ensures view == Pass(Some(b.config), old(b.history), at)
  {
    var verdict := b.Gate(at);
    match verdict
    case Reject => view := None;
    case Admit(seen) => view := Some(ViewOf(seen));
  }

  /** The breaker's share after the attempts: at most one vote. */
  method CastVote<T, E>(b: B.BreakerRuntime, recordWhen: Option<E -> bool>, outcome: Outcome<T, E>, now: nat)
    returns (transition: Option<B.Phase>, ghost voted: Option<B.Event>)
    requires b.Valid()
    modifies b, b.window
    ensures b.Valid() && b.history == old(b.history) + Own(voted)
    ensures var vote := VoteOf(recordWhen, outcome);
      voted == (if vote.Some? then Some(B.Record(vote.value, now)) else None) &&
      transition == if vote.Some? then B.Transition(b.config, old(b.View()), vote.value, now) else None
  {
    hide B.Transition, B.Run, B.Step, B.BreakerRuntime.Valid, B.BreakerRuntime.View;
    transition, voted := None, None;
    match outcome {
      case Success(_) =>
        transition := b.RecordSuccess(now);
        voted := Some(B.Record(false, now));
      case Failure(cause, _) =>
        if cause.AttemptTimeout? || cause.TotalTimeout? {
          transition := b.RecordFailure(now);
          voted := Some(B.Record(true, now));
        } else if cause.Operation? {
          var counts := if recordWhen.Some? then recordWhen.value(cause.source) else true;
          if counts {
            transition := b.RecordFailure(now);
          } else {
            transition := b.RecordSuccess(now);
          }
          voted := Some(B.Record(counts, now));
        }
    }
  }

  /** The attempts of an admitted call without a breaker. */
  method RunUnguarded<T, E>(plan: Plan<T, E>, recordWhen: Option<E -> bool>, ghost history: seq<B.Event>,
      scene: Scene<T, E>, at: nat)
    returns (r: Report<T, E>, ghost j: Journey<T, E>)
    requires plan.maxAttempts >= 1
    ensures j == Gated(plan, None, recordWhen, history, scene, at)
    ensures r == Gated(plan, None, recordWhen, history, scene, at).report
  {
    hide DriveSpec;
    r := Drive(EnvOf(plan, scene, Disabled), at);
    assert [] + r.events == r.events;
    j := Journey(r, None, None, if plan.budgeted then 1 else 0);
  }

  /** The attempts of an admitted call and its vote. */
  method RunGuarded<T, E>(plan: Plan<T, E>, b: B.BreakerRuntime, recordWhen: Option<E -> bool>,
      ghost before: seq<B.Event>,
      scene: Scene<T, E>, view: BreakerView, at: nat)
    returns (r: Report<T, E>, ghost j: Journey<T, E>)
    requires plan.maxAttempts >= 1 && b.Valid() && b.history == before + [B.Gate(at)]
    modifies b, b.window
    ensures j == Admitted(plan, Some(b.config), recordWhen, before, scene, view, at) && r == j.report
    ensures b.Valid() && b.history == old(b.history) + scene.during + Own(j.voted)
  {
    hide DriveSpec, B.Transition, B.Step;
    var opening := if view == BreakerView.HalfOpen then [CircuitStateChanged(BreakerView.HalfOpen)] else [];
    r := Drive(EnvOf(plan, scene, view), at);
    Others(b, scene.during);
    var transition, voted := CastVote(b, recordWhen, r.outcome, r.clock);
    var closing := Announce(transition);
    assert opening + r.events + [] == opening + r.events;
    r := r.(events := opening + r.events + closing);
    j := Journey(r, Some(B.Gate(at)), voted, if plan.budgeted then 1 else 0);
  }

  lemma {:induction false} GatedAt<T, E>(plan: Plan<T, E>, c: B.Config, recordWhen: Option<E -> bool>,
      history: seq<B.Event>, scene: Scene<T, E>, view: BreakerView, at: nat)
    requires c.Sane()
    ensures Admitted(plan, Some(c), recordWhen, history, scene, view, at).gated == Some(B.Gate(at))
  {
    hide DriveSpec, B.Transition, B.Run;
  }

  /** The pipeline from the gate on: the gate, and if it admits the attempts and the vote. */
  method RunGate<T, E>(plan: Plan<T, E>, b: B.BreakerRuntime, recordWhen: Option<E -> bool>, scene: Scene<T, E>,
      at: nat)
    returns (r: Report<T, E>, ghost j: Journey<T, E>)
    requires plan.maxAttempts >= 1 && b.Valid()
    modifies b, b.window
    ensures j == Gated(plan, Some(b.config), recordWhen, old(b.history), scene, at) && r == j.report
    ensures b.Valid() && b.history == old(b.history) + Own(j.gated) + scene.during + Own(j.voted)
  {
    hide Admitted, Pass, B.Run, B.Step, B.BreakerRuntime.Valid, B.BreakerRuntime.View;
    ghost var history := b.history;
    var view := AskGate(b, at);
    if view.None? {
      r := Refused(CircuitOpen, BreakerView.Open, [], scene.start, at);
      j := Journey(r, Some(B.Gate(at)), None, 0);
      Others(b, scene.during);
    } else {
      r, j := RunGuarded(plan, b, recordWhen, history, scene, view.value, at);
      GatedAt(plan, b.config, recordWhen, history, scene, view.value, at);
    }
  }

  /** `run_pipeline`. */
  method RunPipeline<T, E>(plan: Plan<T, E>, breaker: Option<B.BreakerRuntime>, recordWhen: Option<E -> bool>,
      scene: Scene<T, E>)
    returns (r: Report<T, E>, ghost j: Journey<T, E>)
    requires plan.maxAttempts >= 1
    requires breaker.Some? ==> breaker.value.Valid()
    modifies if breaker.Some? then {breaker.value, breaker.value.window} else {}
    ensures r == j.report
    ensures breaker.None? ==> j == Course(plan, None, recordWhen, [], scene)
    ensures breaker.Some? ==>
      var b := breaker.value;
      b.Valid() && j == Course(plan, Some(b.config), recordWhen, old(b.history), scene) &&
      b.history == old(b.history) + Moves(scene, j)
  {
    hide Gated, AcquireFor, B.Run, B.Step, B.BreakerRuntime.Valid, B.BreakerRuntime.View;
    var deadline := TotalDeadline(plan, scene.start);
    var (held, at) := AcquireFor(plan, Operations, scene.permit, scene.start, deadline);
    if breaker.Some? {
      Others(breaker.value, scene.before);
    }
    if !held {
      r := Refused(ConcurrencyRejected, Disabled, [Rejected], scene.start, at);
      j := Journey(r, None, None, 0);
      if breaker.Some? {
        Others(breaker.value, scene.during);
      }
    } else if breaker.Some? {
      r, j := RunGate(plan, breaker.value, recordWhen, scene, at);
    } else {
      assert [] + scene.before == scene.before;
      r, j := RunUnguarded(plan, recordWhen, scene.before, scene, at);
    }
  }
}
