/** The circuit breaker (src/breaker.rs): its operations on values, its history, and the
    object whose methods carry them out in place. */
module Breaker {
  import opened Common
  import opened SlidingWindow

  /** The latched state.  `state_at` and `gate` report one of the same three. */
  datatype Phase = Closed | Open | HalfOpen

  /** A ratio in [0, 1], as a fraction. */
  datatype Ratio = Ratio(num: nat, den: nat)
  {
    predicate Sane() { num <= den && den > 0 }

    /** `part / whole >= num / den`, multiplied out. */
    predicate ReachedBy(part: nat, whole: nat)
      requires whole > 0
    {
      part * den >= num * whole
    }
  }

  datatype Trip =
    | Consecutive(threshold: nat)
    | FailureRatio(ratio: Ratio, minThroughput: nat, window: nat)

  /** A compiled configuration; the builder clamps what `Sane` asks for. */
  datatype Config = Config(trip: Trip, openFor: nat, maxCalls: nat)
  {
    predicate Sane() {
      maxCalls >= 1 &&
      match trip
      case Consecutive(threshold) => threshold >= 1
      case FailureRatio(ratio, _, _) => ratio.Sane()
    }

    function Span(): nat {
      match trip
      case Consecutive(_) => 1_000_000_000
      case FailureRatio(_, _, window) => window
    }
  }

  /** The atomic phase together with everything behind the mutex. */
  datatype State = State(
    phase: Phase,
    openUntil: Option<nat>,
    consecutive: nat,
    inFlight: nat,
    successes: nat,
    buckets: seq<Bucket>)

  const INITIAL := State(Phase.Closed, None, 0, 0, 0, [])

  // --- The operations, as functions of the state -------------------------------------

  /** The answer of `gate`: admitted, seeing a phase, or rejected. */
  datatype Verdict = Admit(seen: Phase) | Reject

  function Opened(c: Config, s: State, now: nat): State {
    s.(phase := Open, openUntil := Some(now + c.openFor), inFlight := 0, successes := 0)
  }

  function ClosedAgain(s: State): State {
    s.(phase := Phase.Closed, consecutive := 0, inFlight := 0, successes := 0, buckets := [])
  }

  /** The cooldown of an open breaker has elapsed (or was never set). */
  predicate Cooled(s: State, now: nat) {
    s.openUntil.None? || now >= s.openUntil.value
  }

  function GateAnswer(c: Config, s: State, now: nat): Verdict {
    match s.phase
    case Closed => Admit(Phase.Closed)
    case Open => if Cooled(s, now) then Admit(HalfOpen) else Reject
    case HalfOpen => if s.inFlight < c.maxCalls then Admit(HalfOpen) else Reject
  }

  function Gated(c: Config, s: State, now: nat): State {
    match s.phase
    case Closed => s
    case Open => if Cooled(s, now) then s.(phase := HalfOpen, inFlight := 1, successes := 0) else s
    case HalfOpen => if s.inFlight < c.maxCalls then s.(inFlight := s.inFlight + 1) else s
  }

  function Decrement(n: nat): nat { if n == 0 then 0 else n - 1 }

  function Tallied(c: Config, s: State, v: Vote): State {
    s.(consecutive := if v.failure then s.consecutive + 1 else 0,
       buckets := Recorded(c.Span(), s.buckets, v))
  }

  predicate ShouldTrip(c: Config, s: State)
    requires SumTotal(s.buckets) >= 1
  {
    match c.trip
    case Consecutive(threshold) => s.consecutive >= threshold
    case FailureRatio(ratio, minThroughput, _) =>
      SumTotal(s.buckets) >= minThroughput &&
      ratio.ReachedBy(SumFails(s.buckets), SumTotal(s.buckets))
  }

  function Succeeded(c: Config, s: State, now: nat): State {
    if s.phase == HalfOpen then
      var probed := s.(inFlight := Decrement(s.inFlight), successes := s.successes + 1);
      if probed.successes >= c.maxCalls then ClosedAgain(probed) else probed
    else
      Tallied(c, s, Vote(now, false))
  }

  function Failed(c: Config, s: State, now: nat): State {
    if s.phase == HalfOpen then
      Opened(c, s, now)
    else
      var t := Tallied(c, s, Vote(now, true));
      if ShouldTrip(c, t) then Opened(c, t, now) else t
  }

  /** The transition a vote reports, if it caused one.  A failure on an already open breaker
      that trips again reports the opening again. */
  function Transition(c: Config, s: State, failure: bool, now: nat): Option<Phase> {
    if !failure then
      if s.phase == HalfOpen && s.successes + 1 >= c.maxCalls then Some(Phase.Closed) else None
    else if s.phase == HalfOpen then Some(Open)
    else if ShouldTrip(c, Tallied(c, s, Vote(now, true))) then Some(Open)
    else None
  }

  /** `state_at`: the phase as a pure function of the clock. */
  function StateAt(s: State, now: nat): Phase {
    match s.phase
    case Open => if s.openUntil.Some? && now >= s.openUntil.value then HalfOpen else Open
    case HalfOpen => HalfOpen
    case Closed => Phase.Closed
  }

  /** `cooling_until`: the end of the cooldown, while it lies ahead. */
  function CoolingUntil(s: State, now: nat): Option<nat> {
    if s.phase == Open && s.openUntil.Some? && now < s.openUntil.value then s.openUntil else None
  }

  // --- Histories ---------------------------------------------------------------------

  datatype Event = Gate(now: nat) | Record(failure: bool, now: nat)

  function Step(c: Config, s: State, e: Event): State {
    match e
    case Gate(now) => Gated(c, s, now)
    case Record(failure, now) => if failure then Failed(c, s, now) else Succeeded(c, s, now)
  }

  /** The state after a history of atomic operations. */
  function Run(c: Config, es: seq<Event>): State {
    if es == [] then INITIAL else Step(c, Run(c, es[..|es| - 1]), es[|es| - 1])
  }

  // --- The breaker as an object ----------------------------------------------------------

  /** `BreakerRuntime`.  The ghost history is what the lemmas about `Run` speak about. */
  class BreakerRuntime {
    const config: Config
    var state: Phase
    var openUntil: Option<nat>
    var consecutiveFailures: nat
    var halfOpenInFlight: nat
    var halfOpenSuccesses: nat
    const window: Window
    ghost var history: seq<Event>

    ghost function View(): State
      reads this, window
    {
      State(state, openUntil, consecutiveFailures, halfOpenInFlight, halfOpenSuccesses, window.buckets)
    }

    ghost predicate Valid()
      reads this, window
    {
      config.Sane() && window.Valid() && window.span == config.Span() && View() == Run(config, history)
    }

    constructor (config: Config)
      requires config.Sane()
      ensures Valid() && fresh(window) && this.config == config && View() == INITIAL && history == []
      ensures window.span == if config.trip.FailureRatio? then config.trip.window else 1_000_000_000
    {
      this.config := config;
      state := Phase.Closed;
      openUntil := None;
      consecutiveFailures, halfOpenInFlight, halfOpenSuccesses := 0, 0, 0;
      window := new Window(config.Span());
      history := [];
    }

    /** Every public operation appends itself to the history and acts as the atomic step does. */
    twostate predicate Acted(e: Event)
      reads this, window
    {
      history == old(history) + [e] && View() == Step(config, old(View()), e)
    }

    ghost method Note(e: Event)
      modifies this`history
      ensures history == old(history) + [e] && history[..|history| - 1] == old(history)
    {
      history := history + [e];
    }

    /** `gate`, after the lock is taken: the phase is read again. */
    method Gate(now: nat) returns (verdict: Verdict)
      requires Valid()
      modifies this
      ensures Valid() && Acted(Event.Gate(now))
      ensures verdict == GateAnswer(config, old(View()), now)
    {
      if state == Phase.Closed {
        verdict := Admit(Phase.Closed);
      } else if state == Open {
        var ready := openUntil.None? || now >= openUntil.value;
        if ready {
          state := HalfOpen;
          halfOpenInFlight := 1;
          halfOpenSuccesses := 0;
          verdict := Admit(HalfOpen);
        } else {
          verdict := Reject;
        }
      } else if halfOpenInFlight < config.maxCalls {
        halfOpenInFlight := halfOpenInFlight + 1;
        verdict := Admit(HalfOpen);
      } else {
        verdict := Reject;
      }
      Note(Event.Gate(now));
    }

    method RecordSuccess(now: nat) returns (transition: Option<Phase>)
      requires Valid()
      modifies this, window
      ensures Valid() && Acted(Event.Record(false, now))
      ensures transition == Transition(config, old(View()), false, now)
    {
      transition := None;
      if state == HalfOpen {
        halfOpenInFlight := if halfOpenInFlight == 0 then 0 else halfOpenInFlight - 1;
        halfOpenSuccesses := halfOpenSuccesses + 1;
        if halfOpenSuccesses >= config.maxCalls {
          DoClose();
          transition := Some(Phase.Closed);
        }
      } else {
        Tally(false, now);
      }
      Note(Event.Record(false, now));
    }

    method RecordFailure(now: nat) returns (transition: Option<Phase>)
      requires Valid()
      modifies this, window
      ensures Valid() && Acted(Event.Record(true, now))
      ensures transition == Transition(config, old(View()), true, now)
    {
      transition := None;
      if state == HalfOpen {
        halfOpenInFlight := if halfOpenInFlight == 0 then 0 else halfOpenInFlight - 1;
        DoOpen(now);
        transition := Some(Open);
      } else {
        TotalsAfterRecord(config.Span(), window.buckets, Vote(now, true));
        Tally(true, now);
        var trip := Trips(now);
        if trip {
          DoOpen(now);
          transition := Some(Open);
        }
      }
      Note(Event.Record(true, now));
    }

    /** Counts a vote that meets the breaker outside half-open. */
    method Tally(failure: bool, now: nat)
      requires window.Valid() && window.span == config.Span()
      modifies this, window
      ensures window.Valid() && history == old(history)
      ensures View() == Tallied(config, old(View()), Vote(now, failure))
    {
      consecutiveFailures := if failure then consecutiveFailures + 1 else 0;
      window.Record(now, failure);
    }

    /** `should_trip`, called right after a vote was recorded at `now`: the totals it reads
        are not zero, and reading them evicts nothing more. */
    method Trips(now: nat) returns (trip: bool)
      requires window.Valid() && window.span == config.Span()
      requires SumTotal(window.buckets) >= 1 && Evict(window.span, window.buckets, now) == window.buckets
      modifies window
      ensures window.Valid() && View() == old(View())
      ensures trip == ShouldTrip(config, View())
    {
      match config.trip
      case Consecutive(threshold) =>
        trip := consecutiveFailures >= threshold;
      case FailureRatio(ratio, minThroughput, _) =>
        var failures, total := window.Totals(now);
        trip := total >= minThroughput && ratio.ReachedBy(failures, total);
    }

    method DoOpen(now: nat)
      modifies this
      ensures View() == Opened(config, old(View()), now) && history == old(history)
    {
      state := Open;
      openUntil := Some(now + config.openFor);
      halfOpenSuccesses := 0;
      halfOpenInFlight := 0;
    }

    method DoClose()
      requires window.Valid()
      modifies this, window
      ensures window.Valid()
      ensures View() == ClosedAgain(old(View())) && history == old(history)
    {
      state := Phase.Closed;
      consecutiveFailures := 0;
      halfOpenSuccesses := 0;
      halfOpenInFlight := 0;
      window.Clear();
    }

    method StateNow(now: nat) returns (phase: Phase)
      ensures phase == StateAt(View(), now)
    {
      match state
      case Open =>
        match openUntil {
          case Some(t) => phase := if now >= t then HalfOpen else Open;
          case None => phase := Open;
        }
      case HalfOpen => phase := HalfOpen;
      case Closed => phase := Phase.Closed;
    }

    method Cooling(now: nat) returns (until: Option<nat>)
      ensures until == CoolingUntil(View(), now)
    {
      until := None;
      if state == Open {
        match openUntil {
          case Some(t) => if now < t { until := Some(t); }
          case None =>
        }
      }
    }
  }
}
