/** The router over several members (src/router.rs, src/pick.rs): choosing one, scanning for
    healthy ones, and failing over.  Scores and weights are real numbers, or not finite. */
module Router {
  import opened Common
  import opened Engine
  import opened Sampling
  import B = Breaker

  /** What a score closure sees of a member. */
  datatype Candidate = Candidate(index: nat, inFlight: nat, weight: real, pickCount: nat)

  datatype Score = NotFinite | Finite(value: real)

  /** A strategy: a score, and how many candidates to sample. */
  datatype Pick = Pick(score: Candidate -> Score, sample: Option<nat>)
  {
    /** What the builder insists on. */
    predicate Sane() { sample != Some(0) }
  }

  const FIRST_HEALTHY := Pick((c: Candidate) => Finite(c.index as real), None)
  const ROUND_ROBIN := Pick((c: Candidate) => Finite(c.pickCount as real), None)
  const LEAST_IN_FLIGHT := Pick((c: Candidate) => Finite(c.inFlight as real), None)
  const WEIGHTED_LEAST_IN_FLIGHT :=
    Pick((c: Candidate) => if c.weight <= 0.0 then NotFinite else Finite((c.inFlight as real + 1.0) / c.weight), None)
  const P2C := Pick((c: Candidate) => Finite(c.inFlight as real), Some(2))

  // --- Choosing ---------------------------------------------------------------------------

  /** `a` is preferred to `b`: a lower score, or the same score and inserted earlier. */
  predicate Before(score: Candidate -> Score, a: Candidate, b: Candidate) {
    score(a).Finite? && score(b).Finite? &&
    (score(a).value < score(b).value || (score(a).value == score(b).value && a.index < b.index))
  }

  /** The best candidate, or the index of the first whose score is not finite. */
  function Leader(score: Candidate -> Score, cs: seq<Candidate>): Result<Candidate, nat>
    requires cs != []
  {
    var last := cs[|cs| - 1];
    if |cs| == 1 then
      if score(last).Finite? then Ok(last) else Err(last.index)
    else
      match Leader(score, cs[..|cs| - 1])
      case Err(i) => Err(i)
      case Ok(best) =>
        if score(last).NotFinite? then Err(last.index)
        else if Before(score, last, best) then Ok(last)
        else Ok(best)
  }

  /** The places looked at: a draw without replacement, or all. */
  function Positions(pick: Pick, n: nat, word: nat -> nat): (ps: seq<nat>)
    requires n >= 1 && pick.Sane()
    ensures ps != [] && Distinct(ps) && Within(n, ps)
    ensures |ps| == if pick.sample.Some? then Min(pick.sample.value, n) else n
  {
    if pick.sample.Some? && pick.sample.value < n then
      var js := ChoicesOf(n, pick.sample.value, word);
      SampleIsDistinct(n, js);
      Sampled(n, js)
    else Identity(n)
  }

  function At(cs: seq<Candidate>, ps: seq<nat>): (ds: seq<Candidate>)
    requires Within(|cs|, ps)
    ensures |ds| == |ps|
  {
    seq(|ps|, i requires 0 <= i < |ps| => cs[ps[i]])
  }

  function Choice(pick: Pick, cs: seq<Candidate>, word: nat -> nat): Result<Candidate, nat>
    requires cs != [] && pick.Sane()
  {
    Leader(pick.score, At(cs, Positions(pick, |cs|, word)))
  }

  ghost predicate DistinctIndices(cs: seq<Candidate>) {
    forall i, j :: 0 <= i < j < |cs| ==> cs[i].index != cs[j].index
  }

  ghost predicate AllFinite(score: Candidate -> Score, cs: seq<Candidate>) {
    forall i :: 0 <= i < |cs| ==> score(cs[i]).Finite?
  }

  /** The candidate at `p` comes strictly before every other. */
  ghost predicate Leads(score: Candidate -> Score, cs: seq<Candidate>, p: nat) {
    p < |cs| && forall q :: 0 <= q < |cs| && q != p ==> Before(score, cs[p], cs[q])
  }

  /** The candidate at `p` is the first whose score is not finite. */
  ghost predicate FirstBad(score: Candidate -> Score, cs: seq<Candidate>, p: nat) {
    p < |cs| && score(cs[p]).NotFinite? && forall q :: 0 <= q < p ==> score(cs[q]).Finite?
  }

  /** The leader comes strictly before every other candidate; and there is one exactly when every
      score is finite, else the first that is not is reported. */
  lemma {:induction false} LeaderIsArgmin(score: Candidate -> Score, cs: seq<Candidate>) returns (p: nat)
    requires cs != [] && DistinctIndices(cs)
    ensures Leader(score, cs).Ok? <==> AllFinite(score, cs)
    ensures Leader(score, cs).Ok? ==> Leads(score, cs, p) && Leader(score, cs) == Ok(cs[p])
    ensures Leader(score, cs).Err? ==> FirstBad(score, cs, p) && Leader(score, cs) == Err(cs[p].index)
    decreases |cs|
  {
    p := 0;
    var rest, last := cs[..|cs| - 1], cs[|cs| - 1];
    assert cs == rest + [last];
    if rest != [] {
      hide Before, Leads;
      p := LeaderIsArgmin(score, rest);
      if Leader(score, rest).Ok? {
        if score(last).NotFinite? || Before(score, last, rest[p]) {
          p := |rest|;
        }
      }
    }
  }

  /** The scan over candidates ends at the first score that is not finite. */
  lemma {:induction false} LeaderStops(score: Candidate -> Score, cs: seq<Candidate>, p: nat)
    requires p < |cs| && score(cs[p]).NotFinite?
    requires p > 0 ==> Leader(score, cs[..p]).Ok?
    ensures Leader(score, cs) == Err(cs[p].index)
    decreases |cs|
  {
    if p == |cs| - 1 {
    } else {
      var rest := cs[..|cs| - 1];
      assert rest[..p] == cs[..p] && rest[p] == cs[p];
      LeaderStops(score, rest, p);
    }
  }

  /** The loop of `choose`: a running best over the positions looked at. */
  method BestAt(score: Candidate -> Score, cands: seq<Candidate>, positions: seq<nat>)
    returns (choice: Result<Candidate, nat>)
    requires positions != [] && Within(|cands|, positions)
    ensures choice == Leader(score, At(cands, positions))
  {
    ghost var ds := At(cands, positions);
    var best: Option<Candidate> := None;
    for p := 0 to |positions|
      invariant best.None? <==> p == 0
      invariant p > 0 ==> Leader(score, ds[..p]) == Ok(best.value) && score(best.value).Finite?
    {
      var c := cands[positions[p]];
      assert ds[..p + 1][..p] == ds[..p] && ds[p] == c;
      var s := score(c);
      if s.NotFinite? {
        LeaderStops(score, ds, p);
        return Err(c.index);
      }
      var take := best.None? || s.value < score(best.value).value ||
        (s.value == score(best.value).value && c.index < best.value.index);
      if take {
        best := Some(c);
      }
    }
    assert ds[..|positions|] == ds;
    choice := Ok(best.value);
  }

  // --- Scanning for healthy members -------------------------------------------------------

  /** After the first `i` members: the healthy ones, and the soonest end of a cooldown among the
      others.  `clock(i)` holds the instants of the two reads of member `i`. */
  function Scan(states: seq<Option<B.State>>, clock: nat -> (nat, nat), i: nat): (seq<nat>, Option<nat>)
    requires i <= |states|
  {
    if i == 0 then ([], None)
    else
      var (healthy, soonest) := Scan(states, clock, i - 1);
      var (polled, asked) := clock(i - 1);
      var s := states[i - 1];
      if s.Some? && B.StateAt(s.value, polled) == B.Open then
        var until := B.CoolingUntil(s.value, asked);
        (healthy, if until.None? then soonest else Some(Earlier(until.value, soonest)))
      else
        (healthy + [i - 1], soonest)
  }

  // --- Failing over --------------------------------------------------------------------------

  /** The counters of all members. */
  datatype Loads = Loads(weights: seq<real>, inFlight: seq<nat>, pickCount: seq<nat>)
  {
    predicate Sane() { |inFlight| == |weights| && |pickCount| == |weights| }

    function Member(i: nat): Candidate
      requires Sane() && i < |weights|
    {
      Candidate(i, inFlight[i], weights[i], pickCount[i])
    }

    /** The loads while one more attempt is under way. */
    function Entered(i: nat): Loads
      requires Sane() && i < |weights|
    {
      this.(inFlight := inFlight[i := inFlight[i] + 1])
    }

    /** The loads after one completed attempt: the in-flight count went up and down again. */
    function Tried(i: nat): Loads
      requires Sane() && i < |weights|
    {
      this.(pickCount := pickCount[i := pickCount[i] + 1])
    }
  }

  function Candidates(l: Loads, healthy: seq<nat>): (cs: seq<Candidate>)
    requires l.Sane() && Within(|l.weights|, healthy)
    ensures |cs| == |healthy|
    ensures forall i :: 0 <= i < |healthy| ==> cs[i] == l.Member(healthy[i])
  {
    seq(|healthy|, i requires 0 <= i < |healthy| => l.Member(healthy[i]))
  }

  function Without(healthy: seq<nat>, chosen: nat): (rest: seq<nat>)
    ensures |rest| <= |healthy| && (chosen in healthy ==> |rest| < |healthy|)
    ensures forall i :: 0 <= i < |rest| ==> rest[i] in healthy && rest[i] != chosen
    ensures chosen !in healthy ==> rest == healthy
    ensures Distinct(healthy) ==> Distinct(rest) && (chosen in healthy ==> |rest| == |healthy| - 1)
  {
    if healthy == [] then []
    else
      assert healthy == [healthy[0]] + healthy[1..];
      if healthy[0] == chosen then Without(healthy[1..], chosen)
      else [healthy[0]] + Without(healthy[1..], chosen)
  }

  datatype Routed<T, E> =
    | Served(value: T, target: nat, attempts: nat)
    | AllUnavailable(nextAvailableAt: Option<nat>)
    | Exhausted(error: E)
    | BadScore(index: nat)

  datatype Next<T, E> = Break(result: Routed<T, E>) | Continue(lastError: Option<E>)

  /** `after_attempt`. */
  function Classify<T, E>(advance: E -> bool, target: nat, attempts: nat, outcome: Outcome<T, E>,
      lastError: Option<E>): Next<T, E>
  {
    match outcome
    case Success(value) => Break(Served(value, target, attempts))
    case Failure(cause, _) =>
      if cause.Operation? && !advance(cause.source) then Break(Exhausted(cause.source))
      else Continue(if cause.Operation? then Some(cause.source) else lastError)
  }

  /** A run and what it leaves: the members tried, in order, and the loads. */
  datatype Route<T, E> = Route(result: Routed<T, E>, tried: seq<nat>, loads: Loads)

  /** What decides a run besides the loads: the classifier, each member's outcome, random words. */
  datatype World<!T, !E> = World(advance: E -> bool, outcome: nat -> Outcome<T, E>, words: nat -> nat -> nat)

  lemma {:induction false} LeaderIsOne(score: Candidate -> Score, cs: seq<Candidate>)
    requires cs != []
    ensures Leader(score, cs).Ok? ==> Leader(score, cs).value in cs
  {
    if |cs| > 1 {
      LeaderIsOne(score, cs[..|cs| - 1]);
    }
  }

  lemma {:induction false} ChosenIsHealthy(pick: Pick, l: Loads, healthy: seq<nat>, word: nat -> nat)
    requires pick.Sane() && l.Sane() && Within(|l.weights|, healthy) && healthy != []
    ensures var choice := Choice(pick, Candidates(l, healthy), word);
      choice.Ok? ==> choice.value.index in healthy && choice.value == l.Member(choice.value.index)
  {
    var cs := Candidates(l, healthy);
    LeaderIsOne(pick.score, At(cs, Positions(pick, |cs|, word)));
  }

  /** A route with members tried before it. */
  function AfterTrying<T, E>(tried: seq<nat>, r: Route<T, E>): Route<T, E> {
    r.(tried := tried + r.tried)
  }

  /** The run from a set of members not yet tried. */
  function RouteFrom<T, E>(pick: Pick, w: World<T, E>, soonest: Option<nat>, l: Loads, healthy: seq<nat>,
      attempts: nat, lastError: Option<E>): Route<T, E>
    requires pick.Sane() && l.Sane() && Within(|l.weights|, healthy)
    decreases |healthy|
  {
    if healthy == [] then
      Route(if lastError.Some? then Exhausted(lastError.value) else AllUnavailable(soonest), [], l)
    else
      match Choice(pick, Candidates(l, healthy), w.words(attempts))
      case Err(i) => Route(BadScore(i), [], l)
      case Ok(c) =>
        ChosenIsHealthy(pick, l, healthy, w.words(attempts));
        match Classify(w.advance, c.index, attempts + 1, w.outcome(c.index), lastError)
        case Break(result) => Route(result, [c.index], l.Tried(c.index))
        case Continue(lastError') =>
          var untried := Without(healthy, c.index);
          var rest := RouteFrom(pick, w, soonest, l.Tried(c.index), untried, attempts + 1, lastError');
          AfterTrying([c.index], rest)
  }

  lemma {:induction false} ScanWithin(states: seq<Option<B.State>>, clock: nat -> (nat, nat), i: nat)
    requires i <= |states|
    ensures var healthy := Scan(states, clock, i).0;
      Within(i, healthy) && Distinct(healthy) && forall a, b :: 0 <= a < b < |healthy| ==> healthy[a] < healthy[b]
  {
    if i > 0 {
      ScanWithin(states, clock, i - 1);
    }
  }

  /** A whole run: scan, then fail over. */
  function RouteOf<T, E>(pick: Pick, w: World<T, E>, l: Loads, states: seq<Option<B.State>>,
      clock: nat -> (nat, nat)): Route<T, E>
    requires pick.Sane() && l.Sane() && |states| == |l.weights|
  {
    ScanWithin(states, clock, |states|);
    var (healthy, soonest) := Scan(states, clock, |states|);
    RouteFrom(pick, w, soonest, l, healthy, 0, None)
  }

  // --- The router as an object -----------------------------------------------------------------

  lemma {:induction false} AfterTryingAgain<T, E>(a: seq<nat>, b: seq<nat>, r: Route<T, E>)
    ensures AfterTrying(a, AfterTrying(b, r)) == AfterTrying(a + b, r)
  {
    assert a + (b + r.tried) == (a + b) + r.tried;
  }

  class RouterPolicy {
    const weights: seq<real>
    const breakers: seq<Option<B.BreakerRuntime>>
    const pick: Pick
    var inFlight: seq<nat>
    var pickCount: seq<nat>

    ghost function View(): Loads
      reads this
    {
      Loads(weights, inFlight, pickCount)
    }

    ghost predicate Valid()
      reads this
    {
      pick.Sane() && View().Sane() && |breakers| == |weights| >= 1
    }

    /** The members' breakers as values. */
    ghost function States(): (states: seq<Option<B.State>>)
      reads set i | 0 <= i < |breakers| && breakers[i].Some? :: breakers[i].value
      reads set i | 0 <= i < |breakers| && breakers[i].Some? :: breakers[i].value.window
      ensures |states| == |breakers|
    {
      seq(|breakers|, i
        requires 0 <= i < |breakers|
        reads set i | 0 <= i < |breakers| && breakers[i].Some? :: breakers[i].value
        reads set i | 0 <= i < |breakers| && breakers[i].Some? :: breakers[i].value.window
        => if breakers[i].Some? then Some(breakers[i].value.View()) else None)
    }

    constructor (weights: seq<real>, breakers: seq<Option<B.BreakerRuntime>>, pick: Pick)
      requires pick.Sane() && |breakers| == |weights| >= 1
      ensures Valid() && this.weights == weights && this.breakers == breakers && this.pick == pick
      ensures inFlight == seq(|weights|, _ => 0) && pickCount == seq(|weights|, _ => 0)
    {
      this.weights, this.breakers, this.pick := weights, breakers, pick;
      inFlight := seq(|weights|, _ => 0);
      pickCount := seq(|weights|, _ => 0);
    }

    /** `healthy_members`. */
    method HealthyMembers(clock: nat -> (nat, nat)) returns (healthy: seq<nat>, soonest: Option<nat>)
      requires Valid()
      ensures (healthy, soonest) == Scan(States(), clock, |breakers|)
    {
      healthy, soonest := [], None;
      for i := 0 to |breakers|
        invariant (healthy, soonest) == Scan(States(), clock, i)
      {
        var open, until := false, None;
        if breakers[i].Some? {
          var phase := breakers[i].value.StateNow(clock(i).0);
          open := phase == B.Open;
        }
        if open {
          until := breakers[i].value.Cooling(clock(i).1);
          if until.Some? {
            soonest := Some(if soonest.Some? && soonest.value < until.value then soonest.value else until.value);
          }
        } else {
          healthy := healthy + [i];
        }
      }
    }

    /** `choose`. */
    method Choose(healthy: seq<nat>, word: nat -> nat) returns (choice: Result<Candidate, nat>)
      requires Valid() && healthy != [] && Within(|weights|, healthy)
      ensures choice == Choice(pick, Candidates(View(), healthy), word)
    {
      var cands := seq(|healthy|, i requires 0 <= i < |healthy| && Valid() && Within(|weights|, healthy) reads this =>
        Candidate(healthy[i], inFlight[healthy[i]], weights[healthy[i]], pickCount[healthy[i]]));
      assert cands == Candidates(View(), healthy);
      var positions: seq<nat> := Identity(|cands|);
      if pick.sample.Some? && pick.sample.value < |cands| {
        positions := SampleDistinct(|cands|, pick.sample.value, word);
      }
      assert positions == Positions(pick, |cands|, word);
      choice := BestAt(pick.score, cands, positions);
    }

    /** `InFlightGuard`: taken before an attempt, dropped after it. */
    method TakeGuard(i: nat)
      requires Valid() && i < |weights|
      modifies this`inFlight
      ensures View() == old(View()).Entered(i)
    {
      inFlight := inFlight[i := inFlight[i] + 1];
    }

    method DropGuard(i: nat)
      requires Valid() && i < |weights| && inFlight[i] >= 1
      modifies this`inFlight
      ensures Valid() && inFlight == old(inFlight)[i := old(inFlight)[i] - 1]
    {
      inFlight := inFlight[i := inFlight[i] - 1];
    }

    /** `record_attempt`, without the meter. */
    method RecordAttempt(i: nat)
      requires Valid() && i < |weights|
      modifies this`pickCount
      ensures View() == old(View()).Tried(i)
    {
      pickCount := pickCount[i := pickCount[i] + 1];
    }

    /** One attempt on a chosen member: the guard is held until the attempt is recorded. */
    method Attempt<T, E>(chosen: nat, outcome: nat -> Outcome<T, E>) returns (o: Outcome<T, E>)
      requires Valid() && chosen < |weights|
      modifies this`inFlight, this`pickCount
      ensures View() == old(View()).Tried(chosen) && o == outcome(chosen)
    {
      TakeGuard(chosen);
      o := outcome(chosen);
      RecordAttempt(chosen);
      DropGuard(chosen);
    }

    /** `run`. */
    method Run<T, E>(w: World<T, E>, clock: nat -> (nat, nat)) returns (result: Routed<T, E>, ghost tried: seq<nat>)
      requires Valid()
      modifies this`inFlight, this`pickCount
      ensures Valid()
      ensures Route(result, tried, View()) == RouteOf(pick, w, old(View()), old(States()), clock)
    {
      var healthy, soonest := HealthyMembers(clock);
      ScanWithin(States(), clock, |breakers|);
      tried := [];
      if healthy == [] {
        return AllUnavailable(soonest), tried;
      }
      var attempts, lastError := 0, None;
      while healthy != []
        invariant Valid() && Within(|weights|, healthy)
        invariant RouteOf(pick, w, old(View()), old(States()), clock) ==
          AfterTrying(tried, RouteFrom(pick, w, soonest, View(), healthy, attempts, lastError))
        decreases |healthy|
      {
        ghost var before := View();
        var choice := Choose(healthy, w.words(attempts));
        if choice.Err? {
          return BadScore(choice.error), tried;
        }
        ChosenIsHealthy(pick, View(), healthy, w.words(attempts));
        var chosen := choice.value.index;
        attempts := attempts + 1;
        var outcome := Attempt(chosen, w.outcome);
        var next := Classify(w.advance, chosen, attempts, outcome, lastError);
        if next.Break? {
          return next.result, tried + [chosen];
        }
        AfterTryingAgain(tried, [chosen],
          RouteFrom(pick, w, soonest, View(), Without(healthy, chosen), attempts, next.lastError));
        tried := tried + [chosen];
        lastError := next.lastError;
        healthy := Without(healthy, chosen);
      }
      result := if lastError.Some? then Exhausted(lastError.value) else AllUnavailable(soonest);
    }
  }
}
