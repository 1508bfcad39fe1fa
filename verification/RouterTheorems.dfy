/** What every run of the router keeps (src/router.rs:240-441, src/pick.rs:88-122). */
module RouterTheorems {
  import opened Common
  import opened Engine
  import opened Sampling
  import opened Router
  import B = Breaker
  import H = BreakerHistory

  // --- Sampled picks --------------------------------------------------------------------------

  /** The candidates a strategy would place strictly after `c`. */
  function Worse(score: Candidate -> Score, cs: seq<Candidate>, c: Candidate): set<nat> {
    set q: nat | q < |cs| && Before(score, c, cs[q])
  }

  lemma DrawnDistinct(cs: seq<Candidate>, ps: seq<nat>)
    requires DistinctIndices(cs) && Within(|cs|, ps) && Distinct(ps)
    ensures DistinctIndices(At(cs, ps))
  {}

  /** A pick over `k` sampled candidates, whatever the random words, leaves at least `k - 1`
      candidates strictly worse than its choice; without a sample, all the others. */
  lemma {:induction false} PickLeavesWorse(pick: Pick, cs: seq<Candidate>, word: nat -> nat)
    requires pick.Sane() && cs != [] && DistinctIndices(cs) && AllFinite(pick.score, cs)
    ensures var choice := Choice(pick, cs, word);
      choice.Ok? && choice.value in cs &&
      |Worse(pick.score, cs, choice.value)| >= (if pick.sample.Some? then Min(pick.sample.value, |cs|) else |cs|) - 1
  {
    var ps := Positions(pick, |cs|, word);
    DrawnDistinct(cs, ps);
    var p := LeaderIsArgmin(pick.score, At(cs, ps));
    DistinctCount(ps);
    var others := Elements(ps) - {ps[p]};
    forall q | q in others ensures q in Worse(pick.score, cs, cs[ps[p]]) {
      var i :| 0 <= i < |ps| && ps[i] == q;
      assert Before(pick.score, At(cs, ps)[p], At(cs, ps)[i]);
    }
    Subset(others, Worse(pick.score, cs, cs[ps[p]]));
  }

  /** Two choices are enough never to pick the unique worst of two or more candidates. */
  lemma {:induction false} NeverTheUniqueWorst(pick: Pick, cs: seq<Candidate>, word: nat -> nat, worst: nat)
    requires pick.sample.Some? ==> pick.sample.value >= 2
    requires |cs| >= 2 && DistinctIndices(cs) && AllFinite(pick.score, cs) && worst < |cs|
    requires forall q :: 0 <= q < |cs| && q != worst ==> Before(pick.score, cs[q], cs[worst])
    ensures Choice(pick, cs, word).Ok? && Choice(pick, cs, word).value != cs[worst]
  {
    PickLeavesWorse(pick, cs, word);
    var choice := Choice(pick, cs, word).value;
    var q :| q in Worse(pick.score, cs, choice);
    assert choice == cs[worst] ==> q != worst;
  }

  /** Power of two choices never adds a call to the one member busier than all the others. */
  lemma {:induction false} P2cAvoidsTheBusiest(cs: seq<Candidate>, word: nat -> nat, busiest: nat)
    requires |cs| >= 2 && DistinctIndices(cs) && busiest < |cs|
    requires forall q :: 0 <= q < |cs| && q != busiest ==> cs[q].inFlight < cs[busiest].inFlight
    ensures Choice(P2C, cs, word).Ok? && Choice(P2C, cs, word).value in cs
    ensures Choice(P2C, cs, word).value.inFlight < cs[busiest].inFlight
  {
    NeverTheUniqueWorst(P2C, cs, word, busiest);
    PickLeavesWorse(P2C, cs, word);
  }

  /** Any candidates can be the ones sampled, and the best of those sampled is chosen. */
  lemma {:induction false} SampleDecides(pick: Pick, cs: seq<Candidate>, t: seq<nat>) returns (word: nat -> nat)
    requires cs != [] && DistinctIndices(cs) && AllFinite(pick.score, cs)
    requires t != [] && Distinct(t) && Within(|cs|, t) && pick.sample == Some(|t|) && |t| < |cs|
    ensures exists p ::
      0 <= p < |t| && Choice(pick, cs, word) == Ok(cs[t[p]]) &&
      forall q :: 0 <= q < |t| && q != p ==> Before(pick.score, cs[t[p]], cs[t[q]])
  {
    word := EveryTupleDrawn(|cs|, t);
    DrawnDistinct(cs, t);
    var p := LeaderIsArgmin(pick.score, At(cs, t));
    forall q | 0 <= q < |t| && q != p ensures Before(pick.score, cs[t[p]], cs[t[q]]) {
      assert Before(pick.score, At(cs, t)[p], At(cs, t)[q]);
    }
  }

  /** Power of two choices can compare any two candidates, and then takes the less busy one; with the
      same load, the one inserted earlier. */
  lemma {:induction false} P2cComparesAnyTwo(cs: seq<Candidate>, a: nat, b: nat) returns (word: nat -> nat)
    requires DistinctIndices(cs) && a < |cs| && b < |cs| && a != b
    requires cs[a].inFlight < cs[b].inFlight || (cs[a].inFlight == cs[b].inFlight && cs[a].index < cs[b].index)
    ensures Choice(P2C, cs, word) == Ok(cs[a])
  {
    if |cs| > 2 {
      assert [a, b][0] == a && [a, b][1] == b;
      word := SampleDecides(P2C, cs, [a, b]);
    } else {
      word := _ => 0;
      assert At(cs, Identity(|cs|)) == cs;
      var p := LeaderIsArgmin(P2C.score, cs);
    }
  }

  /** The candidate chosen is the least by some measure, and the first of those. */
  ghost predicate LeastBy(cs: seq<Candidate>, choice: Result<Candidate, nat>, measure: Candidate -> int) {
    choice.Ok? && choice.value in cs &&
    forall q :: 0 <= q < |cs| ==>
      measure(choice.value) < measure(cs[q]) ||
      (measure(choice.value) == measure(cs[q]) && choice.value.index <= cs[q].index)
  }

  lemma {:induction false} LeastIsChosen(pick: Pick, cs: seq<Candidate>, word: nat -> nat,
      measure: Candidate -> int)
    requires cs != [] && DistinctIndices(cs) && pick.sample.None?
    requires forall c :: pick.score(c) == Finite(measure(c) as real)
    ensures LeastBy(cs, Choice(pick, cs, word), measure)
  {
    hide Leader;
    assert At(cs, Identity(|cs|)) == cs;
    var p := LeaderIsArgmin(pick.score, cs);
  }

  /** `first_healthy` chooses the member inserted first; `round_robin` the one picked least, and
      `least_in_flight` the least loaded, and of several such the one inserted first. */
  lemma {:induction false} PresetsChoose(cs: seq<Candidate>, word: nat -> nat)
    requires cs != [] && DistinctIndices(cs)
    ensures LeastBy(cs, Choice(FIRST_HEALTHY, cs, word), (c: Candidate) => c.index)
    ensures LeastBy(cs, Choice(ROUND_ROBIN, cs, word), (c: Candidate) => c.pickCount)
    ensures LeastBy(cs, Choice(LEAST_IN_FLIGHT, cs, word), (c: Candidate) => c.inFlight)
  {
    hide Choice, LeastBy;
    LeastIsChosen(FIRST_HEALTHY, cs, word, (c: Candidate) => c.index);
    LeastIsChosen(ROUND_ROBIN, cs, word, (c: Candidate) => c.pickCount);
    LeastIsChosen(LEAST_IN_FLIGHT, cs, word, (c: Candidate) => c.inFlight);
  }

  /** Multiplied out: one more call would load `a` less than `b` for its weight. */
  predicate LighterBy(a: Candidate, b: Candidate)
    requires a.weight > 0.0 && b.weight > 0.0
  {
    (a.inFlight as real + 1.0) * b.weight < (b.inFlight as real + 1.0) * a.weight
  }

  lemma WeightedBefore(a: Candidate, b: Candidate)
    requires a.weight > 0.0 && b.weight > 0.0
    ensures Before(WEIGHTED_LEAST_IN_FLIGHT.score, a, b) <==>
      LighterBy(a, b) || (!LighterBy(b, a) && a.index < b.index)
  {}

  /** `weighted_least_in_flight` chooses a member that one more call would load the least for its
      weight, and of several such the one inserted first; members have positive weights. */
  lemma {:induction false} WeightedChooses(cs: seq<Candidate>, word: nat -> nat)
    requires cs != [] && DistinctIndices(cs) && forall q :: 0 <= q < |cs| ==> cs[q].weight > 0.0
    ensures var choice := Choice(WEIGHTED_LEAST_IN_FLIGHT, cs, word);
      choice.Ok? && choice.value in cs &&
      forall q :: 0 <= q < |cs| ==>
        LighterBy(choice.value, cs[q]) || (!LighterBy(cs[q], choice.value) && choice.value.index <= cs[q].index)
  {
    hide Before, LighterBy;
    assert At(cs, Identity(|cs|)) == cs;
    var p := LeaderIsArgmin(WEIGHTED_LEAST_IN_FLIGHT.score, cs);
    forall q | 0 <= q < |cs|
      ensures LighterBy(cs[p], cs[q]) || (!LighterBy(cs[q], cs[p]) && cs[p].index <= cs[q].index)
    {
      WeightedBefore(cs[p], cs[q]);
      WeightedBefore(cs[q], cs[p]);
    }
  }

  // --- What every run keeps -----------------------------------------------------------------------

  /** One more pick counted for every member in a list. */
  function TriedAll(l: Loads, tried: seq<nat>): (l': Loads)
    requires l.Sane() && Within(|l.weights|, tried)
    ensures l'.Sane() && l'.inFlight == l.inFlight && l'.weights == l.weights
    decreases |tried|
  {
    if tried == [] then l else TriedAll(l.Tried(tried[0]), tried[1..])
  }

  lemma {:induction false} TriedOnce(l: Loads, tried: seq<nat>, i: nat)
    requires l.Sane() && Within(|l.weights|, tried) && Distinct(tried) && i < |l.weights|
    ensures TriedAll(l, tried).pickCount[i] == l.pickCount[i] + (if i in tried then 1 else 0)
    decreases |tried|
  {
    if tried != [] {
      assert tried == [tried[0]] + tried[1..];
      assert tried[0] !in tried[1..];
      TriedOnce(l.Tried(tried[0]), tried[1..], i);
    }
  }

  ghost predicate KeepsBooks<T, E>(l: Loads, healthy: seq<nat>, attempts: nat, r: Route<T, E>)
    requires l.Sane()
  {
    Distinct(r.tried) && (forall i :: 0 <= i < |r.tried| ==> r.tried[i] in healthy) &&
    Within(|l.weights|, r.tried) && r.loads == TriedAll(l, r.tried) &&
    (r.result.Served? ==>
      r.tried != [] && r.result.target == r.tried[|r.tried| - 1] && r.result.attempts == attempts + |r.tried|)
  }

  /** One turn of the failover loop, once a member is chosen. */
  lemma {:induction false} RouteUnfolds<T, E>(pick: Pick, w: Router.World<T, E>, soonest: Option<nat>, l: Loads,
      healthy: seq<nat>,
      attempts: nat, lastError: Option<E>, i: nat)
    requires pick.Sane() && l.Sane() && Within(|l.weights|, healthy) && i in healthy
    requires Choice(pick, Candidates(l, healthy), w.words(attempts)) == Ok(l.Member(i))
    ensures RouteFrom(pick, w, soonest, l, healthy, attempts, lastError) ==
      match Classify(w.advance, i, attempts + 1, w.outcome(i), lastError)
      case Break(result) => Route(result, [i], l.Tried(i))
      case Continue(lastError') =>
        AfterTrying([i], RouteFrom(pick, w, soonest, l.Tried(i), Without(healthy, i), attempts + 1, lastError'))
  {
    hide Choice, Classify;
  }

  lemma {:induction false} BooksStep<T, E>(l: Loads, healthy: seq<nat>, i: nat, attempts: nat, rest: Route<T, E>)
    requires l.Sane() && i in healthy && i < |l.weights|
    requires KeepsBooks(l.Tried(i), Without(healthy, i), attempts + 1, rest)
    ensures KeepsBooks(l, healthy, attempts, AfterTrying([i], rest))
  {
    var r := AfterTrying([i], rest);
    assert r.tried[1..] == rest.tried;
  }

  lemma {:induction false} LastBooks<T, E>(advance: E -> bool, l: Loads, healthy: seq<nat>, i: nat, attempts: nat,
      outcome: Outcome<T, E>, lastError: Option<E>)
    requires l.Sane() && i in healthy && i < |l.weights|
    ensures var next := Classify(advance, i, attempts + 1, outcome, lastError);
      next.Break? ==> KeepsBooks(l, healthy, attempts, Route(next.result, [i], l.Tried(i)))
  {
    assert [i][1..] == [];
    assert TriedAll(l, [i]) == TriedAll(l.Tried(i), []);
  }

  lemma NoBooks<T, E>(l: Loads, healthy: seq<nat>, attempts: nat)
    requires l.Sane()
    ensures forall r: Routed<T, E> :: !r.Served? ==> KeepsBooks(l, healthy, attempts, Route(r, [], l))
  {}

  lemma {:induction false} RouteKeepsBooks<T, E>(pick: Pick, w: Router.World<T, E>, soonest: Option<nat>, l: Loads,
      healthy: seq<nat>,
      attempts: nat, lastError: Option<E>)
    requires pick.Sane() && l.Sane() && Within(|l.weights|, healthy) && Distinct(healthy)
    ensures KeepsBooks(l, healthy, attempts, RouteFrom(pick, w, soonest, l, healthy, attempts, lastError))
    decreases |healthy|
  {
    hide Choice, Classify, KeepsBooks;
    if healthy != [] && Choice(pick, Candidates(l, healthy), w.words(attempts)).Ok? {
      ChosenIsHealthy(pick, l, healthy, w.words(attempts));
      var i := Choice(pick, Candidates(l, healthy), w.words(attempts)).value.index;
      RouteUnfolds(pick, w, soonest, l, healthy, attempts, lastError, i);
      match Classify(w.advance, i, attempts + 1, w.outcome(i), lastError)
      case Break(result) =>
        LastBooks(w.advance, l, healthy, i, attempts, w.outcome(i), lastError);
      case Continue(lastError') =>
        RouteKeepsBooks(pick, w, soonest, l.Tried(i), Without(healthy, i), attempts + 1, lastError');
        BooksStep(l, healthy, i, attempts,
          RouteFrom(pick, w, soonest, l.Tried(i), Without(healthy, i), attempts + 1, lastError'));
    } else {
      NoBooks<T, E>(l, healthy, attempts);
    }
  }

  /** Whatever the strategy, the scores and the outcomes: a run tries each member at most once and
      only members the scan found healthy, counts one pick for each member it tried and none for
      the others, leaves every in-flight count as it found it, and reports the member tried last
      with the number of members tried. */
  lemma {:induction false} RunKeepsBooks<T, E>(pick: Pick, w: Router.World<T, E>, l: Loads,
      states: seq<Option<B.State>>, clock: nat -> (nat, nat), i: nat)
    requires pick.Sane() && l.Sane() && |states| == |l.weights| && i < |l.weights|
    ensures var r := RouteOf(pick, w, l, states, clock);
      Distinct(r.tried) && r.loads.inFlight == l.inFlight && |r.loads.pickCount| == |l.pickCount| &&
      (i in r.tried ==> i in Scan(states, clock, |states|).0) &&
      r.loads.pickCount[i] == l.pickCount[i] + (if i in r.tried then 1 else 0) &&
      (r.result.Served? ==>
        r.tried != [] && r.result.target == r.tried[|r.tried| - 1] && r.result.attempts == |r.tried|)
  {
    hide RouteFrom;
    ScanWithin(states, clock, |states|);
    var (healthy, soonest) := Scan(states, clock, |states|);
    RouteKeepsBooks(pick, w, soonest, l, healthy, 0, None);
    var r := RouteOf(pick, w, l, states, clock);
    assert forall j :: 0 <= j < |r.tried| ==> r.tried[j] in healthy;
    TriedOnce(l, r.tried, i);
  }

  // --- Failover is a selection sort ----------------------------------------------------------------

  ghost predicate FiniteOn(score: Candidate -> Score, l: Loads, healthy: seq<nat>)
    requires l.Sane()
  {
    forall i :: 0 <= i < |healthy| && healthy[i] < |l.weights| ==> score(l.Member(healthy[i])).Finite?
  }

  /** The members in order of preference, under fixed loads. */
  function Order(score: Candidate -> Score, l: Loads, healthy: seq<nat>): seq<nat>
    requires l.Sane() && Within(|l.weights|, healthy)
    decreases |healthy|
  {
    if healthy == [] then []
    else
      LeaderIsOne(score, Candidates(l, healthy));
      match Leader(score, Candidates(l, healthy))
      case Err(_) => []
      case Ok(c) => [c.index] + Order(score, l, Without(healthy, c.index))
  }

  lemma {:induction false} WithoutKeeps(healthy: seq<nat>, chosen: nat)
    ensures forall i :: i in healthy && i != chosen ==> i in Without(healthy, chosen)
  {
    if healthy != [] {
      WithoutKeeps(healthy[1..], chosen);
    }
  }

  ghost predicate SortedBy(score: Candidate -> Score, l: Loads, order: seq<nat>)
    requires l.Sane() && Within(|l.weights|, order)
  {
    forall a, b :: 0 <= a < b < |order| ==> Before(score, l.Member(order[a]), l.Member(order[b]))
  }

  lemma {:induction false} OrderCons(score: Candidate -> Score, l: Loads, healthy: seq<nat>, p: nat, rest: seq<nat>,
      order: seq<nat>)
    requires l.Sane() && Within(|l.weights|, healthy) && Leads(score, Candidates(l, healthy), p)
    requires forall i :: i in rest <==> i in healthy && i != healthy[p]
    requires Within(|l.weights|, order) && Distinct(order) && SortedBy(score, l, order)
    requires forall i :: i in order <==> i in rest
    ensures var all := [healthy[p]] + order;
      Within(|l.weights|, all) && Distinct(all) && (forall i :: i in all <==> i in healthy) && SortedBy(score, l, all)
  {
    var cs := Candidates(l, healthy);
    var all := [healthy[p]] + order;
    forall b | 0 < b < |all| ensures Before(score, l.Member(all[0]), l.Member(all[b])) && all[b] != all[0] {
      assert all[b] == order[b - 1] && order[b - 1] in order;
      assert all[b] in healthy;
      var q :| 0 <= q < |healthy| && healthy[q] == all[b];
      assert Before(score, cs[p], cs[q]);
    }
    assert forall a, b :: 0 < a < b < |all| ==> all[a] == order[a - 1] && all[b] == order[b - 1];
  }

  /** The order is a permutation of the members, strictly sorted. */
  lemma {:induction false} OrderSorts(score: Candidate -> Score, l: Loads, healthy: seq<nat>)
    requires l.Sane() && Within(|l.weights|, healthy) && Distinct(healthy) && FiniteOn(score, l, healthy)
    ensures var order := Order(score, l, healthy);
      |order| == |healthy| && Within(|l.weights|, order) && Distinct(order) &&
      (forall i :: i in order <==> i in healthy) && SortedBy(score, l, order)
    decreases |healthy|
  {
    if healthy != [] {
      var cs := Candidates(l, healthy);
      var p := LeaderIsArgmin(score, cs);
      var rest := Without(healthy, healthy[p]);
      WithoutKeeps(healthy, healthy[p]);
      OrderSorts(score, l, rest);
      OrderCons(score, l, healthy, p, rest, Order(score, l, rest));
    }
  }

  ghost predicate SameOn(l: Loads, l': Loads, healthy: seq<nat>)
    requires l.Sane() && l'.Sane() && |l.weights| == |l'.weights| && Within(|l.weights|, healthy)
  {
    forall i :: 0 <= i < |healthy| ==> l.Member(healthy[i]) == l'.Member(healthy[i])
  }

  lemma {:induction false} OrderSame(score: Candidate -> Score, l: Loads, l': Loads, healthy: seq<nat>)
    requires l.Sane() && l'.Sane() && |l.weights| == |l'.weights| && Within(|l.weights|, healthy)
    requires SameOn(l, l', healthy)
    ensures Order(score, l, healthy) == Order(score, l', healthy)
    decreases |healthy|
  {
    if healthy != [] {
      assert Candidates(l, healthy) == Candidates(l', healthy);
      LeaderIsOne(score, Candidates(l, healthy));
      if Leader(score, Candidates(l, healthy)).Ok? {
        var i := Leader(score, Candidates(l, healthy)).value.index;
        OrderSame(score, l, l', Without(healthy, i));
      }
    }
  }

  /** A success or an error that does not advance. */
  predicate Decisive<T, E>(w: Router.World<T, E>, i: nat) {
    w.outcome(i).Success? || (w.outcome(i).cause.Operation? && !w.advance(w.outcome(i).cause.source))
  }

  /** The last operation error among some members' outcomes, or the one before them. */
  function LastError<T, E>(w: Router.World<T, E>, before: Option<E>, tried: seq<nat>): Option<E>
    decreases |tried|
  {
    if tried == [] then before
    else
      var o := w.outcome(tried[0]);
      LastError(w, if o.Failure? && o.cause.Operation? then Some(o.cause.source) else before, tried[1..])
  }

  /** A run that walks down an order: up to its first decisive outcome, which is its result; with
      none, through all of it, and the result is the last operation error or the park hint. */
  ghost predicate Walks<T, E>(w: Router.World<T, E>, soonest: Option<nat>, order: seq<nat>, attempts: nat,
      lastError: Option<E>, r: Route<T, E>)
  {
    r.tried <= order &&
    (forall i :: 0 <= i < |r.tried| - 1 ==> !Decisive(w, r.tried[i])) &&
    if r.tried != [] && Decisive(w, r.tried[|r.tried| - 1]) then
      var last := r.tried[|r.tried| - 1];
      (w.outcome(last).Success? ==> r.result == Served(w.outcome(last).value, last, attempts + |r.tried|)) &&
      (w.outcome(last).Failure? ==> r.result == Router.Exhausted(w.outcome(last).cause.source))
    else
      r.tried == order &&
      var e := LastError(w, lastError, order);
      r.result == if e.Some? then Router.Exhausted(e.value) else AllUnavailable(soonest)
  }

  /** The strategy looks at all candidates. */
  predicate LooksAtAll(pick: Pick, n: nat) {
    pick.sample.Some? ==> pick.sample.value >= n
  }

  lemma {:induction false} ChoiceOfAll(pick: Pick, cs: seq<Candidate>, word: nat -> nat)
    requires pick.Sane() && cs != [] && LooksAtAll(pick, |cs|)
    ensures Choice(pick, cs, word) == Leader(pick.score, cs)
  {
    assert At(cs, Identity(|cs|)) == cs;
  }

  lemma {:induction false} WalksCons<T, E>(w: Router.World<T, E>, soonest: Option<nat>, i: nat, order: seq<nat>,
      attempts: nat,
      lastError: Option<E>, rest: Route<T, E>)
    requires !Decisive(w, i)
    requires Walks(w, soonest, order, attempts + 1, LastError(w, lastError, [i]), rest)
    ensures Walks(w, soonest, [i] + order, attempts, lastError, AfterTrying([i], rest))
  {
    var r := AfterTrying([i], rest);
    assert ([i] + order)[1..] == order && [i][1..] == [];
    assert forall k :: 0 < k < |r.tried| ==> r.tried[k] == rest.tried[k - 1];
    assert LastError(w, lastError, [i] + order) == LastError(w, LastError(w, lastError, [i]), order);
  }

  lemma {:induction false} RouteWalks<T, E>(pick: Pick, w: Router.World<T, E>, soonest: Option<nat>, l: Loads,
      healthy: seq<nat>,
      attempts: nat, lastError: Option<E>)
    requires pick.Sane() && l.Sane() && Within(|l.weights|, healthy) && Distinct(healthy)
    requires FiniteOn(pick.score, l, healthy) && LooksAtAll(pick, |healthy|)
    ensures Walks(w, soonest, Order(pick.score, l, healthy), attempts, lastError,
      RouteFrom(pick, w, soonest, l, healthy, attempts, lastError))
    decreases |healthy|
  {
    if healthy != [] {
      hide Walks, Before;
      var cs := Candidates(l, healthy);
      ChoiceOfAll(pick, cs, w.words(attempts));
      var p := LeaderIsArgmin(pick.score, cs);
      var i := healthy[p];
      assert cs[p].index == i;
      RouteStep(pick, w, soonest, l, healthy, attempts, lastError, i);
    } else {
      assert RouteFrom(pick, w, soonest, l, healthy, attempts, lastError).tried == [];
    }
  }

  /** A decisive outcome ends the walk; any other only folds into the last error. */
  lemma {:induction false} ClassifyStep<T, E>(w: Router.World<T, E>, soonest: Option<nat>, l: Loads, i: nat,
      order: seq<nat>,
      attempts: nat, lastError: Option<E>)
    requires l.Sane() && i < |l.weights|
    ensures match Classify(w.advance, i, attempts + 1, w.outcome(i), lastError)
      case Break(result) => Walks(w, soonest, [i] + order, attempts, lastError, Route(result, [i], l.Tried(i)))
      case Continue(lastError') => !Decisive(w, i) && lastError' == LastError(w, lastError, [i])
  {
    assert [i][1..] == [];
  }

  lemma {:induction false} RouteStep<T, E>(pick: Pick, w: Router.World<T, E>, soonest: Option<nat>, l: Loads,
      healthy: seq<nat>,
      attempts: nat, lastError: Option<E>, i: nat)
    requires pick.Sane() && l.Sane() && Within(|l.weights|, healthy) && Distinct(healthy) && i in healthy
    requires FiniteOn(pick.score, l, healthy) && LooksAtAll(pick, |healthy|)
    requires Choice(pick, Candidates(l, healthy), w.words(attempts)) == Leader(pick.score, Candidates(l, healthy))
    requires Leader(pick.score, Candidates(l, healthy)) == Ok(l.Member(i))
    ensures Walks(w, soonest, Order(pick.score, l, healthy), attempts, lastError,
      RouteFrom(pick, w, soonest, l, healthy, attempts, lastError))
    decreases |healthy|, 0
  {
    hide Choice, Leader, Walks, Classify, LastError, RouteFrom;
    var rest := Without(healthy, i);
    var order := Order(pick.score, l, rest);
    assert Order(pick.score, l, healthy) == [i] + order;
    RouteUnfolds(pick, w, soonest, l, healthy, attempts, lastError, i);
    ClassifyStep(w, soonest, l, i, order, attempts, lastError);
    match Classify(w.advance, i, attempts + 1, w.outcome(i), lastError)
    case Break(result) =>
    case Continue(lastError') =>
      assert SameOn(l, l.Tried(i), rest);
      OrderSame(pick.score, l, l.Tried(i), rest);
      RouteWalks(pick, w, soonest, l.Tried(i), rest, attempts + 1, lastError');
      WalksCons(w, soonest, i, order, attempts, lastError,
        RouteFrom(pick, w, soonest, l.Tried(i), rest, attempts + 1, lastError'));
  }

  /** In an isolated run under a strategy that scores every healthy candidate on its own state,
      the members are tried in exactly the sorted order of the healthy set found at the start; the
      result is that of the first decisive member, else the last operation error, else none. */
  lemma {:induction false} FailoverIsSelectionSort<T, E>(pick: Pick, w: Router.World<T, E>, l: Loads,
      states: seq<Option<B.State>>, clock: nat -> (nat, nat))
    requires pick.Sane() && l.Sane() && |states| == |l.weights|
    requires FiniteOn(pick.score, l, Scan(states, clock, |states|).0)
    requires LooksAtAll(pick, |Scan(states, clock, |states|).0|)
    ensures var (healthy, soonest) := Scan(states, clock, |states|);
      Within(|l.weights|, healthy) &&
      var order := Order(pick.score, l, healthy);
      Within(|l.weights|, order) && Distinct(order) && (forall i :: i in order <==> i in healthy) &&
      SortedBy(pick.score, l, order) &&
      Walks(w, soonest, order, 0, None, RouteOf(pick, w, l, states, clock))
  {
    hide Order, SortedBy, Walks, RouteFrom;
    ScanWithin(states, clock, |states|);
    var (healthy, soonest) := Scan(states, clock, |states|);
    OrderSorts(pick.score, l, healthy);
    RouteWalks(pick, w, soonest, l, healthy, 0, None);
  }

  ghost predicate Ascending(s: seq<nat>) {
    forall i, j :: 0 <= i < j < |s| ==> s[i] < s[j]
  }

  lemma EarlierIsBefore(a: Candidate, b: Candidate)
    ensures Before(FIRST_HEALTHY.score, a, b) <==> a.index < b.index
  {}

  lemma {:induction false} FirstHealthyLeads(l: Loads, healthy: seq<nat>)
    requires l.Sane() && Within(|l.weights|, healthy) && Ascending(healthy) && healthy != []
    ensures Leader(FIRST_HEALTHY.score, Candidates(l, healthy)) == Ok(l.Member(healthy[0]))
  {
    hide Before, Leader;
    var cs := Candidates(l, healthy);
    var p := LeaderIsArgmin(FIRST_HEALTHY.score, cs);
    EarlierIsBefore(cs[p], cs[0]);
  }

  lemma WithoutFirst(healthy: seq<nat>)
    requires Ascending(healthy) && healthy != []
    ensures Without(healthy, healthy[0]) == healthy[1..]
  {}

  lemma {:induction false} OrderUnfolds(score: Candidate -> Score, l: Loads, healthy: seq<nat>, i: nat)
    requires l.Sane() && Within(|l.weights|, healthy) && healthy != [] && i < |l.weights|
    requires Leader(score, Candidates(l, healthy)) == Ok(l.Member(i))
    ensures Order(score, l, healthy) == [i] + Order(score, l, Without(healthy, i))
  {
    hide Leader;
  }

  lemma NoOrder(score: Candidate -> Score, l: Loads)
    requires l.Sane()
    ensures Order(score, l, []) == []
  {}

  /** Ordered failover prefers earlier members. */
  lemma {:induction false} FirstHealthyOrder(l: Loads, healthy: seq<nat>)
    requires l.Sane() && Within(|l.weights|, healthy) && Ascending(healthy)
    ensures Order(FIRST_HEALTHY.score, l, healthy) == healthy
    decreases |healthy|
  {
    hide Order, Leader, Without;
    if healthy != [] {
      FirstHealthyLeads(l, healthy);
      OrderUnfolds(FIRST_HEALTHY.score, l, healthy, healthy[0]);
      WithoutFirst(healthy);
      FirstHealthyOrder(l, healthy[1..]);
      assert healthy == [healthy[0]] + healthy[1..];
    } else {
      NoOrder(FIRST_HEALTHY.score, l);
    }
  }

  /** Under `first_healthy` an isolated run tries the healthy members in the order they were
      registered, up to the first decisive outcome. */
  lemma {:induction false} OrderedFailover<T, E>(w: Router.World<T, E>, l: Loads, states: seq<Option<B.State>>,
      clock: nat -> (nat, nat))
    requires l.Sane() && |states| == |l.weights|
    ensures var (healthy, soonest) := Scan(states, clock, |states|);
      Ascending(healthy) && Walks(w, soonest, healthy, 0, None, RouteOf(FIRST_HEALTHY, w, l, states, clock))
  {
    hide Order, SortedBy, Walks, RouteFrom;
    ScanWithin(states, clock, |states|);
    FailoverIsSelectionSort(FIRST_HEALTHY, w, l, states, clock);
    FirstHealthyOrder(l, Scan(states, clock, |states|).0);
  }

  // --- Exactly when a run finds everybody unavailable ------------------------------------------------

  /** A failure that carries no operation error: a timeout, an open circuit, a refusal, or an
      exhausted budget. */
  predicate FailsWithoutError<T, E>(w: Router.World<T, E>, m: nat) {
    w.outcome(m).Failure? && !w.outcome(m).cause.Operation?
  }

  lemma {:induction false} FiniteChoice(pick: Pick, l: Loads, healthy: seq<nat>, word: nat -> nat) returns (i: nat)
    requires pick.Sane() && l.Sane() && Within(|l.weights|, healthy) && Distinct(healthy) && healthy != []
    requires FiniteOn(pick.score, l, healthy)
    ensures i in healthy && i < |l.weights| && Choice(pick, Candidates(l, healthy), word) == Ok(l.Member(i))
  {
    PickLeavesWorse(pick, Candidates(l, healthy), word);
    ChosenIsHealthy(pick, l, healthy, word);
    i := Choice(pick, Candidates(l, healthy), word).value.index;
  }

  /** A run that ends in `AllUnavailable` has tried everybody in vain, whatever the scores. */
  lemma {:induction false} UnavailableTriedAll<T, E>(pick: Pick, w: Router.World<T, E>, soonest: Option<nat>, l: Loads,
      healthy: seq<nat>, attempts: nat, lastError: Option<E>)
    requires pick.Sane() && l.Sane() && Within(|l.weights|, healthy) && Distinct(healthy)
    requires RouteFrom(pick, w, soonest, l, healthy, attempts, lastError).result.AllUnavailable?
    ensures var r := RouteFrom(pick, w, soonest, l, healthy, attempts, lastError);
      lastError.None? && r.result.nextAvailableAt == soonest &&
      forall m :: m in healthy ==> FailsWithoutError(w, m) && m in r.tried
    decreases |healthy|
  {
    if healthy != [] {
      hide Choice;
      ChosenIsHealthy(pick, l, healthy, w.words(attempts));
      var i := Choice(pick, Candidates(l, healthy), w.words(attempts)).value.index;
      RouteUnfolds(pick, w, soonest, l, healthy, attempts, lastError, i);
      WithoutKeeps(healthy, i);
      var next := Classify(w.advance, i, attempts + 1, w.outcome(i), lastError);
      UnavailableTriedAll(pick, w, soonest, l.Tried(i), Without(healthy, i), attempts + 1, next.lastError);
    }
  }

  /** With finite scores, a run in which everybody fails without an operation error ends so. */
  lemma {:induction false} RouteUnavailable<T, E>(pick: Pick, w: Router.World<T, E>, soonest: Option<nat>, l: Loads,
      healthy: seq<nat>, attempts: nat)
    requires pick.Sane() && l.Sane() && Within(|l.weights|, healthy) && Distinct(healthy)
    requires FiniteOn(pick.score, l, healthy) && forall m :: m in healthy ==> FailsWithoutError(w, m)
    ensures RouteFrom(pick, w, soonest, l, healthy, attempts, None).result.AllUnavailable?
    decreases |healthy|
  {
    if healthy != [] {
      hide Choice, FiniteOn;
      var i := FiniteChoice(pick, l, healthy, w.words(attempts));
      RouteUnfolds(pick, w, soonest, l, healthy, attempts, None, i);
      RouteUnavailable(pick, w, soonest, l.Tried(i), Without(healthy, i), attempts + 1);
    }
  }

  /** Under any strategy, sampled or not: a run that ends in `AllUnavailable` has tried every healthy
      member, and each failed without an operation error; and with finite scores on the healthy
      members, that is exactly when it ends so.  So `AllUnavailable` means that nothing was attempted
      exactly when no member was healthy. */
  lemma {:induction false} UnavailableExactlyWhen<T, E>(pick: Pick, w: Router.World<T, E>, l: Loads,
      states: seq<Option<B.State>>, clock: nat -> (nat, nat))
    requires pick.Sane() && l.Sane() && |states| == |l.weights|
    ensures var (healthy, soonest) := Scan(states, clock, |states|);
      var r := RouteOf(pick, w, l, states, clock);
      (r.result.AllUnavailable? ==>
        r.result.nextAvailableAt == soonest && (forall m :: m in r.tried <==> m in healthy) &&
        (r.tried == [] <==> healthy == []) && forall m :: m in healthy ==> FailsWithoutError(w, m)) &&
      (FiniteOn(pick.score, l, healthy) && (forall m :: m in healthy ==> FailsWithoutError(w, m)) ==>
        r.result.AllUnavailable?)
  {
    hide RouteFrom, FiniteOn, FailsWithoutError;
    ScanWithin(states, clock, |states|);
    var (healthy, soonest) := Scan(states, clock, |states|);
    var r := RouteOf(pick, w, l, states, clock);
    if r.result.AllUnavailable? {
      UnavailableTriedAll(pick, w, soonest, l, healthy, 0, None);
      RouteKeepsBooks(pick, w, soonest, l, healthy, 0, None);
      assert forall m :: m in r.tried ==> m in healthy;
      assert healthy != [] ==> healthy[0] in healthy;
      assert r.tried != [] ==> r.tried[0] in r.tried;
    }
    if FiniteOn(pick.score, l, healthy) && forall m :: m in healthy ==> FailsWithoutError(w, m) {
      RouteUnavailable(pick, w, soonest, l, healthy, 0);
    }
  }

  lemma {:induction false} ScanOne(states: seq<Option<B.State>>, clock: nat -> (nat, nat))
    requires |states| == 1 && states[0].None?
    ensures Scan(states, clock, 1) == ([0], None)
  {
    assert Scan(states, clock, 0) == ([], None);
    assert [] + [0] == [0];
  }

  lemma {:induction false} OnlyZero(tried: seq<nat>)
    requires Distinct(tried) && 0 in tried && forall i :: 0 <= i < |tried| ==> tried[i] == 0
    ensures tried == [0]
  {
    DistinctCount(tried);
    assert Elements(tried) == {0};
  }

  /** The documented reading of `AllUnavailable` does fail: one healthy member that times out is
      attempted, and the run still ends in it. */
  lemma {:induction false} UnavailableAfterAttempt<T, E>(w: Router.World<T, E>, clock: nat -> (nat, nat))
    requires w.outcome(0).Failure? && w.outcome(0).cause.AttemptTimeout?
    ensures RouteOf(FIRST_HEALTHY, w, Loads([1.0], [0], [0]), [None], clock).result == AllUnavailable(None)
    ensures RouteOf(FIRST_HEALTHY, w, Loads([1.0], [0], [0]), [None], clock).tried == [0]
  {
    hide RouteFrom, Order;
    var l, states := Loads([1.0], [0], [0]), [None];
    ScanOne(states, clock);
    UnavailableExactlyWhen(FIRST_HEALTHY, w, l, states, clock);
    RunKeepsBooks(FIRST_HEALTHY, w, l, states, clock, 0);
    var tried := RouteOf(FIRST_HEALTHY, w, l, states, clock).tried;
    assert 0 in [0];
    forall i | 0 <= i < |tried| ensures tried[i] == 0 {
      assert tried[i] in tried && tried[i] in [0];
    }
    OnlyZero(tried);
  }

  // --- The park hint is exact ------------------------------------------------------------------------

  function StatesOf(configs: seq<Option<B.Config>>, histories: seq<seq<B.Event>>): (states: seq<Option<B.State>>)
    requires |configs| == |histories|
    ensures |states| == |configs|
  {
    seq(|configs|, i requires 0 <= i < |configs| =>
      if configs[i].Some? then Some(B.Run(configs[i].value, histories[i])) else None)
  }

  /** A breaker that is open and cooling at `now`. */
  predicate CoolingAt(s: Option<B.State>, now: nat) {
    s.Some? && s.value.phase == B.Open && s.value.openUntil.Some? && now < s.value.openUntil.value
  }

  /** No member is healthy, and the hint is the least end of a cooldown. */
  ghost predicate HintIs(states: seq<Option<B.State>>, now: nat, n: nat, hint: Option<nat>)
    requires n <= |states|
  {
    (forall j :: 0 <= j < n ==> CoolingAt(states[j], now)) &&
    (n > 0 ==> hint.Some?) &&
    (forall j :: 0 <= j < n ==> hint.value <= states[j].value.openUntil.value) &&
    (n > 0 ==> exists j :: 0 <= j < n && hint == states[j].value.openUntil)
  }

  lemma {:induction false} ScanHint(states: seq<Option<B.State>>, clock: nat -> (nat, nat), now: nat, i: nat)
    requires i <= |states| && Scan(states, clock, i).0 == []
    requires forall j :: 0 <= j < i ==> clock(j) == (now, now)
    requires forall j :: 0 <= j < i && states[j].Some? && states[j].value.phase == B.Open ==>
      states[j].value.openUntil.Some?
    ensures HintIs(states, now, i, Scan(states, clock, i).1)
  {
    if i > 0 {
      ScanHint(states, clock, now, i - 1);
      var soonest := Scan(states, clock, i - 1).1;
      assert CoolingAt(states[i - 1], now);
      var until := states[i - 1].value.openUntil.value;
      if soonest.Some? && soonest.value < until {
        var j :| 0 <= j < i - 1 && soonest == states[j].value.openUntil;
      }
    }
  }

  /** A member polled Open, whose gate rejects, at every instant from `from` until `to`. */
  ghost predicate RejectsThroughout(c: Option<B.Config>, s: Option<B.State>, from: nat, to: nat) {
    c.Some? && s.Some? &&
    forall t: nat :: from <= t < to ==>
      B.StateAt(s.value, t) == B.Open && B.GateAnswer(c.value, s.value, t) == B.Reject
  }

  /** A member polled HalfOpen whose gate admits. */
  ghost predicate ProbesAt(c: Option<B.Config>, s: Option<B.State>, t: nat) {
    c.Some? && s.Some? && B.StateAt(s.value, t) == B.HalfOpen &&
    B.GateAnswer(c.value, s.value, t) == B.Admit(B.HalfOpen)
  }

  /** When a scan at one instant finds no healthy member, the park hint is exact: with no votes in
      between, every member reads Open and rejects at every instant before it, and at the hint
      some member reads HalfOpen and its gate admits. */
  lemma {:induction false} ParkHintExact(configs: seq<Option<B.Config>>, histories: seq<seq<B.Event>>,
      clock: nat -> (nat, nat), now: nat)
    requires |configs| == |histories| >= 1
    requires forall i :: 0 <= i < |configs| && configs[i].Some? ==> configs[i].value.Sane()
    requires forall i :: 0 <= i < |configs| ==> clock(i) == (now, now)
    requires Scan(StatesOf(configs, histories), clock, |configs|).0 == []
    ensures var states := StatesOf(configs, histories);
      var hint := Scan(states, clock, |configs|).1;
      hint.Some? && now < hint.value &&
      (forall i :: 0 <= i < |configs| ==> RejectsThroughout(configs[i], states[i], now, hint.value)) &&
      exists i :: 0 <= i < |configs| && ProbesAt(configs[i], states[i], hint.value)
  {
    var states := StatesOf(configs, histories);
    forall i | 0 <= i < |configs| && states[i].Some? && states[i].value.phase == B.Open
      ensures states[i].value.openUntil.Some?
    {
      H.RunCoherent(configs[i].value, histories[i]);
    }
    ScanHint(states, clock, now, |configs|);
    var hint := Scan(states, clock, |configs|).1;
    var i :| 0 <= i < |configs| && hint == states[i].value.openUntil;
    assert CoolingAt(states[i], now);
    assert ProbesAt(configs[i], states[i], hint.value);
    forall j | 0 <= j < |configs| ensures RejectsThroughout(configs[j], states[j], now, hint.value) {
      assert CoolingAt(states[j], now);
      forall t: nat | now <= t < hint.value
        ensures B.StateAt(states[j].value, t) == B.Open
        ensures B.GateAnswer(configs[j].value, states[j].value, t) == B.Reject
      {}
    }
  }

  /** A member is found healthy exactly when it has no breaker or its breaker is not polled Open. */
  lemma {:induction false} ScanFindsHealthy(states: seq<Option<B.State>>, clock: nat -> (nat, nat), i: nat, m: nat)
    requires m < i <= |states|
    ensures m in Scan(states, clock, i).0 <==> states[m].None? || B.StateAt(states[m].value, clock(m).0) != B.Open
  {
    ScanWithin(states, clock, i - 1);
    if m < i - 1 {
      ScanFindsHealthy(states, clock, i - 1, m);
    }
  }

  // --- Every run, step by step ------------------------------------------------------------------------

  /** Open when it was polled, and still cooling when asked how long. */
  predicate Cools(states: seq<Option<B.State>>, clock: nat -> (nat, nat), j: nat)
    requires j < |states|
  {
    CoolingAt(states[j], clock(j).0) && CoolingAt(states[j], clock(j).1)
  }

  /** The hint is the least end of a cooldown among the first `n` members, if any of them cools. */
  ghost predicate SoonestOf(states: seq<Option<B.State>>, clock: nat -> (nat, nat), n: nat, hint: Option<nat>)
    requires n <= |states|
  {
    if hint.None? then forall j :: 0 <= j < n ==> !Cools(states, clock, j)
    else
      (exists j :: 0 <= j < n && Cools(states, clock, j) && states[j].value.openUntil == hint) &&
      forall j :: 0 <= j < n && Cools(states, clock, j) ==> hint.value <= states[j].value.openUntil.value
  }

  /** Whatever the other members are and whenever each is read, the scan's hint is the soonest end of a
      cooldown among all members found cooling. */
  lemma {:induction false} HintIsSoonest(states: seq<Option<B.State>>, clock: nat -> (nat, nat), n: nat)
    requires n <= |states|
    ensures SoonestOf(states, clock, n, Scan(states, clock, n).1)
  {
    if n > 0 {
      HintIsSoonest(states, clock, n - 1);
      var before := Scan(states, clock, n - 1).1;
      if before.Some? {
        var j :| 0 <= j < n - 1 && Cools(states, clock, j) && states[j].value.openUntil == before;
        assert Cools(states, clock, j);
      }
      if Cools(states, clock, n - 1) {
        assert Scan(states, clock, n).1.Some?;
      }
    }
  }

  /** The hint a run reports is the soonest end of a cooldown among all members, healthy ones or not. */
  lemma {:induction false} ReportedHint<T, E>(pick: Pick, w: Router.World<T, E>, l: Loads,
      states: seq<Option<B.State>>, clock: nat -> (nat, nat))
    requires pick.Sane() && l.Sane() && |states| == |l.weights|
    ensures var r := RouteOf(pick, w, l, states, clock);
      r.result.AllUnavailable? ==> SoonestOf(states, clock, |states|, r.result.nextAvailableAt)
  {
    hide RouteOf, SoonestOf;
    UnavailableExactlyWhen(pick, w, l, states, clock);
    HintIsSoonest(states, clock, |states|);
  }

  /** The members still to be tried. */
  function Untried(healthy: seq<nat>, tried: seq<nat>): seq<nat>
    decreases |tried|
  {
    if tried == [] then healthy else Untried(Without(healthy, tried[0]), tried[1..])
  }

  lemma {:induction false} AscendsAfter(first: nat, rest: seq<nat>)
    requires Ascending(rest) && forall m :: m in rest ==> first < m
    ensures Ascending([first] + rest)
  {
    var all := [first] + rest;
    forall a, b | 0 <= a < b < |all| ensures all[a] < all[b] {
      assert all[b] == rest[b - 1] && rest[b - 1] in rest;
    }
  }

  lemma FirstIsLeast(healthy: seq<nat>)
    requires Ascending(healthy) && healthy != []
    ensures Ascending(healthy[1..]) && forall m :: m in healthy[1..] ==> healthy[0] < m
  {}

  lemma {:induction false} WithoutAscends(healthy: seq<nat>, chosen: nat)
    requires Ascending(healthy)
    ensures Ascending(Without(healthy, chosen))
  {
    hide Ascending;
    if healthy != [] {
      FirstIsLeast(healthy);
      WithoutAscends(healthy[1..], chosen);
      AscendsAfter(healthy[0], Without(healthy[1..], chosen));
    }
  }

  lemma {:induction false} UntriedAre(healthy: seq<nat>, tried: seq<nat>)
    ensures Ascending(healthy) ==> Ascending(Untried(healthy, tried))
    ensures forall m :: m in Untried(healthy, tried) <==> m in healthy && m !in tried
    decreases |tried|
  {
    if tried != [] {
      var rest := Without(healthy, tried[0]);
      UntriedAre(rest, tried[1..]);
      WithoutKeeps(healthy, tried[0]);
      if Ascending(healthy) {
        WithoutAscends(healthy, tried[0]);
      }
      assert forall m :: m in tried <==> m == tried[0] || m in tried[1..];
    }
  }

  /** A strategy with these random words chooses member `i` among some members under some loads. */
  ghost predicate Picks(pick: Pick, word: nat -> nat, l: Loads, left: seq<nat>, i: nat) {
    pick.Sane() && l.Sane() && Within(|l.weights|, left) && left != [] && i < |l.weights| &&
    Choice(pick, Candidates(l, left), word) == Ok(l.Member(i))
  }

  lemma {:induction false} RouteFirst<T, E>(pick: Pick, w: Router.World<T, E>, soonest: Option<nat>, l: Loads,
      healthy: seq<nat>, attempts: nat, lastError: Option<E>) returns (i: nat)
    requires pick.Sane() && l.Sane() && Within(|l.weights|, healthy)
    requires RouteFrom(pick, w, soonest, l, healthy, attempts, lastError).tried != []
    ensures i in healthy && i < |l.weights| && Picks(pick, w.words(attempts), l, healthy, i)
    ensures RouteFrom(pick, w, soonest, l, healthy, attempts, lastError).tried[0] == i
  {
    hide Choice;
    ChosenIsHealthy(pick, l, healthy, w.words(attempts));
    i := Choice(pick, Candidates(l, healthy), w.words(attempts)).value.index;
  }

  lemma {:induction false} UntriedAfter(l: Loads, healthy: seq<nat>, i: nat, tried: seq<nat>, k: nat)
    requires l.Sane() && i < |l.weights| && Within(|l.weights|, tried) && k <= |tried|
    ensures var all := [i] + tried;
      all[..k + 1] == [i] + tried[..k] && Within(|l.weights|, all[..k + 1]) &&
      TriedAll(l, all[..k + 1]) == TriedAll(l.Tried(i), tried[..k]) &&
      Untried(healthy, all[..k + 1]) == Untried(Without(healthy, i), tried[..k])
  {
    var all := [i] + tried;
    assert all[..k + 1] == [i] + tried[..k];
    assert all[..k + 1][1..] == tried[..k];
  }

  lemma {:induction false} TriedWithin<T, E>(pick: Pick, w: Router.World<T, E>, soonest: Option<nat>, l: Loads,
      healthy: seq<nat>, attempts: nat, lastError: Option<E>)
    requires pick.Sane() && l.Sane() && Within(|l.weights|, healthy) && Distinct(healthy)
    ensures Within(|l.weights|, RouteFrom(pick, w, soonest, l, healthy, attempts, lastError).tried)
  {
    hide RouteFrom;
    RouteKeepsBooks(pick, w, soonest, l, healthy, attempts, lastError);
  }

  /** The pick of attempt `k` of a run, among the members not tried before it. */
  ghost predicate PicksAt(pick: Pick, word: nat -> nat, l: Loads, healthy: seq<nat>, tried: seq<nat>, k: nat) {
    l.Sane() && Within(|l.weights|, tried) && k < |tried| &&
    Picks(pick, word, TriedAll(l, tried[..k]), Untried(healthy, tried[..k]), tried[k])
  }

  lemma {:induction false} PicksLater(pick: Pick, word: nat -> nat, l: Loads, healthy: seq<nat>, i: nat,
      tried: seq<nat>, k: nat)
    requires l.Sane() && i < |l.weights|
    requires PicksAt(pick, word, l.Tried(i), Without(healthy, i), tried, k)
    ensures PicksAt(pick, word, l, healthy, [i] + tried, k + 1)
  {
    hide Picks;
    UntriedAfter(l, healthy, i, tried, k);
  }

  lemma {:induction false} PicksFirst(pick: Pick, word: nat -> nat, l: Loads, healthy: seq<nat>, tried: seq<nat>)
    requires l.Sane() && Within(|l.weights|, tried) && tried != []
    requires Picks(pick, word, l, healthy, tried[0])
    ensures PicksAt(pick, word, l, healthy, tried, 0)
  {
    hide Picks;
    assert tried[..0] == [];
  }

  lemma {:induction false} RouteChooses<T, E>(pick: Pick, w: Router.World<T, E>, soonest: Option<nat>, l: Loads,
      healthy: seq<nat>, attempts: nat, lastError: Option<E>, k: nat)
    requires pick.Sane() && l.Sane() && Within(|l.weights|, healthy) && Distinct(healthy)
    requires k < |RouteFrom(pick, w, soonest, l, healthy, attempts, lastError).tried|
    ensures PicksAt(pick, w.words(attempts + k), l, healthy,
      RouteFrom(pick, w, soonest, l, healthy, attempts, lastError).tried, k)
    decreases k
  {
    hide Choice, Classify, RouteFrom, PicksAt, Candidates;
    TriedWithin(pick, w, soonest, l, healthy, attempts, lastError);
    var tried := RouteFrom(pick, w, soonest, l, healthy, attempts, lastError).tried;
    var i := RouteFirst(pick, w, soonest, l, healthy, attempts, lastError);
    if k == 0 {
      PicksFirst(pick, w.words(attempts), l, healthy, tried);
    } else {
      RouteUnfolds(pick, w, soonest, l, healthy, attempts, lastError, i);
      hide Picks;
      var next := Classify(w.advance, i, attempts + 1, w.outcome(i), lastError);
      var rest := RouteFrom(pick, w, soonest, l.Tried(i), Without(healthy, i), attempts + 1, next.lastError);
      RouteChooses(pick, w, soonest, l.Tried(i), Without(healthy, i), attempts + 1, next.lastError, k - 1);
      PicksLater(pick, w.words(attempts + k), l, healthy, i, rest.tried, k - 1);
    }
  }

  /** Under any strategy, sampled or not, attempt `k` of a run goes to the member chosen, with the `k`-th
      random words, among the members found healthy that were not tried yet, in the order they were
      inserted, each with the counters it has by then. */
  lemma {:induction false} RunChooses<T, E>(pick: Pick, w: Router.World<T, E>, l: Loads,
      states: seq<Option<B.State>>, clock: nat -> (nat, nat), k: nat) returns (left: seq<nat>)
    requires pick.Sane() && l.Sane() && |states| == |l.weights|
    requires k < |RouteOf(pick, w, l, states, clock).tried|
    ensures var tried := RouteOf(pick, w, l, states, clock).tried;
      Ascending(left) &&
      (forall m :: m in left <==> m in Scan(states, clock, |states|).0 && m !in tried[..k]) &&
      Within(|l.weights|, tried[..k]) && Picks(pick, w.words(k), TriedAll(l, tried[..k]), left, tried[k])
  {
    hide RouteFrom, Picks;
    ScanWithin(states, clock, |states|);
    var (healthy, soonest) := Scan(states, clock, |states|);
    RouteChooses(pick, w, soonest, l, healthy, 0, None, k);
    var tried := RouteOf(pick, w, l, states, clock).tried;
    UntriedAre(healthy, tried[..k]);
    left := Untried(healthy, tried[..k]);
  }

  predicate Erring<T, E>(w: Router.World<T, E>, m: nat) {
    w.outcome(m).Failure? && w.outcome(m).cause.Operation?
  }

  /** The last operation error among some outcomes. */
  lemma {:induction false} LastErrorIs<T, E>(w: Router.World<T, E>, before: Option<E>, tried: seq<nat>)
    ensures var last := LastError(w, before, tried);
      (last == before && forall i :: 0 <= i < |tried| ==> !Erring(w, tried[i])) ||
      exists i :: 0 <= i < |tried| && Erring(w, tried[i]) && last == Some(w.outcome(tried[i]).cause.source) &&
        forall j :: i < j < |tried| ==> !Erring(w, tried[j])
    decreases |tried|
  {
    if tried != [] {
      var o := w.outcome(tried[0]);
      var first := if o.Failure? && o.cause.Operation? then Some(o.cause.source) else before;
      LastErrorIs(w, first, tried[1..]);
      assert forall i :: 0 < i < |tried| ==> tried[i] == tried[1..][i - 1];
      var last := LastError(w, before, tried);
      if !(last == first && forall i :: 0 <= i < |tried[1..]| ==> !Erring(w, tried[1..][i])) {
        var k :| 0 <= k < |tried[1..]| && Erring(w, tried[1..][k]) &&
          last == Some(w.outcome(tried[1..][k]).cause.source) &&
          forall j :: k < j < |tried[1..]| ==> !Erring(w, tried[1..][j]);
        assert Erring(w, tried[k + 1]);
      }
    }
  }

  /** How a run ends, whatever the strategy: at the first decisive outcome, at a score that is not finite,
      or after all healthy members, with the last operation error if there was one. */
  ghost predicate Concludes<T, E>(score: Candidate -> Score, w: Router.World<T, E>, soonest: Option<nat>, l: Loads,
      healthy: seq<nat>, attempts: nat, lastError: Option<E>, r: Route<T, E>)
    requires l.Sane() && Within(|l.weights|, healthy)
  {
    var k, error := |r.tried|, LastError(w, lastError, r.tried);
    (forall i :: 0 <= i < k - 1 ==> !Decisive(w, r.tried[i])) &&
    if k > 0 && Decisive(w, r.tried[k - 1]) then
      var o := w.outcome(r.tried[k - 1]);
      r.result == match o
        case Success(value) => Served(value, r.tried[k - 1], attempts + k)
        case Failure(cause, _) => Router.Exhausted(cause.source)
    else if r.result.BadScore? then
      var m := r.result.index;
      m in healthy && m !in r.tried && score(l.Member(m)).NotFinite?
    else
      (forall m :: m in healthy ==> m in r.tried) &&
      r.result == if error.Some? then Router.Exhausted(error.value) else AllUnavailable(soonest)
  }

  lemma {:induction false} BadChoice(pick: Pick, l: Loads, healthy: seq<nat>, word: nat -> nat)
    requires pick.Sane() && l.Sane() && Within(|l.weights|, healthy) && Distinct(healthy) && healthy != []
    ensures var choice := Choice(pick, Candidates(l, healthy), word);
      choice.Err? ==>
        choice.error in healthy && choice.error < |l.weights| && pick.score(l.Member(choice.error)).NotFinite?
  {
    hide Leader, Before;
    var cs := Candidates(l, healthy);
    var ps := Positions(pick, |cs|, word);
    DrawnDistinct(cs, ps);
    var p := LeaderIsArgmin(pick.score, At(cs, ps));
    if Leader(pick.score, At(cs, ps)).Err? {
      assert At(cs, ps)[p] == l.Member(healthy[ps[p]]);
    }
  }

  lemma {:induction false} ConcludesAtOnce<T, E>(score: Candidate -> Score, w: Router.World<T, E>,
      soonest: Option<nat>, l: Loads, healthy: seq<nat>, attempts: nat, lastError: Option<E>, i: nat)
    requires l.Sane() && Within(|l.weights|, healthy) && i in healthy && i < |l.weights|
    ensures match Classify(w.advance, i, attempts + 1, w.outcome(i), lastError)
      case Break(result) =>
        Concludes(score, w, soonest, l, healthy, attempts, lastError, Route(result, [i], l.Tried(i)))
      case Continue(lastError') => !Decisive(w, i) && lastError' == LastError(w, lastError, [i])
  {
    assert [i][1..] == [];
  }

  lemma {:induction false} ConcludesLater<T, E>(score: Candidate -> Score, w: Router.World<T, E>,
      soonest: Option<nat>, l: Loads, healthy: seq<nat>, attempts: nat, lastError: Option<E>, i: nat, rest: Route<T, E>)
    requires l.Sane() && Within(|l.weights|, healthy) && i in healthy && i < |l.weights| && !Decisive(w, i)
    requires Concludes(score, w, soonest, l.Tried(i), Without(healthy, i), attempts + 1,
      LastError(w, lastError, [i]), rest)
    ensures Concludes(score, w, soonest, l, healthy, attempts, lastError, AfterTrying([i], rest))
  {
    var r, healthy' := AfterTrying([i], rest), Without(healthy, i);
    assert r.tried[1..] == rest.tried && [i][1..] == [];
    WithoutKeeps(healthy, i);
    assert LastError(w, lastError, r.tried) == LastError(w, LastError(w, lastError, [i]), rest.tried);
    assert forall m :: m in r.tried <==> m == i || m in rest.tried;
    assert forall k :: 0 < k < |r.tried| ==> r.tried[k] == rest.tried[k - 1];
    if r.result.BadScore? && r.result.index in healthy' {
      assert l.Tried(i).Member(r.result.index) == l.Member(r.result.index);
    }
  }

  lemma {:induction false} RouteConcludes<T, E>(pick: Pick, w: Router.World<T, E>, soonest: Option<nat>, l: Loads,
      healthy: seq<nat>, attempts: nat, lastError: Option<E>)
    requires pick.Sane() && l.Sane() && Within(|l.weights|, healthy) && Distinct(healthy)
    ensures Concludes(pick.score, w, soonest, l, healthy, attempts, lastError,
      RouteFrom(pick, w, soonest, l, healthy, attempts, lastError))
    decreases |healthy|
  {
    if healthy != [] {
      hide Choice, Classify;
      var choice := Choice(pick, Candidates(l, healthy), w.words(attempts));
      BadChoice(pick, l, healthy, w.words(attempts));
      if choice.Ok? {
        hide Concludes, Decisive, LastError, RouteFrom;
        ChosenIsHealthy(pick, l, healthy, w.words(attempts));
        var i := choice.value.index;
        RouteUnfolds(pick, w, soonest, l, healthy, attempts, lastError, i);
        ConcludesAtOnce(pick.score, w, soonest, l, healthy, attempts, lastError, i);
        var next := Classify(w.advance, i, attempts + 1, w.outcome(i), lastError);
        if next.Continue? {
          RouteConcludes(pick, w, soonest, l.Tried(i), Without(healthy, i), attempts + 1, next.lastError);
          ConcludesLater(pick.score, w, soonest, l, healthy, attempts, lastError, i,
            RouteFrom(pick, w, soonest, l.Tried(i), Without(healthy, i), attempts + 1, next.lastError));
        }
      }
    }
  }

  /** Under any strategy a run stops at the first decisive outcome, which is its result, or at a healthy
      member whose score is not finite, which it reports untried; or it tries every healthy member and
      ends with the last operation error, or without one in `AllUnavailable`. */
  lemma {:induction false} RunConcludes<T, E>(pick: Pick, w: Router.World<T, E>, l: Loads,
      states: seq<Option<B.State>>, clock: nat -> (nat, nat))
    requires pick.Sane() && l.Sane() && |states| == |l.weights|
    ensures var (healthy, soonest) := Scan(states, clock, |states|);
      Within(|l.weights|, healthy) &&
      Concludes(pick.score, w, soonest, l, healthy, 0, None, RouteOf(pick, w, l, states, clock))
  {
    hide RouteFrom, Concludes;
    ScanWithin(states, clock, |states|);
    var (healthy, soonest) := Scan(states, clock, |states|);
    RouteConcludes(pick, w, soonest, l, healthy, 0, None);
  }
}
