/** How evenly the strategies spread the load (src/pick.rs:99-117, src/router.rs:258-352). */
module Fairness {
  import opened Common
  import opened Engine
  import opened Sampling
  import opened Router
  import opened RouterTheorems
  import B = Breaker

  // --- Round robin -------------------------------------------------------------------------

  /** No two counts differ by more than one. */
  ghost predicate Fair(counts: seq<nat>) {
    forall i, j :: 0 <= i < |counts| && 0 <= j < |counts| ==> counts[i] <= counts[j] + 1
  }

  /** The counts are fair before, between and after a list of attempts. */
  ghost predicate AlwaysFair(l: Loads, tried: seq<nat>)
    requires l.Sane() && Within(|l.weights|, tried)
    decreases |tried|
  {
    Fair(l.pickCount) && (tried != [] ==> AlwaysFair(l.Tried(tried[0]), tried[1..]))
  }

  /** Within a run: the counts are `m` or `m + 1`, and either every member already tried is at
      `m + 1`, or every member not yet tried is at `m`. */
  ghost predicate Leveled(l: Loads, untried: seq<nat>, m: nat)
    requires l.Sane()
  {
    (forall i :: 0 <= i < |l.weights| ==> m <= l.pickCount[i] <= m + 1) &&
    ((forall i :: 0 <= i < |l.weights| && i !in untried ==> l.pickCount[i] == m + 1) ||
     (forall i :: 0 <= i < |l.weights| && i in untried ==> l.pickCount[i] == m))
  }

  lemma {:induction false} LevelStep(l: Loads, untried: seq<nat>, m: nat, i: nat) returns (m': nat)
    requires l.Sane() && Within(|l.weights|, untried) && Leveled(l, untried, m) && i in untried
    requires forall j :: j in untried ==> l.pickCount[i] <= l.pickCount[j]
    ensures Leveled(l.Tried(i), Without(untried, i), m')
  {
    WithoutKeeps(untried, i);
    m' := l.pickCount[i];
  }

  /** Round robin chooses a member with the least count. */
  lemma {:induction false} LeastPicked(l: Loads, healthy: seq<nat>, word: nat -> nat) returns (p: nat)
    requires l.Sane() && Within(|l.weights|, healthy) && Distinct(healthy) && healthy != []
    ensures p < |healthy| && Choice(ROUND_ROBIN, Candidates(l, healthy), word) == Ok(l.Member(healthy[p]))
    ensures forall j :: j in healthy ==> l.pickCount[healthy[p]] <= l.pickCount[j]
  {
    var cs := Candidates(l, healthy);
    ChoiceOfAll(ROUND_ROBIN, cs, word);
    p := LeaderIsArgmin(ROUND_ROBIN.score, cs);
    forall j | j in healthy ensures l.pickCount[healthy[p]] <= l.pickCount[j] {
      var q :| 0 <= q < |healthy| && healthy[q] == j;
      assert q != p ==> Before(ROUND_ROBIN.score, cs[p], cs[q]);
    }
  }

  lemma LeveledIsFair(l: Loads, untried: seq<nat>, m: nat)
    requires l.Sane() && Leveled(l, untried, m)
    ensures Fair(l.pickCount)
  {}

  lemma {:induction false} RunStaysLevel<T, E>(w: Router.World<T, E>, soonest: Option<nat>, l: Loads, untried: seq<nat>,
      attempts: nat, lastError: Option<E>, m: nat)
    requires l.Sane() && Within(|l.weights|, untried) && Distinct(untried) && Leveled(l, untried, m)
    ensures var r := RouteFrom(ROUND_ROBIN, w, soonest, l, untried, attempts, lastError);
      Within(|l.weights|, r.tried) && AlwaysFair(l, r.tried)
    decreases |untried|
  {
    hide Choice, Classify, RouteFrom, Leveled;
    RouteKeepsBooks(ROUND_ROBIN, w, soonest, l, untried, attempts, lastError);
    LeveledIsFair(l, untried, m);
    var r := RouteFrom(ROUND_ROBIN, w, soonest, l, untried, attempts, lastError);
    if untried != [] {
      var p := LeastPicked(l, untried, w.words(attempts));
      var i := untried[p];
      RouteUnfolds(ROUND_ROBIN, w, soonest, l, untried, attempts, lastError, i);
      var m' := LevelStep(l, untried, m, i);
      LeveledIsFair(l.Tried(i), Without(untried, i), m');
      var next := Classify(w.advance, i, attempts + 1, w.outcome(i), lastError);
      if next.Continue? {
        RunStaysLevel(w, soonest, l.Tried(i), Without(untried, i), attempts + 1, next.lastError, m');
        var rest := RouteFrom(ROUND_ROBIN, w, soonest, l.Tried(i), Without(untried, i), attempts + 1, next.lastError);
        assert r.tried[1..] == rest.tried;
      } else {
        assert r.tried == [i] && r.tried[1..] == [];
      }
    }
  }

  /** Fair counts are level, with nobody tried yet. */
  lemma {:induction false} FairIsLeveled(l: Loads) returns (m: nat)
    requires l.Sane() && Fair(l.pickCount) && |l.weights| >= 1
    ensures Leveled(l, Identity(|l.weights|), m)
  {
    var n := |l.weights|;
    forall i: nat | i < n ensures i in Identity(n) {
      assert Identity(n)[i] == i;
    }
    m := l.pickCount[0];
    if j :| 0 <= j < n && l.pickCount[j] < m {
      m := l.pickCount[j];
    }
  }

  /** The loads after some runs one after another, all members healthy throughout. */
  function AfterRuns<T, E>(pick: Pick, ws: seq<Router.World<T, E>>, l: Loads): (l': Loads)
    requires pick.Sane() && l.Sane()
    ensures l'.Sane() && l'.weights == l.weights
    decreases |ws|
  {
    if ws == [] then l
    else
      var r := RouteFrom(pick, ws[0], None, l, Identity(|l.weights|), 0, None);
      RouteKeepsBooks(pick, ws[0], None, l, Identity(|l.weights|), 0, None);
      AfterRuns(pick, ws[1..], r.loads)
  }

  lemma {:induction false} TriedConcat(l: Loads, a: seq<nat>, b: seq<nat>)
    requires l.Sane() && Within(|l.weights|, a) && Within(|l.weights|, b)
    ensures TriedAll(l, a + b) == TriedAll(TriedAll(l, a), b)
    decreases |a|
  {
    if a == [] {
      assert a + b == b;
    } else {
      assert (a + b)[1..] == a[1..] + b;
      TriedConcat(l.Tried(a[0]), a[1..], b);
    }
  }

  /** The members tried in those runs, in order. */
  function TriedIn<T, E>(pick: Pick, ws: seq<Router.World<T, E>>, l: Loads): (tried: seq<nat>)
    requires pick.Sane() && l.Sane()
    ensures Within(|l.weights|, tried) && TriedAll(l, tried) == AfterRuns(pick, ws, l)
    decreases |ws|
  {
    if ws == [] then []
    else
      var r := RouteFrom(pick, ws[0], None, l, Identity(|l.weights|), 0, None);
      RouteKeepsBooks(pick, ws[0], None, l, Identity(|l.weights|), 0, None);
      TriedConcat(l, r.tried, TriedIn(pick, ws[1..], r.loads));
      r.tried + TriedIn(pick, ws[1..], r.loads)
  }

  lemma {:induction false} FairConcat(l: Loads, a: seq<nat>, b: seq<nat>)
    requires l.Sane() && Within(|l.weights|, a) && Within(|l.weights|, b)
    requires AlwaysFair(l, a) && AlwaysFair(TriedAll(l, a), b)
    ensures AlwaysFair(l, a + b)
    decreases |a|
  {
    if a == [] {
      assert a + b == b;
    } else {
      assert (a + b)[1..] == a[1..] + b;
      FairConcat(l.Tried(a[0]), a[1..], b);
    }
  }

  lemma {:induction false} FairAtEnd(l: Loads, tried: seq<nat>)
    requires l.Sane() && Within(|l.weights|, tried) && AlwaysFair(l, tried)
    ensures Fair(TriedAll(l, tried).pickCount)
    decreases |tried|
  {
    if tried != [] {
      FairAtEnd(l.Tried(tried[0]), tried[1..]);
    }
  }

  /** Round robin keeps the pick counts within one of each other after every single attempt of any
      sequence of runs, those that fail over through several members included. */
  lemma {:induction false} RoundRobinFair<T, E>(ws: seq<Router.World<T, E>>, l: Loads)
    requires l.Sane() && |l.weights| >= 1 && Fair(l.pickCount)
    ensures AlwaysFair(l, TriedIn(ROUND_ROBIN, ws, l))
    decreases |ws|
  {
    if ws != [] {
      var all := Identity(|l.weights|);
      var m := FairIsLeveled(l);
      RunStaysLevel(ws[0], None, l, all, 0, None, m);
      RouteKeepsBooks(ROUND_ROBIN, ws[0], None, l, all, 0, None);
      var r := RouteFrom(ROUND_ROBIN, ws[0], None, l, all, 0, None);
      FairAtEnd(l, r.tried);
      RoundRobinFair(ws[1..], r.loads);
      FairConcat(l, r.tried, TriedIn(ROUND_ROBIN, ws[1..], r.loads));
    }
  }

  /** When no member is polled Open, a run starts from all of them. */
  lemma {:induction false} AllHealthy(states: seq<Option<B.State>>, clock: nat -> (nat, nat), i: nat)
    requires i <= |states|
    requires forall j :: 0 <= j < i ==> states[j].None? || B.StateAt(states[j].value, clock(j).0) != B.Open
    ensures Scan(states, clock, i) == (Identity(i), None)
  {
    if i > 0 {
      AllHealthy(states, clock, i - 1);
      assert Identity(i) == Identity(i - 1) + [i - 1];
    }
  }

  // --- Every member's share -----------------------------------------------------------------------

  function Sum(s: seq<nat>): nat {
    if s == [] then 0 else Sum(s[..|s| - 1]) + s[|s| - 1]
  }

  lemma {:induction false} SumUpdate(s: seq<nat>, i: nat, v: nat)
    requires i < |s|
    ensures Sum(s[i := v]) == Sum(s) - s[i] + v
  {
    var n := |s| - 1;
    if i < n {
      SumUpdate(s[..n], i, v);
      assert s[i := v][..n] == s[..n][i := v];
    } else {
      assert s[i := v][..n] == s[..n];
    }
  }

  lemma {:induction false} SumBounds(s: seq<nat>, lo: int, hi: int)
    requires forall i :: 0 <= i < |s| ==> lo <= s[i] <= hi
    ensures |s| * lo <= Sum(s) <= |s| * hi
  {
    if s != [] {
      SumBounds(s[..|s| - 1], lo, hi);
      assert |s| * lo == (|s| - 1) * lo + lo && |s| * hi == (|s| - 1) * hi + hi;
    }
  }

  lemma {:induction false} SumTried(l: Loads, tried: seq<nat>)
    requires l.Sane() && Within(|l.weights|, tried)
    ensures Sum(TriedAll(l, tried).pickCount) == Sum(l.pickCount) + |tried|
    decreases |tried|
  {
    if tried != [] {
      SumUpdate(l.pickCount, tried[0], l.pickCount[tried[0]] + 1);
      SumTried(l.Tried(tried[0]), tried[1..]);
    }
  }

  /** `c` is `total / n`, rounded down or up. */
  predicate EvenShare(total: nat, n: nat, c: nat)
    requires n >= 1
  {
    total / n <= c <= (total + n - 1) / n
  }

  lemma {:induction false} AtLeastQuotient(x: nat, n: nat, c: nat)
    requires n >= 1 && n * c <= x
    ensures c <= x / n
  {
    var q := x / n;
    assert x < n * q + n;
    AtLeast(c - q - 1, n);
    assert n * c == (c - q - 1) * n + n * q + n;
  }

  lemma {:induction false} AtMostQuotient(x: nat, n: nat, c: nat)
    requires n >= 1 && x < n * (c + 1)
    ensures x / n <= c
  {
    var q := x / n;
    assert n * q <= x;
    AtLeast(q - c - 1, n);
    assert n * q == (q - c - 1) * n + n * (c + 1);
  }

  lemma {:induction false} Rounded(total: nat, n: nat, c: nat)
    requires n >= 1 && n * c - n < total < n * c + n
    ensures EvenShare(total, n, c)
  {
    assert n * (c + 1) == n * c + n;
    AtMostQuotient(total, n, c);
    AtLeastQuotient(total + n - 1, n, c);
  }

  lemma Spread(n: int, c: int)
    ensures n * (c - 1) == n * c - n && n * (c + 1) == n * c + n
  {}

  /** Fair counts are all an even share of their sum. */
  lemma {:induction false} FairShare(counts: seq<nat>, i: nat)
    requires Fair(counts) && i < |counts|
    ensures EvenShare(Sum(counts), |counts|, counts[i])
  {
    hide EvenShare;
    var n, c: int := |counts|, counts[i];
    if forall j :: 0 <= j < n ==> counts[j] == c {
      SumBounds(counts, c, c);
    } else {
      SumUpdate(counts, i, c + 1);
      SumBounds(counts[i := c + 1], c - 1, c + 1);
      if c > 0 {
        SumUpdate(counts, i, c - 1);
        SumBounds(counts[i := c - 1], c - 1, c + 1);
      }
      Spread(n, c);
    }
    Rounded(Sum(counts), n, c);
  }

  /** From a fresh router, after any runs of `total` attempts among `n` members, every member was
      tried `total / n` times, rounded down or up. */
  lemma {:induction false} RoundRobinShares<T, E>(ws: seq<Router.World<T, E>>, l: Loads, i: nat)
    requires l.Sane() && i < |l.weights| && forall j :: 0 <= j < |l.pickCount| ==> l.pickCount[j] == 0
    ensures EvenShare(|TriedIn(ROUND_ROBIN, ws, l)|, |l.weights|, AfterRuns(ROUND_ROBIN, ws, l).pickCount[i])
  {
    hide EvenShare, AfterRuns, TriedIn, TriedAll, AlwaysFair, Sum;
    var tried := TriedIn(ROUND_ROBIN, ws, l);
    RoundRobinFair(ws, l);
    FairAtEnd(l, tried);
    SumTried(l, tried);
    SumBounds(l.pickCount, 0, 0);
    FairShare(AfterRuns(ROUND_ROBIN, ws, l).pickCount, i);
  }

  // --- Weighted least in flight -----------------------------------------------------------------

  /** The loads of a router whose weights are as the builder demands. */
  ghost predicate Weighted(l: Loads) {
    l.Sane() && |l.weights| >= 1 && forall i :: 0 <= i < |l.weights| ==> l.weights[i] > 0.0
  }

  /** One more call is admitted, to the member the strategy chooses among all, and stays. */
  function Arrives(pick: Pick, l: Loads, word: nat -> nat): (l': Loads)
    requires pick.Sane() && l.Sane() && |l.weights| >= 1
    ensures l'.Sane() && l'.weights == l.weights
  {
    ChosenIsHealthy(pick, l, Identity(|l.weights|), word);
    match Choice(pick, Candidates(l, Identity(|l.weights|)), word)
    case Err(_) => l
    case Ok(c) => l.Entered(c.index)
  }

  /** The loads after `k` calls admitted one after another, none of them completed. */
  function Overlapping(pick: Pick, l: Loads, words: nat -> nat -> nat, k: nat): (l': Loads)
    requires pick.Sane() && l.Sane() && |l.weights| >= 1
    ensures l'.Sane() && l'.weights == l.weights
  {
    if k == 0 then l else Arrives(pick, Overlapping(pick, l, words, k - 1), words(k - 1))
  }

  /** `f` calls against weight `w` are no more than `g` against weight `v`, multiplied out. */
  predicate Under(f: int, v: real, g: int, w: real) {
    f as real * v <= g as real * w
  }

  /** No member is a whole call ahead of another, per unit weight. */
  ghost predicate Proportional(l: Loads)
    requires l.Sane()
  {
    forall i, j :: 0 <= i < |l.weights| && 0 <= j < |l.weights| && i != j ==>
      Under(l.inFlight[i], l.weights[j], l.inFlight[j] + 1, l.weights[i])
  }

  lemma {:induction false} BeforeIsUnder(a: Candidate, b: Candidate)
    requires a.weight > 0.0 && b.weight > 0.0 && Before(WEIGHTED_LEAST_IN_FLIGHT.score, a, b)
    ensures Under(a.inFlight + 1, b.weight, b.inFlight + 1, a.weight)
  {
    assert (a.inFlight + 1) as real == a.inFlight as real + 1.0 && (b.inFlight + 1) as real == b.inFlight as real + 1.0;
  }

  /** One more call on member `p` is no more than one more on any other, per unit weight. */
  ghost predicate Least(l: Loads, p: nat)
    requires l.Sane()
  {
    p < |l.weights| &&
    forall j :: 0 <= j < |l.weights| && j != p ==>
      Under(l.inFlight[p] + 1, l.weights[j], l.inFlight[j] + 1, l.weights[p])
  }

  lemma {:induction false} LeastLoaded(l: Loads, word: nat -> nat) returns (p: nat)
    requires Weighted(l)
    ensures p < |l.weights| && Least(l, p) && Arrives(WEIGHTED_LEAST_IN_FLIGHT, l, word) == l.Entered(p)
  {
    hide Under, Before, Choice, Leader;
    var all := Identity(|l.weights|);
    var cs := Candidates(l, all);
    var score := WEIGHTED_LEAST_IN_FLIGHT.score;
    ChoiceOfAll(WEIGHTED_LEAST_IN_FLIGHT, cs, word);
    p := LeaderIsArgmin(score, cs);
    forall j | 0 <= j < |l.weights| && j != p
      ensures Under(l.inFlight[p] + 1, l.weights[j], l.inFlight[j] + 1, l.weights[p])
    {
      assert Before(score, cs[p], cs[j]);
      BeforeIsUnder(cs[p], cs[j]);
    }
  }

  lemma {:induction false} UnderGrows(f: int, v: real, g: int, w: real)
    requires Under(f, v, g, w) && w > 0.0
    ensures Under(f, v, g + 1, w)
  {
    assert (g + 1) as real * w == g as real * w + w;
  }

  lemma {:induction false} StaysProportional(l: Loads, p: nat)
    requires Weighted(l) && Proportional(l) && Least(l, p)
    ensures Proportional(l.Entered(p))
  {
    hide Under;
    var l' := l.Entered(p);
    forall i, j | 0 <= i < |l.weights| && 0 <= j < |l.weights| && i != j
      ensures Under(l'.inFlight[i], l.weights[j], l'.inFlight[j] + 1, l.weights[i])
    {
      if j == p {
        UnderGrows(l.inFlight[i], l.weights[j], l.inFlight[j] + 1, l.weights[i]);
      }
    }
  }

  ghost predicate Idle(l: Loads) {
    forall i :: 0 <= i < |l.inFlight| ==> l.inFlight[i] == 0
  }

  lemma NoneIsUnder(v: real, w: real)
    requires w > 0.0
    ensures Under(0, v, 1, w)
  {}

  lemma {:induction false} IdleIsProportional(l: Loads)
    requires Weighted(l) && Idle(l)
    ensures Proportional(l)
  {
    hide Under;
    forall i, j | 0 <= i < |l.weights| && 0 <= j < |l.weights| && i != j
      ensures Under(l.inFlight[i], l.weights[j], l.inFlight[j] + 1, l.weights[i])
    {
      NoneIsUnder(l.weights[j], l.weights[i]);
    }
  }

  lemma {:induction false} OverlapStaysProportional(l: Loads, words: nat -> nat -> nat, k: nat)
    requires Weighted(l) && Idle(l)
    ensures var l' := Overlapping(WEIGHTED_LEAST_IN_FLIGHT, l, words, k);
      Weighted(l') && Proportional(l') && Sum(l'.inFlight) == k
  {
    hide Proportional, Arrives, Under, Least;
    if k == 0 {
      IdleIsProportional(l);
      SumBounds(l.inFlight, 0, 0);
    } else {
      OverlapStaysProportional(l, words, k - 1);
      var before := Overlapping(WEIGHTED_LEAST_IN_FLIGHT, l, words, k - 1);
      var p := LeastLoaded(before, words(k - 1));
      StaysProportional(before, p);
      SumUpdate(before.inFlight, p, before.inFlight[p] + 1);
    }
  }

  lemma {:induction false} FairStep(f: seq<nat>, p: nat)
    requires Fair(f) && p < |f| && forall j :: 0 <= j < |f| ==> f[p] <= f[j]
    ensures Fair(f[p := f[p] + 1]) && Sum(f[p := f[p] + 1]) == Sum(f) + 1
  {
    SumUpdate(f, p, f[p] + 1);
  }

  lemma {:induction false} LeastBusy(l: Loads, word: nat -> nat) returns (p: nat)
    requires l.Sane() && |l.weights| >= 1
    ensures p < |l.weights| && Arrives(LEAST_IN_FLIGHT, l, word) == l.Entered(p)
    ensures forall j :: 0 <= j < |l.weights| ==> l.inFlight[p] <= l.inFlight[j]
  {
    var cs := Candidates(l, Identity(|l.weights|));
    ChoiceOfAll(LEAST_IN_FLIGHT, cs, word);
    p := LeaderIsArgmin(LEAST_IN_FLIGHT.score, cs);
    forall j | 0 <= j < |l.weights| ensures l.inFlight[p] <= l.inFlight[j] {
      assert j != p ==> Before(LEAST_IN_FLIGHT.score, cs[p], cs[j]);
    }
  }

  lemma OverlapUnfolds(pick: Pick, l: Loads, words: nat -> nat -> nat, k: nat)
    requires pick.Sane() && l.Sane() && |l.weights| >= 1
    ensures Overlapping(pick, l, words, k) ==
      if k == 0 then l else Arrives(pick, Overlapping(pick, l, words, k - 1), words(k - 1))
  {}

  /** `least_in_flight` keeps the in-flight counts of overlapping calls within one of each other,
      from any loads that were. */
  lemma {:induction false} LeastInFlightBalances(l: Loads, words: nat -> nat -> nat, k: nat)
    requires l.Sane() && |l.weights| >= 1 && Fair(l.inFlight)
    ensures Fair(Overlapping(LEAST_IN_FLIGHT, l, words, k).inFlight)
    ensures Sum(Overlapping(LEAST_IN_FLIGHT, l, words, k).inFlight) == Sum(l.inFlight) + k
  {
    hide Arrives, Overlapping, Fair, Sum;
    OverlapUnfolds(LEAST_IN_FLIGHT, l, words, k);
    if k > 0 {
      LeastInFlightBalances(l, words, k - 1);
      var before := Overlapping(LEAST_IN_FLIGHT, l, words, k - 1);
      var p := LeastBusy(before, words(k - 1));
      FairStep(before.inFlight, p);
    }
  }

  function Total(ws: seq<real>): real {
    if ws == [] then 0.0 else Total(ws[..|ws| - 1]) + ws[|ws| - 1]
  }

  lemma {:induction false} TotalPositive(ws: seq<real>)
    requires forall i :: 0 <= i < |ws| ==> ws[i] > 0.0
    ensures Total(ws) >= 0.0 && (ws != [] ==> Total(ws) > 0.0)
  {
    if ws != [] {
      TotalPositive(ws[..|ws| - 1]);
    }
  }

  /** Strictly less than a share, multiplied out. */
  predicate Below(f: int, v: real, g: int, w: real) {
    f as real * v < g as real * w
  }

  lemma Distribute(a: real, b: real, c: real)
    ensures (a + b) * c == a * c + b * c && c * (a + b) == c * a + c * b
  {}

  lemma {:induction false} AddShares(s: int, f: int, v: real, g: int, t: real, w: real)
    requires Under(f, v, g, w)
    ensures Under(s, v, g, t) ==> Under(s + f, v, g, t + w)
    ensures Below(s, v, g, t) ==> Below(s + f, v, g, t + w)
  {
    Distribute(s as real, f as real, v);
    Distribute(t, w, g as real);
    assert (s + f) as real == s as real + f as real;
  }

  lemma {:induction false} AddOwnShare(s: int, f: int, v: real, t: real)
    requires Under(s, v, f + 1, t) && v > 0.0
    ensures Below(s + f, v, f + 1, t + v)
  {
    var x, y, z := s as real, f as real, (f + 1) as real;
    Distribute(x, y, v);
    Distribute(t, v, z);
    Distribute(y, 1.0, v);
    assert (s + f) as real == x + y && z == y + 1.0;
  }

  lemma BelowIsUnder(f: int, v: real, g: int, w: real)
    requires Below(f, v, g, w)
    ensures Under(f, v, g, w)
  {}

  /** Member `j`'s inequality with member `m` added to both sides. */
  lemma {:induction false} AddMember(l: Loads, j: nat, m: nat, s: nat, t: real)
    requires Weighted(l) && Proportional(l) && j < |l.weights| && m < |l.weights|
    requires Under(s, l.weights[j], l.inFlight[j] + 1, t)
    requires j < m ==> Below(s, l.weights[j], l.inFlight[j] + 1, t)
    ensures Under(s + l.inFlight[m], l.weights[j], l.inFlight[j] + 1, t + l.weights[m])
    ensures j <= m ==> Below(s + l.inFlight[m], l.weights[j], l.inFlight[j] + 1, t + l.weights[m])
  {
    hide Under, Below;
    if m == j {
      AddOwnShare(s, l.inFlight[j], l.weights[j], t);
      BelowIsUnder(s + l.inFlight[j], l.weights[j], l.inFlight[j] + 1, t + l.weights[j]);
    } else {
      AddShares(s, l.inFlight[m], l.weights[j], l.inFlight[j] + 1, t, l.weights[m]);
    }
  }

  lemma ZeroShares(v: real, g: int)
    ensures Under(0, v, g, 0.0)
  {}

  /** Member `j`'s inequality, summed over the first `m` members. */
  lemma {:induction false} SharesUpTo(l: Loads, j: nat, m: nat)
    requires Weighted(l) && Proportional(l) && j < |l.weights| && m <= |l.weights|
    ensures var f, ws := Sum(l.inFlight[..m]), Total(l.weights[..m]);
      Under(f, l.weights[j], l.inFlight[j] + 1, ws) && (j < m ==> Below(f, l.weights[j], l.inFlight[j] + 1, ws))
  {
    hide Under, Below, Proportional;
    if m == 0 {
      assert Sum(l.inFlight[..0]) == 0 && Total(l.weights[..0]) == 0.0;
      ZeroShares(l.weights[j], l.inFlight[j] + 1);
    } else {
      SharesUpTo(l, j, m - 1);
      var fs, ws := l.inFlight[..m], l.weights[..m];
      assert fs[..m - 1] == l.inFlight[..m - 1] && ws[..m - 1] == l.weights[..m - 1];
      AddMember(l, j, m - 1, Sum(fs[..m - 1]), Total(ws[..m - 1]));
    }
  }

  /** A weighted share of `k` calls, rounded down. */
  function ShareOf(k: nat, v: real, total: real): int
    requires total > 0.0
  {
    (k as real * v / total).Floor
  }

  lemma {:induction false} Quotient(x: real, t: real, g: real)
    requires t > 0.0 && x < g * t
    ensures x / t < g
  {
    var y := x / t;
    assert x == y * t;
    Distribute(g, -y, t);
  }

  lemma {:induction false} FloorBelow(k: nat, v: real, t: real, f: nat)
    requires t > 0.0 && Below(k, v, f + 1, t)
    ensures ShareOf(k, v, t) <= f
  {
    Quotient(k as real * v, t, (f + 1) as real);
  }

  /** From idle, after `k` overlapping calls the in-flight counts are proportional to the weights
      to within one call, and every member holds at least its weighted share of the calls, rounded
      down. */
  lemma {:induction false} WeightedShares(l: Loads, words: nat -> nat -> nat, k: nat, j: nat)
    requires Weighted(l) && Idle(l) && j < |l.weights|
    ensures var l' := Overlapping(WEIGHTED_LEAST_IN_FLIGHT, l, words, k);
      Proportional(l') && Sum(l'.inFlight) == k && Total(l.weights) > 0.0 &&
      l'.inFlight[j] >= ShareOf(k, l.weights[j], Total(l.weights))
  {
    hide Under, Below, Proportional, ShareOf, Overlapping;
    OverlapStaysProportional(l, words, k);
    var l' := Overlapping(WEIGHTED_LEAST_IN_FLIGHT, l, words, k);
    SharesUpTo(l', j, |l.weights|);
    assert l'.inFlight[..|l.weights|] == l'.inFlight && l.weights[..|l.weights|] == l.weights;
    TotalPositive(l.weights);
    FloorBelow(k, l.weights[j], Total(l.weights), l'.inFlight[j]);
  }

  lemma Product(a: real, v: real)
    requires a > 0.0 && v > 0.0
    ensures a * v > 0.0
  {}

  lemma {:induction false} Cancel(f: int, g: int, v: real)
    requires v > 0.0 && Under(f, v, g, v)
    ensures f <= g
  {
    var x, y := f as real, g as real;
    Distribute(x, -y, v);
    if x > y {
      Product(x - y, v);
    }
  }

  /** With equal weights the in-flight counts of overlapping calls differ by at most one. */
  lemma {:induction false} EqualWeightsBalance(l: Loads, words: nat -> nat -> nat, k: nat)
    requires Weighted(l) && Idle(l) && forall i :: 0 <= i < |l.weights| ==> l.weights[i] == l.weights[0]
    ensures Fair(Overlapping(WEIGHTED_LEAST_IN_FLIGHT, l, words, k).inFlight)
  {
    hide Under, Overlapping;
    OverlapStaysProportional(l, words, k);
    var l' := Overlapping(WEIGHTED_LEAST_IN_FLIGHT, l, words, k);
    forall i, j | 0 <= i < |l'.inFlight| && 0 <= j < |l'.inFlight| ensures l'.inFlight[i] <= l'.inFlight[j] + 1 {
      if i != j {
        assert l.weights[i] == l.weights[0] == l.weights[j];
        Cancel(l'.inFlight[i], l'.inFlight[j] + 1, l.weights[0]);
      }
    }
  }
}
