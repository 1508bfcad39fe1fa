/** Many calls sharing one breaker: half-open episodes under every interleaving of gates and
    votes (src/breaker.rs:215-315, src/engine.rs:75-118).

    A call is admitted by the gate, runs, and then votes once; the votes of calls admitted in
    an earlier era may arrive during a later one.  A call may also end without voting: its
    future is dropped, or it ends in a rejection by the retry budget or by an attempts-scope
    limit.  No assumption is made about the instants the operations carry. */
module BreakerEpisodes {
  import opened Common
  import opened Breaker
  import opened BreakerHistory

  type Call = nat

  /** The breaker, the running calls with the episode each probes (0 for a call admitted while
      closed), the number of the current episode, the calls it has admitted, and how many of
      its probes ended without a vote. */
  datatype World = World(state: State, running: map<Call, nat>, episode: nat, admitted: nat, lost: nat)

  datatype Action =
    | Arrive(call: Call, now: nat)
    | Vote(call: Call, failure: bool, now: nat)
    | Abandon(call: Call)

  const START := World(INITIAL, map[], 0, 0, 0)

  predicate Enabled(w: World, a: Action) {
    if a.Arrive? then a.call !in w.running else a.call in w.running
  }

  function Arrived(c: Config, w: World, call: Call, now: nat): World {
    var w' := w.(state := Gated(c, w.state, now));
    match GateAnswer(c, w.state, now)
    case Reject => w'
    case Admit(Closed) => w'.(running := w.running[call := 0])
    case Admit(_) =>
      if w.state.phase == Open then
        w'.(running := w.running[call := w.episode + 1], episode := w.episode + 1, admitted := 1, lost := 0)
      else
        w'.(running := w.running[call := w.episode], admitted := w.admitted + 1)
  }

  /** One action; an action that is not enabled does nothing, so every sequence of actions is
      an interleaving. */
  function Next(c: Config, w: World, a: Action): World {
    if !Enabled(w, a) then w
    else
      match a
      case Arrive(call, now) => Arrived(c, w, call, now)
      case Vote(call, failure, now) =>
        w.(state := Step(c, w.state, Event.Record(failure, now)), running := w.running - {call})
      case Abandon(call) =>
        w.(running := w.running - {call}, lost := w.lost + if w.running[call] == w.episode then 1 else 0)
  }

  /** The world after a run of actions from `w`. */
  function Continue(c: Config, w: World, acts: seq<Action>): World {
    if acts == [] then w else Next(c, Continue(c, w, acts[..|acts| - 1]), acts[|acts| - 1])
  }

  function After(c: Config, acts: seq<Action>): World {
    Continue(c, START, acts)
  }

  /** The probes of the current episode that are still running. */
  function Probes(w: World): set<Call> {
    set call | call in w.running && w.running[call] == w.episode
  }

  /** Action `a` in world `w` admits its call as a probe of episode `k`. */
  predicate AdmitsProbe(c: Config, w: World, a: Action, k: nat) {
    a.Arrive? && Enabled(w, a) && a.call in Next(c, w, a).running && Next(c, w, a).running[a.call] == k
  }

  /** How many calls a run admitted as probes of episode `k`, counted from its actions. */
  function AdmittedIn(c: Config, acts: seq<Action>, k: nat): nat {
    if acts == [] then 0
    else
      var rest, a := acts[..|acts| - 1], acts[|acts| - 1];
      AdmittedIn(c, rest, k) + if AdmitsProbe(c, After(c, rest), a, k) then 1 else 0
  }

  // --- The invariant ---------------------------------------------------------------------

  ghost predicate Inv(c: Config, w: World) {
    Coherent(c, w.state) &&
    (forall call :: call in w.running ==> w.running[call] <= w.episode) &&
    w.admitted <= 2 * c.maxCalls - 1 &&
    (w.state.phase == HalfOpen ==>
      w.episode >= 1 && 1 <= w.state.inFlight + w.state.successes &&
      w.state.inFlight <= |Probes(w)| + w.lost &&
      w.admitted <= w.state.inFlight + w.state.successes)
  }

  /** The running probes after an arrival. */
  lemma {:induction false} ArrivedProbes(c: Config, w: World, call: Call, now: nat)
    requires call !in w.running && (forall k :: k in w.running ==> w.running[k] <= w.episode)
    ensures var w', probes := Arrived(c, w, call, now), Probes(Arrived(c, w, call, now));
      match GateAnswer(c, w.state, now)
      case Reject => probes == Probes(w)
      case Admit(Closed) => w.episode > 0 ==> probes == Probes(w)
      case Admit(_) => probes == if w.state.phase == Open then {call} else Probes(w) + {call}
  {
    hide Gated, GateAnswer;
    var w' := Arrived(c, w, call, now);
    assert forall k :: k in w'.running ==> k == call || k in w.running;
  }

  lemma {:induction false} ArrivedKeepsInv(c: Config, w: World, call: Call, now: nat)
    requires c.Sane() && Inv(c, w) && call !in w.running
    ensures Inv(c, Arrived(c, w, call, now))
  {
    StepCoherent(c, w.state, Event.Gate(now));
    ArrivedProbes(c, w, call, now);
    assert call !in Probes(w);
    hide Probes;
  }

  lemma {:induction false} ProbeRemoved(w: World, w': World, call: Call)
    requires call in w.running && Probes(w') == Probes(w) - {call}
    ensures |Probes(w')| == |Probes(w)| - if w.running[call] == w.episode then 1 else 0
  {
    if w.running[call] == w.episode {
      assert call in Probes(w);
    } else {
      assert Probes(w) - {call} == Probes(w);
    }
  }

  /** A vote never starts an episode, and one that leaves it going is a counted success. */
  lemma VoteStep(c: Config, s: State, failure: bool, now: nat)
    ensures var s' := Step(c, s, Event.Record(failure, now));
      s'.phase == HalfOpen ==>
        s.phase == HalfOpen && s'.inFlight == Decrement(s.inFlight) && s'.successes == s.successes + 1
  {}

  lemma {:induction false} VotedKeepsInv(c: Config, w: World, call: Call, failure: bool, now: nat)
    requires c.Sane() && Inv(c, w) && call in w.running
    ensures Inv(c, Next(c, w, Vote(call, failure, now)))
  {
    var w' := Next(c, w, Vote(call, failure, now));
    StepCoherent(c, w.state, Event.Record(failure, now));
    VoteStep(c, w.state, failure, now);
    assert Probes(w') == Probes(w) - {call};
    ProbeRemoved(w, w', call);
  }

  lemma {:induction false} NextKeepsInv(c: Config, w: World, a: Action)
    requires c.Sane() && Inv(c, w)
    ensures Inv(c, Next(c, w, a))
  {
    if Enabled(w, a) {
      match a
      case Arrive(call, now) => ArrivedKeepsInv(c, w, call, now);
      case Vote(call, failure, now) => VotedKeepsInv(c, w, call, failure, now);
      case Abandon(call) =>
        var w' := Next(c, w, a);
        assert Probes(w') == Probes(w) - {call};
        ProbeRemoved(w, w', call);
    }
  }

  lemma {:induction false} AfterInv(c: Config, acts: seq<Action>)
    requires c.Sane()
    ensures Inv(c, After(c, acts))
  {
    if acts == [] {
      assert Probes(START) == {};
    } else {
      AfterInv(c, acts[..|acts| - 1]);
      NextKeepsInv(c, After(c, acts[..|acts| - 1]), acts[|acts| - 1]);
    }
  }

  ghost predicate EveryoneVotes(acts: seq<Action>) {
    forall i :: 0 <= i < |acts| ==> !acts[i].Abandon?
  }

  lemma {:induction false} NothingLost(c: Config, acts: seq<Action>)
    requires EveryoneVotes(acts)
    ensures After(c, acts).lost == 0
  {
    if acts != [] {
      var rest := acts[..|acts| - 1];
      assert forall i :: 0 <= i < |rest| ==> rest[i] == acts[i];
      NothingLost(c, rest);
    }
  }

  // --- Half-open never wedges --------------------------------------------------------------

  /** When every admitted call votes, the in-flight counter never exceeds the probes really
      running; so a half-open rejection means at least `half_open_max_calls` probes of this
      episode are outstanding, and with none outstanding the next call is admitted. */
  lemma {:induction false} HalfOpenNeverWedges(c: Config, acts: seq<Action>, now: nat)
    requires c.Sane() && EveryoneVotes(acts) && After(c, acts).state.phase == HalfOpen
    ensures var w := After(c, acts);
      w.state.inFlight <= |Probes(w)| &&
      (GateAnswer(c, w.state, now) == Reject ==> |Probes(w)| >= c.maxCalls) &&
      (Probes(w) == {} ==> GateAnswer(c, w.state, now) == Admit(HalfOpen))
  {
    AfterInv(c, acts);
    NothingLost(c, acts);
  }

  // --- How many probes really run at once ---------------------------------------------------

  /** In world `w` action `a` is a success of a call that does not probe the current episode. */
  predicate StaleSuccess(w: World, a: Action) {
    a.Vote? && !a.failure && Enabled(w, a) && w.state.phase == HalfOpen && w.running[a.call] != w.episode
  }

  /** In world `w` action `a` is a success that finds the half-open counter at zero. */
  predicate FindsZero(w: World, a: Action) {
    a.Vote? && !a.failure && Enabled(w, a) && w.state.phase == HalfOpen && w.state.inFlight == 0
  }

  /** The successes of stale calls, and the successes that found the counter at zero, since the
      current episode began; counted from the actions. */
  function Strays(c: Config, acts: seq<Action>): (nat, nat) {
    if acts == [] then (0, 0)
    else
      var rest, a := acts[..|acts| - 1], acts[|acts| - 1];
      var w, (stale, zero) := After(c, rest), Strays(c, rest);
      if Next(c, w, a).episode != w.episode then (0, 0)
      else (stale + (if StaleSuccess(w, a) then 1 else 0), zero + (if FindsZero(w, a) then 1 else 0))
  }

  ghost predicate Counted(w: World, stale: nat, zero: nat) {
    w.state.phase == HalfOpen ==>
      |Probes(w)| + w.lost + zero == w.state.inFlight + stale && stale <= w.state.successes
  }

  lemma {:induction false} ArrivalCounted(c: Config, w: World, call: Call, now: nat, stale: nat, zero: nat)
    requires c.Sane() && Inv(c, w) && call !in w.running && Counted(w, stale, zero)
    ensures var w' := Arrived(c, w, call, now);
      if w'.episode != w.episode then Counted(w', 0, 0) else Counted(w', stale, zero)
  {
    var w' := Arrived(c, w, call, now);
    if w'.running == w.running {
      assert Probes(w') == Probes(w);
    } else if w.state.phase == Open {
      assert Probes(w') == {call};
    } else if w.state.phase == HalfOpen {
      assert Probes(w') == Probes(w) + {call};
    }
  }

  lemma {:induction false} VoteCounted(c: Config, w: World, call: Call, failure: bool, now: nat, stale: nat, zero: nat)
    requires c.Sane() && Inv(c, w) && call in w.running && Counted(w, stale, zero)
    ensures var a := Vote(call, failure, now);
      Counted(Next(c, w, a), stale + (if StaleSuccess(w, a) then 1 else 0), zero + (if FindsZero(w, a) then 1 else 0))
  {
    var a := Vote(call, failure, now);
    var w' := Next(c, w, a);
    VoteStep(c, w.state, failure, now);
    assert Probes(w') == Probes(w) - {call};
    ProbeRemoved(w, w', call);
    if failure {
      assert w'.state.phase != HalfOpen;
    }
  }

  lemma {:induction false} StraysCounted(c: Config, acts: seq<Action>)
    requires c.Sane()
    ensures Counted(After(c, acts), Strays(c, acts).0, Strays(c, acts).1)
  {
    if acts != [] {
      var rest, a := acts[..|acts| - 1], acts[|acts| - 1];
      var w := After(c, rest);
      var (stale, zero) := Strays(c, rest);
      StraysCounted(c, rest);
      AfterInv(c, rest);
      if Enabled(w, a) {
        match a
        case Arrive(call, now) => ArrivalCounted(c, w, call, now, stale, zero);
        case Vote(call, failure, now) => VoteCounted(c, w, call, failure, now, stale, zero);
        case Abandon(call) =>
          assert Probes(Next(c, w, a)) == Probes(w) - {call};
          ProbeRemoved(w, Next(c, w, a), call);
      }
    }
  }

  /** The limit bounds the half-open counter, not the probes of the episode that run: those exceed
      the counter by exactly the successes of calls from earlier eras, less the probes that
      vanished and the successes that found the counter already at zero.  At most
      `2 * half_open_max_calls - 1` probes of the current episode ever run at once. */
  lemma {:induction false} OutstandingProbes(c: Config, acts: seq<Action>)
    requires c.Sane() && After(c, acts).state.phase == HalfOpen
    ensures var w, (stale, zero) := After(c, acts), Strays(c, acts);
      |Probes(w)| - w.state.inFlight == stale - w.lost - zero &&
      w.state.inFlight <= c.maxCalls && |Probes(w)| <= 2 * c.maxCalls - 1
  {
    StraysCounted(c, acts);
    AfterInv(c, acts);
  }

  /** The probes of any episode that are still running. */
  function AllProbes(w: World): set<Call> {
    set call | call in w.running && w.running[call] >= 1
  }

  /** Those of episodes that are over. */
  function EarlierProbes(w: World): set<Call> {
    set call | call in w.running && 1 <= w.running[call] < w.episode
  }

  /** All the probes that run at once, whichever episode admitted them: beside the strays of the
      current episode, those of earlier ones count in full.  So the limit bounds them exactly when
      stale successes and earlier probes together do not use up the room the counter leaves. */
  lemma {:induction false} RunningProbes(c: Config, acts: seq<Action>)
    requires c.Sane() && After(c, acts).state.phase == HalfOpen
    ensures var w, (stale, zero) := After(c, acts), Strays(c, acts);
      |AllProbes(w)| - w.state.inFlight == stale - w.lost - zero + |EarlierProbes(w)| &&
      (|AllProbes(w)| <= c.maxCalls <==>
        stale + |EarlierProbes(w)| <= c.maxCalls - w.state.inFlight + w.lost + zero)
  {
    OutstandingProbes(c, acts);
    AfterInv(c, acts);
    var w := After(c, acts);
    assert AllProbes(w) == Probes(w) + EarlierProbes(w);
    assert Probes(w) !! EarlierProbes(w);
  }

  lemma ArrivalAddsProbe(c: Config, w: World, call: Call, now: nat)
    requires call !in w.running && (w.state.phase == HalfOpen ==> w.episode >= 1)
    ensures AllProbes(Arrived(c, w, call, now)) ==
      if GateAnswer(c, w.state, now) == Admit(HalfOpen) then AllProbes(w) + {call} else AllProbes(w)
  {}

  lemma {:induction false} LeavingDropsProbe(c: Config, w: World, a: Action)
    requires !a.Arrive? && Enabled(w, a)
    ensures AllProbes(Next(c, w, a)) == AllProbes(w) - {a.call}
  {
    hide Step;
  }

  lemma NotRunningNoProbe(w: World, call: Call)
    requires call !in w.running
    ensures call !in AllProbes(w)
  {}

  /** Exactly which action takes the running probes over the limit, whatever the phase: the arrival
      of a call that the gate admits as a probe while as many as the limit are running. */
  lemma {:induction false} LimitBrokenExactlyWhen(c: Config, w: World, a: Action)
    requires c.Sane() && Inv(c, w) && |AllProbes(w)| <= c.maxCalls
    ensures |AllProbes(Next(c, w, a))| > c.maxCalls <==>
      a.Arrive? && Enabled(w, a) && |AllProbes(w)| == c.maxCalls &&
      GateAnswer(c, w.state, a.now) == Admit(HalfOpen)
  {
    hide Arrived, Step, GateAnswer, AllProbes;
    if Enabled(w, a) {
      if a.Arrive? {
        ArrivalAddsProbe(c, w, a.call, a.now);
        NotRunningNoProbe(w, a.call);
      } else {
        LeavingDropsProbe(c, w, a);
      }
    }
  }

  /** No gate will ever admit again, whatever happens. */
  ghost predicate Wedged(c: Config, w: World) {
    forall later, now :: GateAnswer(c, Continue(c, w, later).state, now) == Reject
  }

  lemma {:induction false} Stuck(c: Config, w: World, later: seq<Action>)
    requires w.state.phase == HalfOpen && w.state.inFlight >= c.maxCalls && w.running == map[]
    ensures Continue(c, w, later) == w
  {
    if later != [] {
      Stuck(c, w, later[..|later| - 1]);
    }
  }

  lemma {:induction false} ContinueSnoc(c: Config, w: World, acts: seq<Action>, a: Action)
    ensures Continue(c, w, acts + [a]) == Next(c, Continue(c, w, acts), a)
  {
    assert (acts + [a])[..|acts|] == acts;
  }

  /** With calls that end without voting a half-open breaker can wedge for good: exactly when
      its counter is at the limit and no call, probe or stale, is left running. */
  lemma {:induction false} WedgedExactlyWhen(c: Config, w: World)
    requires c.Sane() && Coherent(c, w.state) && w.state.phase == HalfOpen
    ensures Wedged(c, w) <==> w.state.inFlight == c.maxCalls && w.running == map[]
  {
    if w.state.inFlight < c.maxCalls {
      assert GateAnswer(c, Continue(c, w, []).state, 0) == Admit(HalfOpen);
    } else if w.running != map[] {
      var call :| call in w.running;
      ContinueSnoc(c, w, [], Vote(call, false, 0));
      assert GateAnswer(c, Continue(c, w, [] + [Vote(call, false, 0)]).state, 0) != Reject;
    } else {
      forall later, now ensures GateAnswer(c, Continue(c, w, later).state, now) == Reject {
        Stuck(c, w, later);
      }
    }
  }

  // --- Episodes are bounded -----------------------------------------------------------------

  lemma {:induction false} CountedByEpisode(c: Config, acts: seq<Action>, k: nat)
    requires c.Sane() && k >= 1
    ensures var w := After(c, acts);
      (k == w.episode ==> AdmittedIn(c, acts, k) == w.admitted) &&
      (k > w.episode ==> AdmittedIn(c, acts, k) == 0) &&
      AdmittedIn(c, acts, k) <= 2 * c.maxCalls - 1
  {
    AfterInv(c, acts);
    if acts != [] {
      var rest := acts[..|acts| - 1];
      AfterInv(c, rest);
      CountedByEpisode(c, rest, k);
    }
  }

  /** One half-open episode admits at most `2 * half_open_max_calls - 1` calls, counted from
      the run's own admissions, whatever stale votes free slots during it and whether or not
      probes vanish. */
  lemma {:induction false} EpisodeAdmissionsBounded(c: Config, acts: seq<Action>, k: nat)
    requires c.Sane() && k >= 1
    ensures AdmittedIn(c, acts, k) <= 2 * c.maxCalls - 1
  {
    CountedByEpisode(c, acts, k);
  }

  // --- Both bounds are attained ----------------------------------------------------------------

  /** Episode 1 has admitted calls 1..`a`; calls 1..`s` have succeeded, the rest are running. */
  ghost predicate Probing(w: World, f: nat, s: nat, a: nat) {
    w.state.phase == HalfOpen && w.state.inFlight == f && w.state.successes == s &&
    w.episode == 1 && w.admitted == a &&
    forall call :: (call in w.running <==> s < call <= a) && (call in w.running ==> w.running[call] == 1)
  }

  /** A breaker that trips on one failure and cools down at once. */
  function Touchy(maxCalls: nat): Config { Config(Consecutive(1), 0, maxCalls) }

  /** A call fails, the breaker opens, and the next call is the first probe. */
  function Opening(): seq<Action> {
    [] + [Arrive(0, 0)] + [Vote(0, true, 0)] + [Arrive(1, 0)]
  }

  lemma {:induction false} FirstFailure(m: nat)
    requires m >= 1
    ensures var w := After(Touchy(m), [] + [Arrive(0, 0)] + [Vote(0, true, 0)]);
      w.running == map[] && w.state.phase == Open && w.state.openUntil == Some(0) && w.episode == 0
  {
    var c, a0, a1 := Touchy(m), Arrive(0, 0), Vote(0, true, 0);
    ContinueSnoc(c, START, [], a0);
    ContinueSnoc(c, START, [] + [a0], a1);
    var w1 := After(c, [] + [a0]);
    assert w1 == START.(running := map[0 := 0]);
    ThresholdStep(c, w1.state, true, 0);
  }

  lemma ProbeStarts(m: nat, w: World)
    requires w.running == map[] && w.state.phase == Open && w.state.openUntil == Some(0) && w.episode == 0
    ensures Probing(Next(Touchy(m), w, Arrive(1, 0)), 1, 0, 1)
  {}

  lemma {:induction false} FirstProbe(m: nat)
    requires m >= 1
    ensures Probing(After(Touchy(m), Opening()), 1, 0, 1)
  {
    hide Next, Continue, Probing;
    FirstFailure(m);
    ProbeStarts(m, After(Touchy(m), [] + [Arrive(0, 0)] + [Vote(0, true, 0)]));
    ContinueSnoc(Touchy(m), START, [] + [Arrive(0, 0)] + [Vote(0, true, 0)], Arrive(1, 0));
  }

  lemma {:induction false} Admitting(m: nat, k: nat) returns (acts: seq<Action>)
    requires 1 <= k <= 2 * m - 1
    ensures Probing(After(Touchy(m), acts), Min(k, m), Max(k - m, 0), k)
    decreases k
  {
    if k == 1 {
      FirstProbe(m);
      acts := Opening();
    } else {
      acts := Admitting(m, k - 1);
      var c, f, s := Touchy(m), Min(k - 1, m), Max(k - 1 - m, 0);
      if k > m {
        ContinueSnoc(c, START, acts, Vote(s + 1, false, 0));
        acts, f, s := acts + [Vote(s + 1, false, 0)], f - 1, s + 1;
      }
      ContinueSnoc(c, START, acts, Arrive(k, 0));
      acts := acts + [Arrive(k, 0)];
    }
  }

  /** The bound on an episode's admissions is reached, for every limit. */
  lemma {:induction false} EpisodeBoundAttained(m: nat) returns (acts: seq<Action>)
    requires m >= 1
    ensures Touchy(m).Sane() && AdmittedIn(Touchy(m), acts, 1) == 2 * m - 1
  {
    acts := Admitting(m, 2 * m - 1);
    CountedByEpisode(Touchy(m), acts, 1);
  }

  /** The wedge is reached too: with a limit of one, a single dropped probe is enough. */
  lemma {:induction false} WedgeIsReachable()
    ensures Wedged(Touchy(1), After(Touchy(1), Opening() + [Abandon(1)]))
  {
    var acts := Opening();
    FirstProbe(1);
    ContinueSnoc(Touchy(1), START, acts, Abandon(1));
    AfterInv(Touchy(1), acts + [Abandon(1)]);
    var w := After(Touchy(1), acts + [Abandon(1)]);
    assert forall call :: call !in w.running;
    WedgedExactlyWhen(Touchy(1), w);
  }

  /** Two probes are running, and a call admitted while closed. */
  lemma {:induction false} StaleCallProbed() returns (acts: seq<Action>)
    ensures var w := After(Touchy(2), acts);
      w.state.phase == HalfOpen && w.state.inFlight == 2 && w.state.successes == 0 && w.episode == 1 &&
      w.running == map[9 := 0, 1 := 1, 2 := 1]
    ensures Strays(Touchy(2), acts) == (0, 0)
  {
    var c := Touchy(2);
    var a0, a1, a2, a3, a4 := Arrive(9, 0), Arrive(0, 0), Vote(0, true, 0), Arrive(1, 0), Arrive(2, 0);
    acts := [] + [a0] + [a1] + [a2];
    ContinueSnoc(c, START, [], a0);
    ContinueSnoc(c, START, [] + [a0], a1);
    ContinueSnoc(c, START, [] + [a0] + [a1], a2);
    var w2 := After(c, [] + [a0] + [a1]);
    assert w2 == START.(running := map[9 := 0, 0 := 0]);
    ThresholdStep(c, w2.state, true, 0);
    var w3 := After(c, acts);
    assert w3.running == map[9 := 0] && w3.state.phase == Open && w3.state.openUntil == Some(0) && w3.episode == 0;
    ContinueSnoc(c, START, acts, a3);
    ContinueSnoc(c, START, acts + [a3], a4);
    assert (acts + [a3])[..|acts|] == acts && (acts + [a3] + [a4])[..|acts| + 1] == acts + [a3];
    acts := acts + [a3] + [a4];
  }

  /** One stale success is enough to let more probes run than the limit says: three under a limit
      of two, after a call admitted while closed succeeds during the episode. */
  lemma {:induction false} MoreProbesThanTheLimit() returns (acts: seq<Action>)
    ensures Touchy(2).Sane() && Probes(After(Touchy(2), acts)) == {1, 2, 3}
    ensures Strays(Touchy(2), acts) == (1, 0)
  {
    var c := Touchy(2);
    acts := StaleCallProbed();
    var w := After(c, acts);
    var a, b := Vote(9, false, 0), Arrive(3, 0);
    ContinueSnoc(c, START, acts, a);
    ContinueSnoc(c, START, acts + [a], b);
    assert (acts + [a])[..|acts|] == acts && (acts + [a] + [b])[..|acts| + 1] == acts + [a];
    acts := acts + [a] + [b];
    assert forall call :: call in After(c, acts).running <==> call in {1, 2, 3};
  }

  // --- No limit bounds the probes of all episodes -------------------------------------------------

  /** Calls 1..`n` were admitted while closed and are running. */
  lemma {:induction false} ClosedCalls(k: nat, n: nat) returns (acts: seq<Action>)
    ensures var w := After(Touchy(k), acts);
      w.state == INITIAL && w.episode == 0 &&
      forall call :: (call in w.running <==> 1 <= call <= n) && (call in w.running ==> w.running[call] == 0)
  {
    acts := [];
    if n > 0 {
      acts := ClosedCalls(k, n - 1);
      ContinueSnoc(Touchy(k), START, acts, Arrive(n, 0));
      acts := acts + [Arrive(n, 0)];
    }
  }

  /** `i` episodes are over, each ended by one of the closed-era calls 1..`i`; the others of those,
      up to `n`, and the probe of every episode, `n + 1`..`n + i`, are still running. */
  ghost predicate Piled(w: World, n: nat, i: nat) {
    w.state.phase == Open && w.state.openUntil == Some(0) && w.episode == i &&
    forall call :: (call in w.running <==> i < call <= n + i) &&
      (call in w.running ==> if call <= n then w.running[call] == 0 else w.running[call] >= 1)
  }

  lemma {:induction false} Piling(k: nat, n: nat, i: nat) returns (acts: seq<Action>)
    requires k >= 1 && i <= n
    ensures Piled(After(Touchy(k), acts), n, i)
  {
    var c := Touchy(k);
    if i == 0 {
      acts := ClosedCalls(k, n);
      var w := After(c, acts);
      ContinueSnoc(c, START, acts, Arrive(0, 0));
      ContinueSnoc(c, START, acts + [Arrive(0, 0)], Vote(0, true, 0));
      ThresholdStep(c, INITIAL, true, 0);
      acts := acts + [Arrive(0, 0)] + [Vote(0, true, 0)];
    } else {
      acts := Piling(k, n, i - 1);
      ContinueSnoc(c, START, acts, Arrive(n + i, 0));
      ContinueSnoc(c, START, acts + [Arrive(n + i, 0)], Vote(i, true, 0));
      acts := acts + [Arrive(n + i, 0)] + [Vote(i, true, 0)];
    }
  }

  lemma {:induction false} RangeCount(s: set<Call>, lo: nat, n: nat)
    requires forall call :: call in s <==> lo < call <= lo + n
    ensures |s| == n
  {
    if n > 0 {
      RangeCount(s - {lo + n}, lo, n - 1);
    } else {
      assert s == {};
    }
  }

  /** No limit bounds the probes that run at once: under every limit `k`, for every `n`, some run
      leaves exactly `n` probes running, each of an episode that a late failure ended. */
  lemma {:induction false} ProbesUnbounded(n: nat, k: nat) returns (acts: seq<Action>)
    requires k >= 1
    ensures Touchy(k).Sane() && |AllProbes(After(Touchy(k), acts))| == n
  {
    acts := Piling(k, n, n);
    RangeCount(AllProbes(After(Touchy(k), acts)), n, n);
  }
}
