/** What the circuit breaker keeps over every history of atomic operations
    (src/breaker.rs:187-316). */
module BreakerHistory {
  import opened Common
  import opened SlidingWindow
  import opened Breaker

  lemma {:induction false} RunSnoc(c: Config, es: seq<Event>, e: Event)
    ensures Run(c, es + [e]) == Step(c, Run(c, es), e)
  {
    assert (es + [e])[..|es|] == es;
  }

  lemma {:induction false} RunPrefix(c: Config, es: seq<Event>, k: nat)
    requires k < |es|
    ensures Run(c, es[..k + 1]) == Step(c, Run(c, es[..k]), es[k])
  {
    assert es[..k + 1][..k] == es[..k];
  }

  // --- The counters agree with the phase ------------------------------------------------

  ghost predicate Coherent(c: Config, s: State) {
    match s.phase
    case Closed => s.inFlight == 0 && s.successes == 0
    case Open => s.inFlight == 0 && s.successes == 0 && s.openUntil.Some?
    case HalfOpen => s.inFlight <= c.maxCalls && s.successes < c.maxCalls
  }

  lemma StepCoherent(c: Config, s: State, e: Event)
    requires c.Sane() && Coherent(c, s)
    ensures Coherent(c, Step(c, s, e))
  {}

  lemma {:induction false} RunCoherent(c: Config, es: seq<Event>)
    requires c.Sane()
    ensures Coherent(c, Run(c, es))
  {
    if es != [] {
      RunCoherent(c, es[..|es| - 1]);
      StepCoherent(c, Run(c, es[..|es| - 1]), es[|es| - 1]);
    }
  }

  /** In every reachable state the polled view and the gate tell the same story: an admission
      sees the polled phase, a rejection means cooling or a full half-open breaker, and
      `cooling_until` has an answer exactly while the polled phase is Open. */
  lemma {:induction false} PollAgreesWithGate(c: Config, es: seq<Event>, now: nat)
    requires c.Sane()
    ensures var s := Run(c, es);
      (forall p :: GateAnswer(c, s, now) == Admit(p) ==> StateAt(s, now) == p) &&
      (GateAnswer(c, s, now) == Reject <==>
        StateAt(s, now) == Open || (s.phase == HalfOpen && s.inFlight == c.maxCalls)) &&
      (CoolingUntil(s, now).Some? <==> StateAt(s, now) == Open) &&
      (CoolingUntil(s, now).Some? ==>
        now < CoolingUntil(s, now).value &&
        (forall t: nat :: StateAt(s, t) == Open <==> t < CoolingUntil(s, now).value))
  {
    RunCoherent(c, es);
  }

  // --- Consecutive mode against the vote history ------------------------------------------

  /** The votes (true for a failure) the breaker has counted since it last closed. */
  function VotesSinceClose(c: Config, es: seq<Event>): seq<bool> {
    if es == [] then []
    else
      var rest, e := es[..|es| - 1], es[|es| - 1];
      if Run(c, rest).phase == Phase.Closed then
        VotesSinceClose(c, rest) + if e.Record? then [e.failure] else []
      else []
  }

  /** The length of the run of failures a vote list ends in. */
  function TrailingFailures(votes: seq<bool>): nat {
    if votes == [] || !votes[|votes| - 1] then 0 else 1 + TrailingFailures(votes[..|votes| - 1])
  }

  lemma {:induction false} TrailingSnoc(votes: seq<bool>, failure: bool)
    ensures TrailingFailures(votes + [failure]) == if failure then TrailingFailures(votes) + 1 else 0
  {
    assert (votes + [failure])[..|votes|] == votes;
  }

  /** While closed, the counter is exactly the failure run of the votes since the last close
      (in either mode), and in consecutive mode it is below the threshold. */
  lemma {:induction false} CounterIsFailureRun(c: Config, es: seq<Event>)
    requires c.Sane() && Run(c, es).phase == Phase.Closed
    ensures Run(c, es).consecutive == TrailingFailures(VotesSinceClose(c, es))
    ensures c.trip.Consecutive? ==> Run(c, es).consecutive < c.trip.threshold
  {
    if es != [] {
      var rest, e := es[..|es| - 1], es[|es| - 1];
      if Run(c, rest).phase == Phase.Closed {
        CounterIsFailureRun(c, rest);
        if e.Record? {
          TrailingSnoc(VotesSinceClose(c, rest), e.failure);
        } else {
          assert VotesSinceClose(c, es) == VotesSinceClose(c, rest);
        }
      }
    }
  }

  lemma ThresholdStep(c: Config, s: State, failure: bool, now: nat)
    requires c.trip.Consecutive? && s.phase == Phase.Closed && s.consecutive < c.trip.threshold
    ensures var after := Step(c, s, Event.Record(failure, now));
      if failure && s.consecutive + 1 == c.trip.threshold
      then after.phase == Open && after.openUntil == Some(now + c.openFor)
      else after.phase == Phase.Closed
  {}

  /** A closed breaker in consecutive mode opens on exactly the vote that completes
      `threshold` failures in a row, and otherwise stays closed. */
  lemma {:induction false} OpensExactlyAtThreshold(c: Config, es: seq<Event>, failure: bool, now: nat)
    requires c.Sane() && c.trip.Consecutive? && Run(c, es).phase == Phase.Closed
    ensures var after := Run(c, es + [Event.Record(failure, now)]);
      var votes := VotesSinceClose(c, es) + [failure];
      (after.phase == Open <==> TrailingFailures(votes) == c.trip.threshold) &&
      (after.phase == Phase.Closed <==> TrailingFailures(votes) < c.trip.threshold) &&
      (after.phase == Open ==> after.openUntil == Some(now + c.openFor))
  {
    CounterIsFailureRun(c, es);
    RunSnoc(c, es, Event.Record(failure, now));
    TrailingSnoc(VotesSinceClose(c, es), failure);
    ThresholdStep(c, Run(c, es), failure, now);
  }

  /** A vote reports a transition exactly when it closes the breaker, or opens it from another
      phase, or is a failure that moves the deadline of an open one. */
  lemma TransitionReported(c: Config, s: State, failure: bool, now: nat)
    requires c.Sane() && Coherent(c, s)
    ensures var s', told := Step(c, s, Event.Record(failure, now)), Transition(c, s, failure, now);
      (told == Some(Phase.Closed) <==> s.phase == HalfOpen && s'.phase == Phase.Closed) &&
      (s.phase != Open ==> (told == Some(Open) <==> s'.phase == Open)) &&
      (s.phase == Open ==> s'.phase == Open && (told == None ==> s'.openUntil == s.openUntil)) &&
      (told.Some? ==> told.value == s'.phase && told.value != HalfOpen) &&
      (told == Some(Open) ==> failure && s'.openUntil == Some(now + c.openFor)) &&
      (told == None ==> s'.phase == s.phase)
  {}

  /** A late vote on an open breaker in consecutive mode: a failure opens it again, for the full
      cooldown, exactly when it completes the threshold; otherwise only the counter moves. */
  lemma LateVote(c: Config, s: State, failure: bool, now: nat)
    requires c.Sane() && c.trip.Consecutive? && s.phase == Open
    ensures var s', again := Step(c, s, Event.Record(failure, now)), failure && s.consecutive + 1 >= c.trip.threshold;
      (Transition(c, s, failure, now) == if again then Some(Open) else None) &&
      s'.phase == Open && s'.openUntil == (if again then Some(now + c.openFor) else s.openUntil) &&
      s'.consecutive == if failure then s.consecutive + 1 else 0
  {}

  // --- Half-open against the vote history ---------------------------------------------------

  /** The successes (of probes or of calls admitted earlier) since the breaker went half-open. */
  function SuccessesSinceProbing(c: Config, es: seq<Event>): nat {
    if es == [] then 0
    else
      var rest, e := es[..|es| - 1], es[|es| - 1];
      if Run(c, rest).phase == HalfOpen then
        SuccessesSinceProbing(c, rest) + if e.Record? && !e.failure then 1 else 0
      else 0
  }

  lemma ProbingStarts(c: Config, s: State, e: Event)
    requires s.phase != HalfOpen && Step(c, s, e).phase == HalfOpen
    ensures Step(c, s, e).successes == 0
  {}

  lemma {:induction false} CounterIsSuccesses(c: Config, es: seq<Event>)
    requires c.Sane() && Run(c, es).phase == HalfOpen
    ensures Run(c, es).successes == SuccessesSinceProbing(c, es) < c.maxCalls
  {
    if es != [] {
      var rest, e := es[..|es| - 1], es[|es| - 1];
      if Run(c, rest).phase == HalfOpen {
        CounterIsSuccesses(c, rest);
      } else {
        ProbingStarts(c, Run(c, rest), e);
      }
    }
  }

  /** A half-open breaker closes on exactly the vote that completes `half_open_max_calls`
      successes, and then remembers nothing; a failure reopens it for the full cooldown. */
  lemma {:induction false} ClosesExactlyAfterProbes(c: Config, es: seq<Event>, failure: bool, now: nat)
    requires c.Sane() && Run(c, es).phase == HalfOpen
    ensures var after := Run(c, es + [Event.Record(failure, now)]);
      (after.phase == Phase.Closed <==> !failure && SuccessesSinceProbing(c, es) + 1 == c.maxCalls) &&
      (after.phase == Open <==> failure) &&
      (after.phase == Phase.Closed ==> after == INITIAL.(openUntil := after.openUntil)) &&
      (after.phase == Open ==> after.openUntil == Some(now + c.openFor))
  {
    CounterIsSuccesses(c, es);
    RunSnoc(c, es, Event.Record(failure, now));
  }

  // --- Ratio mode against the exact vote log ------------------------------------------------

  /** What one event does to the window: a vote outside half-open is recorded, closing clears. */
  function WindowOp(c: Config, before: State, e: Event): Option<Op> {
    if e.Gate? then None
    else if before.phase != HalfOpen then Some(Op.Record(Vote(e.now, e.failure)))
    else if Step(c, before, e).phase == Phase.Closed then Some(Op.Clear)
    else None
  }

  function WindowOps(c: Config, es: seq<Event>): seq<Op> {
    if es == [] then []
    else
      var rest, e := es[..|es| - 1], es[|es| - 1];
      match WindowOp(c, Run(c, rest), e)
      case None => WindowOps(c, rest)
      case Some(op) => WindowOps(c, rest) + [op]
  }

  lemma {:induction false} ReplaySnoc(span: nat, ops: seq<Op>, op: Op)
    ensures Replay(span, ops + [op]) == Apply(span, Replay(span, ops), op)
    ensures Monotone(ops) && (op.Record? ==> Clock(ops) <= op.v.at) && !op.Read? ==> Monotone(ops + [op])
    ensures Clock(ops + [op]) == match op { case Record(v) => v.at case Read(at) => at case Clear => Clock(ops) }
  {
    assert (ops + [op])[..|ops|] == ops;
  }

  lemma {:induction false} WindowReplays(c: Config, es: seq<Event>)
    ensures Run(c, es).buckets == Replay(c.Span(), WindowOps(c, es))
  {
    if es != [] {
      var rest, e := es[..|es| - 1], es[|es| - 1];
      WindowReplays(c, rest);
      var op := WindowOp(c, Run(c, rest), e);
      if op.Some? {
        ReplaySnoc(c.Span(), WindowOps(c, rest), op.value);
      }
    }
  }

  ghost predicate MonotoneEvents(es: seq<Event>) {
    forall i, j :: 0 <= i < j < |es| ==> es[i].now <= es[j].now
  }

  lemma {:induction false} WindowOpsMonotone(c: Config, es: seq<Event>, now: nat)
    requires MonotoneEvents(es) && (es != [] ==> es[|es| - 1].now <= now)
    ensures Monotone(WindowOps(c, es)) && Clock(WindowOps(c, es)) <= now
  {
    if es != [] {
      var rest, e := es[..|es| - 1], es[|es| - 1];
      assert MonotoneEvents(rest) by {
        assert forall i :: 0 <= i < |rest| ==> rest[i] == es[i];
      }
      WindowOpsMonotone(c, rest, e.now);
      var op := WindowOp(c, Run(c, rest), e);
      if op.Some? {
        ReplaySnoc(c.Span(), WindowOps(c, rest), op.value);
      }
    }
  }

  /** The exact log, since the last close, of the votes counted up to and including a failure
      at `now` that meets the breaker outside half-open. */
  function LogWith(c: Config, es: seq<Event>, now: nat): seq<Vote> {
    Log(WindowOps(c, es)) + [Vote(now, true)]
  }

  lemma {:induction false} RatioBounds(r: Ratio, f: nat, t: nat, fl: nat, fh: nat, tl: nat, th: nat)
    requires t >= 1 && fl <= f <= fh && tl <= t <= th
    ensures if r.ReachedBy(f, t) then fh * r.den >= r.num * tl else fl * r.den < r.num * th
  {
    assert fl * r.den <= f * r.den <= fh * r.den;
    assert r.num * tl <= r.num * t <= r.num * th;
  }

  ghost predicate Sandwiched(span: nat, bs: seq<Bucket>, log: seq<Vote>, now: nat) {
    CountFrom(log, now - span + WidthOf(span)) <= SumTotal(bs) <= CountFrom(log, now - span) &&
    FailsFrom(log, now - span + WidthOf(span)) <= SumFails(bs) <= FailsFrom(log, now - span)
  }

  lemma {:induction false} RatioDecision(c: Config, s: State, now: nat, log: seq<Vote>)
    requires c.Sane() && c.trip.FailureRatio? && s.phase != HalfOpen
    requires Sandwiched(c.Span(), Tallied(c, s, Vote(now, true)).buckets, log, now)
    ensures var from, width, ratio := now - c.Span(), WidthOf(c.Span()), c.trip.ratio;
      if Transition(c, s, true, now) == Some(Open) then
        CountFrom(log, from) >= c.trip.minThroughput &&
        FailsFrom(log, from) * ratio.den >= ratio.num * CountFrom(log, from + width)
      else
        CountFrom(log, from + width) < c.trip.minThroughput ||
        FailsFrom(log, from + width) * ratio.den < ratio.num * CountFrom(log, from)
  {
    var from, width := now - c.Span(), WidthOf(c.Span());
    var bs := Tallied(c, s, Vote(now, true)).buckets;
    RatioBounds(c.trip.ratio, SumFails(bs), SumTotal(bs),
      FailsFrom(log, from + width), FailsFrom(log, from), CountFrom(log, from + width), CountFrom(log, from));
  }

  /** The totals a failure is judged by, against the exact log that includes it. */
  lemma {:induction false} TallyAgainstLog(c: Config, es: seq<Event>, now: nat)
    requires MonotoneEvents(es) && (es != [] ==> es[|es| - 1].now <= now)
    ensures Sandwiched(c.Span(), Tallied(c, Run(c, es), Vote(now, true)).buckets, LogWith(c, es, now), now)
  {
    var v, ops := Vote(now, true), WindowOps(c, es);
    WindowReplays(c, es);
    WindowOpsMonotone(c, es, now);
    ReplaySnoc(c.Span(), ops, Op.Record(v));
    assert (ops + [Op.Record(v)])[..|ops|] == ops;
    TotalsAfterRecord(c.Span(), Run(c, es).buckets, v);
    TotalsSandwich(c.Span(), ops + [Op.Record(v)], now);
  }

  /** In ratio mode, under a monotone clock, a failure trips a breaker only if the exact log
      of the last span bears it out up to one bucket width, and fails to trip only if the log
      without its oldest width does not reach the ratio or the throughput. */
  lemma {:induction false} RatioTripAgainstLog(c: Config, es: seq<Event>, now: nat)
    requires c.Sane() && c.trip.FailureRatio? && Run(c, es).phase != HalfOpen
    requires MonotoneEvents(es) && (es != [] ==> es[|es| - 1].now <= now)
    ensures var log := LogWith(c, es, now);
      var from, width, ratio := now - c.trip.window, Max(c.trip.window / 10, 1_000_000), c.trip.ratio;
      if Transition(c, Run(c, es), true, now) == Some(Open) then
        CountFrom(log, from) >= c.trip.minThroughput &&
        FailsFrom(log, from) * ratio.den >= ratio.num * CountFrom(log, from + width)
      else
        CountFrom(log, from + width) < c.trip.minThroughput ||
        FailsFrom(log, from + width) * ratio.den < ratio.num * CountFrom(log, from)
  {
    TallyAgainstLog(c, es, now);
    RatioDecision(c, Run(c, es), now, LogWith(c, es, now));
  }

  lemma {:induction false} SumsConcat(a: seq<Bucket>, b: seq<Bucket>)
    ensures SumTotal(a + b) == SumTotal(a) + SumTotal(b) && SumFails(a + b) == SumFails(a) + SumFails(b)
  {
    if a == [] {
      assert a + b == b;
    } else {
      assert (a + b)[1..] == a[1..] + b;
      SumsConcat(a[1..], b);
    }
  }

  lemma {:induction false} RetainConcat(a: seq<Bucket>, b: seq<Bucket>, cutoff: nat)
    ensures Retain(a + b, cutoff) == Retain(a, cutoff) + Retain(b, cutoff)
  {
    if a == [] {
      assert a + b == b;
    } else {
      assert (a + b)[1..] == a[1..] + b;
      RetainConcat(a[1..], b, cutoff);
      var head := if a[0].start >= cutoff then [a[0]] else [];
      assert head + (Retain(a[1..], cutoff) + Retain(b, cutoff)) == (head + Retain(a[1..], cutoff)) + Retain(b, cutoff);
    }
  }

  /** A later eviction makes an earlier one superfluous. */
  lemma {:induction false} RetainTwice(bs: seq<Bucket>, first: nat, second: nat)
    requires first <= second
    ensures Retain(Retain(bs, first), second) == Retain(bs, second)
  {
    if bs != [] {
      RetainTwice(bs[1..], first, second);
      var head := if bs[0].start >= first then [bs[0]] else [];
      RetainConcat(head, Retain(bs[1..], first), second);
      assert head != [] ==> Retain(head, second) == if bs[0].start >= second then [bs[0]] else [];
    }
  }

  lemma {:induction false} EvictTwice(span: nat, bs: seq<Bucket>, now: nat, t: nat)
    requires now <= t
    ensures Evict(span, Evict(span, bs, now), t) == Evict(span, bs, t)
  {
    if now >= span {
      RetainTwice(bs, now - span, t - span);
    }
  }

  lemma {:induction false} EvictConcat(span: nat, a: seq<Bucket>, b: seq<Bucket>, t: nat)
    ensures Evict(span, a + b, t) == Evict(span, a, t) + Evict(span, b, t)
  {
    if t >= span {
      RetainConcat(a, b, t - span);
    }
  }

  /** The start of the bucket a vote is counted in. */
  function BucketOf(span: nat, bs: seq<Bucket>, v: Vote): nat {
    var kept := Evict(span, bs, v.at);
    if kept != [] && Since(v.at, kept[|kept| - 1].start) < WidthOf(span) then kept[|kept| - 1].start else v.at
  }

  /** Whether the window at `t` still counts a vote. */
  function StillCounted(span: nat, bs: seq<Bucket>, v: Vote, t: nat): nat {
    if t < span || BucketOf(span, bs, v) >= t - span then 1 else 0
  }

  lemma {:induction false} EvictOne(span: nat, b: Bucket, t: nat)
    ensures Evict(span, [b], t) == if t < span || b.start >= t - span then [b] else []
  {
    if t >= span {
      assert [b][1..] == [] && Retain([], t - span) == [];
      assert Retain([b], t - span) == (if b.start >= t - span then [b] else []) + Retain([b][1..], t - span);
    }
  }

  /** A bucket replaced by one with the same start. */
  lemma {:induction false} MergedSums(span: nat, front: seq<Bucket>, last: Bucket, merged: Bucket, t: nat)
    requires merged.start == last.start
    ensures var before, after := Evict(span, front + [last], t), Evict(span, front + [merged], t);
      var one := if t < span || last.start >= t - span then 1 else 0;
      SumTotal(after) == SumTotal(before) + one * (merged.total - last.total) &&
      SumFails(after) == SumFails(before) + one * (merged.fails - last.fails)
  {
    EvictConcat(span, front, [last], t);
    EvictConcat(span, front, [merged], t);
    EvictOne(span, last, t);
    EvictOne(span, merged, t);
    SumsConcat(Evict(span, front, t), Evict(span, [last], t));
    SumsConcat(Evict(span, front, t), Evict(span, [merged], t));
  }

  /** A bucket added. */
  lemma {:induction false} PushedSums(span: nat, front: seq<Bucket>, pushed: Bucket, t: nat)
    ensures var before, after := Evict(span, front, t), Evict(span, front + [pushed], t);
      var one := if t < span || pushed.start >= t - span then 1 else 0;
      SumTotal(after) == SumTotal(before) + one * pushed.total &&
      SumFails(after) == SumFails(before) + one * pushed.fails
  {
    EvictConcat(span, front, [pushed], t);
    EvictOne(span, pushed, t);
    SumsConcat(Evict(span, front, t), Evict(span, [pushed], t));
  }

  /** The totals a vote leaves for a later instant: those of the buckets it found that are left by
      then, and the vote itself while its bucket is. */
  lemma {:induction false} LaterSums(span: nat, bs: seq<Bucket>, v: Vote, t: nat)
    requires v.at <= t
    ensures var kept, seen := Evict(span, bs, t), Evict(span, Recorded(span, bs, v), t);
      var one := StillCounted(span, bs, v, t);
      SumTotal(seen) == SumTotal(kept) + one && SumFails(seen) == SumFails(kept) + if v.failure then one else 0
  {
    hide Evict, SumTotal, SumFails, WidthOf, Since;
    var found, f := Evict(span, bs, v.at), if v.failure then 1 else 0;
    EvictTwice(span, bs, v.at, t);
    if found != [] && Since(v.at, found[|found| - 1].start) < WidthOf(span) {
      var front, last := found[..|found| - 1], found[|found| - 1];
      assert found == front + [last];
      MergedSums(span, front, last, Bucket(last.start, last.fails + f, last.total + 1), t);
    } else {
      PushedSums(span, found, Bucket(v.at, f, 1), t);
    }
  }

  /** Totals that reach the throughput and the ratio; an empty window reaches no ratio. */
  predicate Reaches(trip: Trip, failures: nat, total: nat)
    requires trip.FailureRatio?
  {
    total >= 1 && total >= trip.minThroughput && trip.ratio.ReachedBy(failures, total)
  }

  /** What a trip check at `t` would read. */
  predicate ReachesAt(c: Config, bs: seq<Bucket>, t: nat)
    requires c.trip.FailureRatio?
  {
    var seen := Evict(c.Span(), bs, t);
    Reaches(c.trip, SumFails(seen), SumTotal(seen))
  }

  lemma {:induction false} CountedAtOnce(span: nat, bs: seq<Bucket>, v: Vote)
    ensures StillCounted(span, bs, v, v.at) == 1
  {
    var kept := Evict(span, bs, v.at);
    if kept != [] && v.at >= span {
      RetainStarts(bs, v.at - span);
      assert kept[|kept| - 1] in kept;
    }
  }

  /** A breaker may be closed although its window reaches the ratio, for only failures are followed
      by the check, and only at their own instant.  After a vote at `now` that is so at an instant
      `t` exactly when the vote, if a failure, did not trip, and what is left at `t` of the buckets
      it found, with the vote itself while its bucket is left, reaches throughput and ratio. */
  lemma {:induction false} ClosedBeyondRatioExactlyWhen(c: Config, s: State, failure: bool, now: nat, t: nat)
    requires c.Sane() && c.trip.FailureRatio? && s.phase == Phase.Closed && now <= t
    ensures var s' := Step(c, s, Event.Record(failure, now));
      var found, kept := Evict(c.Span(), s.buckets, now), Evict(c.Span(), s.buckets, t);
      var one := StillCounted(c.Span(), s.buckets, Vote(now, failure), t);
      (s'.phase == Phase.Closed && ReachesAt(c, s'.buckets, t) <==>
        (failure ==> !Reaches(c.trip, SumFails(found) + 1, SumTotal(found) + 1)) &&
        Reaches(c.trip, SumFails(kept) + (if failure then one else 0), SumTotal(kept) + one))
  {
    hide WidthOf, Recorded, StillCounted, Evict;
    var v := Vote(now, failure);
    LaterSums(c.Span(), s.buckets, v, t);
    LaterSums(c.Span(), s.buckets, v, now);
    CountedAtOnce(c.Span(), s.buckets, v);
    TotalsAfterRecord(c.Span(), s.buckets, v);
  }

  /** One input: a failure and then a success, where half of two votes is enough. */
  lemma {:induction false} ClosedBeyondRatio()
    ensures var c := Config(FailureRatio(Ratio(1, 2), 2, 1_000_000_000), 0, 1);
      var s := Run(c, [] + [Event.Record(true, 0)] + [Event.Record(false, 0)]);
      s.phase == Phase.Closed && ReachesAt(c, s.buckets, 0)
  {
    var c := Config(FailureRatio(Ratio(1, 2), 2, 1_000_000_000), 0, 1);
    RunSnoc(c, [], Event.Record(true, 0));
    RunSnoc(c, [] + [Event.Record(true, 0)], Event.Record(false, 0));
    var s := Run(c, [] + [Event.Record(true, 0)]);
    assert s.buckets == [Bucket(0, 1, 1)] && s.phase == Phase.Closed;
    ClosedBeyondRatioExactlyWhen(c, s, false, 0, 0);
  }

  /** A breaker that wants nothing but failures, after one success. */
  const STRICT := Config(FailureRatio(Ratio(1, 1), 1, 1_000_000_000), 0, 1)

  lemma {:induction false} StrictAfterSuccess()
    ensures Run(STRICT, [] + [Event.Record(false, 0)]) == INITIAL.(buckets := [Bucket(0, 0, 1)])
  {
    RunSnoc(STRICT, [], Event.Record(false, 0));
  }

  /** The window of a second after that success and a failure half a second later. */
  lemma {:induction false} StrictWindow(t: nat)
    requires t == 500_000_000 || t == 1_200_000_000
    ensures var bs, span := [Bucket(0, 0, 1)], 1_000_000_000;
      SumFails(Evict(span, bs, t)) == 0 && SumTotal(Evict(span, bs, t)) == (if t == 500_000_000 then 1 else 0) &&
      StillCounted(span, bs, Vote(500_000_000, true), t) == 1
  {
    EvictOne(1_000_000_000, Bucket(0, 0, 1), t);
    EvictOne(1_000_000_000, Bucket(0, 0, 1), 500_000_000);
  }

  /** Another, in which no vote but the clock does it: a success and, half a second later, a
      failure leave a breaker that wants nothing but failures closed and below its ratio; when the
      success has left the window of one second, it is beyond. */
  lemma {:induction false} ClosedBeyondRatioByClock()
    ensures var s := Run(STRICT, [] + [Event.Record(false, 0)] + [Event.Record(true, 500_000_000)]);
      s.phase == Phase.Closed && !ReachesAt(STRICT, s.buckets, 500_000_000) &&
      ReachesAt(STRICT, s.buckets, 1_200_000_000)
  {
    hide Run, Step, ReachesAt, Evict, StillCounted;
    StrictAfterSuccess();
    RunSnoc(STRICT, [] + [Event.Record(false, 0)], Event.Record(true, 500_000_000));
    var s := Run(STRICT, [] + [Event.Record(false, 0)]);
    StrictWindow(500_000_000);
    StrictWindow(1_200_000_000);
    ClosedBeyondRatioExactlyWhen(STRICT, s, true, 500_000_000, 500_000_000);
    ClosedBeyondRatioExactlyWhen(STRICT, s, true, 500_000_000, 1_200_000_000);
  }

  // --- Under a monotone clock -----------------------------------------------------------------

  lemma DeadlineStep(c: Config, s: State, e: Event)
    ensures var u, u' := s.openUntil, Step(c, s, e).openUntil;
      (u' == u || u' == Some(e.now + c.openFor)) &&
      (u.Some? && u.value <= e.now + c.openFor ==> u'.Some? && u.value <= u'.value)
  {}

  lemma {:induction false} DeadlineBounded(c: Config, es: seq<Event>, k: nat)
    requires MonotoneEvents(es) && k <= |es|
    ensures var u := Run(c, es[..k]).openUntil;
      u.Some? ==> k > 0 && u.value <= es[k - 1].now + c.openFor
  {
    if k > 0 {
      hide Run, Step;
      DeadlineBounded(c, es, k - 1);
      RunPrefix(c, es, k - 1);
      DeadlineStep(c, Run(c, es[..k - 1]), es[k - 1]);
    }
  }

  /** The cooldown deadline never moves back, late failures on an open breaker included. */
  lemma {:induction false} DeadlineNeverDecreases(c: Config, es: seq<Event>, i: nat, j: nat)
    requires MonotoneEvents(es) && i <= j <= |es|
    requires Run(c, es[..i]).openUntil.Some?
    ensures var u, u' := Run(c, es[..i]).openUntil, Run(c, es[..j]).openUntil;
      u'.Some? && u.value <= u'.value
    decreases j
  {
    hide Run, Step;
    if i < j {
      DeadlineNeverDecreases(c, es, i, j - 1);
      DeadlineBounded(c, es, j - 1);
      RunPrefix(c, es, j - 1);
      DeadlineStep(c, Run(c, es[..j - 1]), es[j - 1]);
    }
  }

  /** Event `i` opened the breaker (for the first time or again). */
  ghost predicate Opens(c: Config, es: seq<Event>, i: nat)
    requires i < |es|
  {
    es[i].Record? && es[i].failure && Transition(c, Run(c, es[..i]), true, es[i].now) == Some(Open)
  }

  ghost predicate OpenThrough(s: State, deadline: nat) {
    s.phase == Open && s.openUntil.Some? && s.openUntil.value >= deadline
  }

  lemma OpeningStep(c: Config, s: State, now: nat)
    requires Transition(c, s, true, now) == Some(Open)
    ensures OpenThrough(Failed(c, s, now), now + c.openFor)
  {}

  lemma CoolingStep(c: Config, s: State, e: Event, deadline: nat)
    requires OpenThrough(s, deadline) && e.now < deadline <= e.now + c.openFor
    ensures OpenThrough(Step(c, s, e), deadline)
  {}

  lemma {:induction false} StaysOpen(c: Config, es: seq<Event>, i: nat, j: nat)
    requires c.Sane() && MonotoneEvents(es) && i < j < |es| && Opens(c, es, i)
    requires es[j].now < es[i].now + c.openFor
    ensures OpenThrough(Run(c, es[..j]), es[i].now + c.openFor)
    decreases j
  {
    var p := es[i].now;
    assert p <= es[j - 1].now <= es[j].now;
    RunPrefix(c, es, j - 1);
    if j == i + 1 {
      OpeningStep(c, Run(c, es[..i]), p);
    } else {
      StaysOpen(c, es, i, j - 1);
      CoolingStep(c, Run(c, es[..j - 1]), es[j - 1], p + c.openFor);
    }
  }

  /** After an opening at `p`, no call is admitted before `p + open_for`, whatever votes
      arrive in between; and the first gate at or after the deadline then in force admits. */
  lemma {:induction false} NoAdmissionWhileCooling(c: Config, es: seq<Event>, i: nat, j: nat)
    requires c.Sane() && MonotoneEvents(es) && i < j < |es| && Opens(c, es, i) && es[j].Gate?
    ensures es[j].now < es[i].now + c.openFor ==> GateAnswer(c, Run(c, es[..j]), es[j].now) == Reject
    ensures Run(c, es[..j]).phase == Open && es[j].now >= Run(c, es[..j]).openUntil.GetOr(0) ==>
      GateAnswer(c, Run(c, es[..j]), es[j].now) == Admit(HalfOpen)
  {
    if es[j].now < es[i].now + c.openFor {
      StaysOpen(c, es, i, j);
    }
  }

  // --- Every breaker can reject -------------------------------------------------------------------

  /** `k` failures at the beginning of the clock have not tripped the breaker. */
  ghost predicate Failing(s: State, k: nat) {
    s.phase == Phase.Closed && s.consecutive == k && s.buckets == if k == 0 then [] else [Bucket(0, k, k)]
  }

  lemma AllFailed(r: Ratio, n: nat)
    requires r.Sane() && n > 0
    ensures r.ReachedBy(n, n)
  {}

  lemma {:induction false} FailureTogether(c: Config, s: State, k: nat)
    requires c.Sane() && Failing(s, k)
    ensures var s' := Step(c, s, Event.Record(true, 0)); s'.phase == Open || Failing(s', k + 1)
    ensures k + 1 >= (if c.trip.Consecutive? then c.trip.threshold else Max(c.trip.minThroughput, 1)) ==>
      Step(c, s, Event.Record(true, 0)).phase == Open
  {
    EvictOne(c.Span(), Bucket(0, k, k), 0);
    var t := Tallied(c, s, Vote(0, true));
    assert t.buckets == [Bucket(0, k + 1, k + 1)];
    assert SumTotal(t.buckets) == SumFails(t.buckets) == k + 1 by {
      assert t.buckets[1..] == [];
    }
    if c.trip.FailureRatio? {
      AllFailed(c.trip.ratio, k + 1);
    }
  }

  lemma {:induction false} Tripping(c: Config, n: nat) returns (es: seq<Event>)
    requires c.Sane()
    ensures Run(c, es).phase == Open ||
      (Failing(Run(c, es), n) &&
       n < if c.trip.Consecutive? then c.trip.threshold else Max(c.trip.minThroughput, 1))
  {
    es := [];
    if n > 0 {
      es := Tripping(c, n - 1);
      if Run(c, es).phase != Open {
        FailureTogether(c, Run(c, es), n - 1);
        RunSnoc(c, es, Event.Record(true, 0));
        es := es + [Event.Record(true, 0)];
      }
    }
  }

  /** The breaker is half-open with `n` probes admitted. */
  lemma {:induction false} Filling(c: Config, n: nat) returns (es: seq<Event>)
    requires c.Sane() && 1 <= n <= c.maxCalls
    ensures Run(c, es).phase == HalfOpen && Run(c, es).inFlight == n
  {
    if n == 1 {
      es := Tripping(c, if c.trip.Consecutive? then c.trip.threshold else Max(c.trip.minThroughput, 1));
      RunCoherent(c, es);
      var now := Run(c, es).openUntil.value;
      RunSnoc(c, es, Event.Gate(now));
      es := es + [Event.Gate(now)];
    } else {
      es := Filling(c, n - 1);
      RunSnoc(c, es, Event.Gate(0));
      es := es + [Event.Gate(0)];
    }
  }

  /** Whatever its configuration, a breaker has histories after which it rejects at every instant. */
  lemma {:induction false} CanReject(c: Config) returns (es: seq<Event>)
    requires c.Sane()
    ensures forall now :: GateAnswer(c, Run(c, es), now) == Reject
  {
    es := Filling(c, c.maxCalls);
  }
}
