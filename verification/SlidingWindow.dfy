/** The breaker's time-bucketed failure window (src/breaker.rs, `Window`). */
module SlidingWindow {
  import opened Common
  /** (bucket_start, failures, total). */
  datatype Bucket = Bucket(start: nat, fails: nat, total: nat)

  /** A recorded vote. */
  datatype Vote = Vote(at: nat, failure: bool)

  /** The bucket width: a tenth of the span, rounded down, but at least a millisecond. */
  function WidthOf(span: nat): nat {
    if span / 10 < 1_000_000 then 1_000_000 else span / 10
  }

  /** `duration_since` saturates at zero when the clock appears to run backwards. */
  function Since(now: nat, earlier: nat): nat {
    if now >= earlier then now - earlier else 0
  }

  // --- The operations on the bucket list -----------------------------------------

  function Retain(bs: seq<Bucket>, cutoff: nat): seq<Bucket> {
    if bs == [] then []
    else (if bs[0].start >= cutoff then [bs[0]] else []) + Retain(bs[1..], cutoff)
  }

  /** Drops the buckets that start before `now - span`; nothing is dropped while that
      instant lies before the beginning of the clock. */
  function Evict(span: nat, bs: seq<Bucket>, now: nat): seq<Bucket> {
    if now >= span then Retain(bs, now - span) else bs
  }

  function SumFails(bs: seq<Bucket>): nat {
    if bs == [] then 0 else bs[0].fails + SumFails(bs[1..])
  }

  function SumTotal(bs: seq<Bucket>): nat {
    if bs == [] then 0 else bs[0].total + SumTotal(bs[1..])
  }

  lemma {:induction false} SumAtLeast(bs: seq<Bucket>, i: nat)
    requires i < |bs|
    ensures bs[i].total <= SumTotal(bs)
  {
    if i > 0 {
      SumAtLeast(bs[1..], i - 1);
    }
  }

  /** Counts a vote into the last bucket while that is younger than the width, and
      otherwise opens a bucket at the vote's instant. */
  function Push(width: nat, bs: seq<Bucket>, v: Vote): seq<Bucket> {
    var f := if v.failure then 1 else 0;
    if bs != [] && Since(v.at, bs[|bs| - 1].start) < width then
      var b := bs[|bs| - 1];
      bs[..|bs| - 1] + [Bucket(b.start, b.fails + f, b.total + 1)]
    else
      bs + [Bucket(v.at, f, 1)]
  }

  /** The bucket list after a vote.  Whatever the clock does, it is never empty of votes. */
  function Recorded(span: nat, bs: seq<Bucket>, v: Vote): (r: seq<Bucket>)
    ensures SumTotal(r) >= 1
  {
    var r := Push(WidthOf(span), Evict(span, bs, v.at), v);
    SumAtLeast(r, |r| - 1);
    r
  }

  // --- Histories -----------------------------------------------------------------

  /** What happened to a window: a vote, a reading of the totals (which evicts), or a clear. */
  datatype Op = Record(v: Vote) | Read(at: nat) | Clear

  function Apply(span: nat, bs: seq<Bucket>, op: Op): seq<Bucket> {
    match op
    case Record(v) => Recorded(span, bs, v)
    case Read(at) => Evict(span, bs, at)
    case Clear => []
  }

  function Replay(span: nat, ops: seq<Op>): seq<Bucket> {
    if ops == [] then []
    else Apply(span, Replay(span, ops[..|ops| - 1]), ops[|ops| - 1])
  }

  /** The exact log: every vote since the last clear. */
  function Log(ops: seq<Op>): seq<Vote> {
    if ops == [] then []
    else
      var before := Log(ops[..|ops| - 1]);
      match ops[|ops| - 1]
      case Record(v) => before + [v]
      case Read(_) => before
      case Clear => []
  }

  /** The latest instant any operation carried. */
  function Clock(ops: seq<Op>): nat {
    if ops == [] then 0
    else
      match ops[|ops| - 1]
      case Record(v) => v.at
      case Read(at) => at
      case Clear => Clock(ops[..|ops| - 1])
  }

  /** Operations carry nondecreasing instants. */
  ghost predicate Monotone(ops: seq<Op>) {
    ops != [] ==>
      var rest := ops[..|ops| - 1];
      Monotone(rest) &&
      match ops[|ops| - 1]
      case Record(v) => Clock(rest) <= v.at
      case Read(at) => Clock(rest) <= at
      case Clear => true
  }

  /** The votes at or after `t`. */
  function CountFrom(log: seq<Vote>, t: int): nat {
    if log == [] then 0 else (if log[0].at >= t then 1 else 0) + CountFrom(log[1..], t)
  }

  /** The failures at or after `t`. */
  function FailsFrom(log: seq<Vote>, t: int): nat {
    if log == [] then 0
    else (if log[0].at >= t && log[0].failure then 1 else 0) + FailsFrom(log[1..], t)
  }

  // --- What a bucket list says about the log ---------------------------------------

  /** `log`, cut into consecutive nonempty groups, is what the buckets count: each group
      falls within one width of its bucket's start. */
  ghost predicate Represents(width: nat, bs: seq<Bucket>, log: seq<Vote>) {
    if bs == [] then log == []
    else
      var b := bs[0];
      1 <= b.total <= |log| &&
      (forall i :: 0 <= i < b.total ==> b.start <= log[i].at < b.start + width) &&
      b.fails == FailsFrom(log[..b.total], 0) &&
      Represents(width, bs[1..], log[b.total..])
  }

  /** Successive buckets start at least one width apart. */
  ghost predicate Spaced(width: nat, bs: seq<Bucket>) {
    forall i :: 0 <= i < |bs| - 1 ==> bs[i].start + width <= bs[i + 1].start
  }

  /** What every monotone history keeps: the buckets represent the log without its first
      `gone` votes, and those are at least `span` less one width old. */
  ghost predicate Tracks(span: nat, bs: seq<Bucket>, log: seq<Vote>, clock: nat, gone: nat) {
    gone <= |log| &&
    Represents(WidthOf(span), bs, log[gone..]) && Spaced(WidthOf(span), bs) &&
    (forall b :: b in bs ==> b.start <= clock <= b.start + span) &&
    (forall i :: 0 <= i < gone ==> log[i].at + span < clock + WidthOf(span))
  }

  lemma {:induction false} SpacedFar(width: nat, bs: seq<Bucket>, i: nat, j: nat)
    requires Spaced(width, bs) && i <= j < |bs|
    ensures bs[i].start + (j - i) * width <= bs[j].start
    decreases j
  {
    if i < j {
      SpacedFar(width, bs, i, j - 1);
      assert (j - i) * width == (j - 1 - i) * width + width;
    }
  }

  lemma {:induction false} FailsConcat(a: seq<Vote>, b: seq<Vote>, t: int)
    ensures FailsFrom(a + b, t) == FailsFrom(a, t) + FailsFrom(b, t)
    ensures CountFrom(a + b, t) == CountFrom(a, t) + CountFrom(b, t)
  {
    if a == [] {
      assert a + b == b;
    } else {
      assert (a + b)[1..] == a[1..] + b;
      FailsConcat(a[1..], b, t);
    }
  }

  lemma {:induction false} AllFrom(log: seq<Vote>, t: int)
    requires forall v :: v in log ==> v.at >= t
    ensures CountFrom(log, t) == |log| && FailsFrom(log, t) == FailsFrom(log, 0)
  {
    if log != [] {
      AllFrom(log[1..], t);
    }
  }

  lemma {:induction false} NoneFrom(log: seq<Vote>, t: int)
    requires forall v :: v in log ==> v.at < t
    ensures CountFrom(log, t) == 0 && FailsFrom(log, t) == 0
  {
    if log != [] {
      NoneFrom(log[1..], t);
    }
  }

  /** The sums over the buckets are the sums over the represented votes. */
  lemma {:induction false} SumsAgree(width: nat, bs: seq<Bucket>, log: seq<Vote>)
    requires Represents(width, bs, log)
    ensures SumTotal(bs) == |log| && SumFails(bs) == FailsFrom(log, 0)
  {
    if bs != [] {
      var n := bs[0].total;
      SumsAgree(width, bs[1..], log[n..]);
      FailsConcat(log[..n], log[n..], 0);
      assert log == log[..n] + log[n..];
    }
  }

  lemma {:induction false} RetainAll(bs: seq<Bucket>, cutoff: nat)
    requires forall b :: b in bs ==> b.start >= cutoff
    ensures Retain(bs, cutoff) == bs
  {
    if bs != [] {
      RetainAll(bs[1..], cutoff);
    }
  }

  lemma {:induction false} RetainStarts(bs: seq<Bucket>, cutoff: nat)
    ensures forall b :: b in Retain(bs, cutoff) ==> b.start >= cutoff && b in bs
  {
    if bs != [] {
      RetainStarts(bs[1..], cutoff);
    }
  }

  lemma {:induction false} SpacedAbove(width: nat, bs: seq<Bucket>, cutoff: nat)
    requires Spaced(width, bs) && (bs != [] ==> bs[0].start >= cutoff)
    ensures forall b :: b in bs ==> b.start >= cutoff
  {
    forall j | 0 <= j < |bs| ensures bs[j].start >= cutoff {
      SpacedFar(width, bs, 0, j);
      assert j * width >= 0;
    }
  }

  /** On spaced buckets `retain` keeps a suffix. */
  lemma {:induction false} RetainSuffix(width: nat, bs: seq<Bucket>, cutoff: nat) returns (k: nat)
    requires Spaced(width, bs)
    ensures k <= |bs| && Retain(bs, cutoff) == bs[k..]
    ensures Spaced(width, Retain(bs, cutoff))
    ensures forall i :: 0 <= i < k ==> bs[i].start < cutoff
  {
    if bs == [] || bs[0].start >= cutoff {
      SpacedAbove(width, bs, cutoff);
      RetainAll(bs, cutoff);
      k := 0;
    } else {
      k := RetainSuffix(width, bs[1..], cutoff);
      assert bs[1..][k..] == bs[k + 1..];
      assert [] + Retain(bs[1..], cutoff) == Retain(bs[1..], cutoff);
      forall i | 0 <= i < k + 1 ensures bs[i].start < cutoff {
        assert i > 0 ==> bs[i] == bs[1..][i - 1];
      }
      k := k + 1;
    }
  }

  /** Dropping old buckets drops whole groups, and only votes less than one width younger
      than the cutoff go. */
  lemma {:induction false} DropRepresents(width: nat, bs: seq<Bucket>, log: seq<Vote>, k: nat,
      cutoff: nat)
    returns (m: nat)
    requires Represents(width, bs, log) && k <= |bs|
    requires forall i :: 0 <= i < k ==> bs[i].start < cutoff
    ensures m <= |log| && Represents(width, bs[k..], log[m..])
    ensures forall i :: 0 <= i < m ==> log[i].at < cutoff + width
  {
    if k == 0 {
      m := 0;
      assert log[0..] == log && bs[0..] == bs;
    } else {
      var n := bs[0].total;
      var rest := log[n..];
      m := DropRepresents(width, bs[1..], rest, k - 1, cutoff);
      assert bs[1..][k - 1..] == bs[k..] && rest[m..] == log[n + m..];
      forall i | 0 <= i < n + m ensures log[i].at < cutoff + width {
        if i >= n {
          assert log[i] == rest[i - n];
        }
      }
      m := n + m;
    }
  }

  /** One bucket standing for the whole of a nonempty group. */
  ghost predicate Holds(width: nat, b: Bucket, group: seq<Vote>) {
    1 <= b.total == |group| && b.fails == FailsFrom(group, 0) &&
    forall v :: v in group ==> b.start <= v.at < b.start + width
  }

  lemma {:induction false} HoldsOne(width: nat, b: Bucket, group: seq<Vote>)
    requires Holds(width, b, group)
    ensures Represents(width, [b], group)
  {
    assert group[..b.total] == group && group[b.total..] == [];
    assert [b][1..] == [];
  }

  lemma {:induction false} OneHolds(width: nat, b: Bucket, log: seq<Vote>)
    requires Represents(width, [b], log)
    ensures Holds(width, b, log)
  {
    assert [b][1..] == [];
    assert log[..b.total] == log;
  }

  lemma {:induction false} PushOne(width: nat, b: Bucket, log: seq<Vote>, v: Vote)
    requires Represents(width, [b], log) && width > 0 && b.start <= v.at
    ensures Represents(width, Push(width, [b], v), log + [v])
  {
    var f := if v.failure then 1 else 0;
    OneHolds(width, b, log);
    if Since(v.at, b.start) < width {
      FailsConcat(log, [v], 0);
      assert Push(width, [b], v) == [Bucket(b.start, b.fails + f, b.total + 1)];
      HoldsOne(width, Bucket(b.start, b.fails + f, b.total + 1), log + [v]);
    } else {
      HoldsOne(width, Bucket(v.at, f, 1), [v]);
      assert Push(width, [b], v) == [b, Bucket(v.at, f, 1)];
      assert [b, Bucket(v.at, f, 1)][1..] == [Bucket(v.at, f, 1)];
      assert (log + [v])[..b.total] == log && (log + [v])[b.total..] == [v];
    }
  }

  lemma {:induction false} ConsRepresents(width: nat, b: Bucket, bs: seq<Bucket>, group: seq<Vote>, log: seq<Vote>)
    requires Holds(width, b, group) && Represents(width, bs, log)
    ensures Represents(width, [b] + bs, group + log)
  {
    assert ([b] + bs)[1..] == bs;
    assert (group + log)[..b.total] == group && (group + log)[b.total..] == log;
  }

  lemma {:induction false} PushTail(width: nat, bs: seq<Bucket>, v: Vote)
    requires |bs| >= 2
    ensures Push(width, bs, v) == [bs[0]] + Push(width, bs[1..], v)
  {
    assert bs[1..][|bs| - 2] == bs[|bs| - 1];
  }

  lemma {:induction false} PushRepresents(width: nat, bs: seq<Bucket>, log: seq<Vote>, v: Vote)
    requires Represents(width, bs, log) && width > 0
    requires forall b :: b in bs ==> b.start <= v.at
    ensures Represents(width, Push(width, bs, v), log + [v])
  {
    if bs == [] {
      HoldsOne(width, Bucket(v.at, if v.failure then 1 else 0, 1), [v]);
      assert log + [v] == [v];
    } else if |bs| == 1 {
      assert bs == [bs[0]];
      PushOne(width, bs[0], log, v);
    } else {
      var n := bs[0].total;
      PushRepresents(width, bs[1..], log[n..], v);
      ConsRepresents(width, bs[0], Push(width, bs[1..], v), log[..n], log[n..] + [v]);
      assert log[..n] + (log[n..] + [v]) == log + [v];
      PushTail(width, bs, v);
    }
  }

  lemma {:induction false} PushSpaced(width: nat, bs: seq<Bucket>, v: Vote, lo: int)
    requires Spaced(width, bs) && lo <= v.at && forall b :: b in bs ==> lo <= b.start <= v.at
    ensures Spaced(width, Push(width, bs, v))
    ensures forall b :: b in Push(width, bs, v) ==> lo <= b.start <= v.at
  {
    var pushed := Push(width, bs, v);
    assert forall i :: 0 <= i < |bs| ==> pushed[i].start == bs[i].start;
    forall i | 0 <= i < |pushed| ensures lo <= pushed[i].start <= v.at {
      if i < |bs| {
        assert bs[i] in bs;
      }
    }
    if |pushed| > |bs| > 0 {
      var last := bs[|bs| - 1];
      assert last in bs;
      assert Since(v.at, last.start) == v.at - last.start >= width;
    }
  }

  lemma {:induction false} DroppedOld(log: seq<Vote>, gone: nat, m: nat, t: int)
    requires gone + m <= |log|
    requires forall i :: 0 <= i < gone ==> log[i].at < t
    requires forall i :: 0 <= i < m ==> log[gone..][i].at < t
    ensures forall i :: 0 <= i < gone + m ==> log[i].at < t
  {
    forall i | gone <= i < gone + m ensures log[i].at < t {
      assert log[i] == log[gone..][i - gone];
    }
  }

  lemma {:induction false} EvictTracks(span: nat, bs: seq<Bucket>, log: seq<Vote>, clock: nat, gone: nat,
      now: nat)
    returns (gone': nat)
    requires Tracks(span, bs, log, clock, gone) && clock <= now
    ensures Tracks(span, Evict(span, bs, now), log, now, gone')
  {
    gone' := gone;
    if now >= span {
      var width, kept := WidthOf(span), log[gone..];
      var k := RetainSuffix(width, bs, now - span);
      var m := DropRepresents(width, bs, kept, k, now - span);
      RetainStarts(bs, now - span);
      gone' := gone + m;
      DroppedOld(log, gone, m, now - span + width);
      assert Represents(width, Retain(bs, now - span), log[gone'..]) by {
        assert kept[m..] == log[gone'..];
      }
    }
  }

  lemma {:induction false} PushTracks(span: nat, bs: seq<Bucket>, log: seq<Vote>, gone: nat, v: Vote)
    requires Tracks(span, bs, log, v.at, gone)
    ensures Tracks(span, Push(WidthOf(span), bs, v), log + [v], v.at, gone)
  {
    PushRepresents(WidthOf(span), bs, log[gone..], v);
    PushSpaced(WidthOf(span), bs, v, v.at - span);
    assert (log + [v])[gone..] == log[gone..] + [v];
  }

  lemma {:induction false} MonotoneTracks(span: nat, ops: seq<Op>) returns (gone: nat)
    requires Monotone(ops)
    ensures Tracks(span, Replay(span, ops), Log(ops), Clock(ops), gone)
  {
    gone := 0;
    if ops != [] {
      var rest, op := ops[..|ops| - 1], ops[|ops| - 1];
      var before := MonotoneTracks(span, rest);
      match op
      case Clear =>
      case Read(at) =>
        gone := EvictTracks(span, Replay(span, rest), Log(rest), Clock(rest), before, at);
      case Record(v) =>
        gone := EvictTracks(span, Replay(span, rest), Log(rest), Clock(rest), before, v.at);
        PushTracks(span, Evict(span, Replay(span, rest), v.at), Log(rest), gone, v);
    }
  }

  // --- Results -----------------------------------------------------------------------

  lemma {:induction false} RepresentedFrom(width: nat, bs: seq<Bucket>, log: seq<Vote>, t: int)
    requires Represents(width, bs, log) && forall b :: b in bs ==> b.start >= t
    ensures forall v :: v in log ==> v.at >= t
  {
    if bs != [] {
      var n := bs[0].total;
      RepresentedFrom(width, bs[1..], log[n..], t);
      forall v | v in log ensures v.at >= t {
        var i :| 0 <= i < |log| && log[i] == v;
        if i >= n {
          assert v == log[n..][i - n];
        }
      }
    }
  }

  lemma {:induction false} FewerLater(log: seq<Vote>, s: int, t: int)
    requires s <= t
    ensures CountFrom(log, t) <= CountFrom(log, s) && FailsFrom(log, t) <= FailsFrom(log, s)
  {
    if log != [] {
      FewerLater(log[1..], s, t);
    }
  }

  lemma {:induction false} SplitCounts(log: seq<Vote>, gone: nat, s: int, t: int)
    requires gone <= |log| && s <= t
    requires forall i :: 0 <= i < gone ==> log[i].at < t
    requires forall v :: v in log[gone..] ==> v.at >= s
    ensures CountFrom(log, t) <= |log| - gone <= CountFrom(log, s)
    ensures FailsFrom(log, t) <= FailsFrom(log[gone..], 0) <= FailsFrom(log, s)
  {
    var dropped, young := log[..gone], log[gone..];
    assert log == dropped + young;
    AllFrom(young, s);
    NoneFrom(dropped, t);
    FailsConcat(dropped, young, s);
    FailsConcat(dropped, young, t);
    FewerLater(young, s, t);
  }

  lemma {:induction false} TrackedTotals(span: nat, bs: seq<Bucket>, log: seq<Vote>, now: nat, gone: nat)
    requires Tracks(span, bs, log, now, gone)
    ensures CountFrom(log, now - span + WidthOf(span)) <= SumTotal(bs) <= CountFrom(log, now - span)
    ensures FailsFrom(log, now - span + WidthOf(span)) <= SumFails(bs) <= FailsFrom(log, now - span)
  {
    var width, dropped, young := WidthOf(span), log[..gone], log[gone..];
    SumsAgree(width, bs, young);
    RepresentedFrom(width, bs, young, now - span);
    SplitCounts(log, gone, now - span, now - span + width);
  }

  /** The bucketed totals against the exact log: everything younger than the span less one
      width is counted, and nothing older than the span. */
  lemma {:induction false} TotalsSandwich(span: nat, ops: seq<Op>, now: nat)
    requires Monotone(ops) && Clock(ops) <= now
    ensures var bs, width := Evict(span, Replay(span, ops), now), Max(span / 10, 1_000_000);
      CountFrom(Log(ops), now - span + width) <= SumTotal(bs) <= CountFrom(Log(ops), now - span) &&
      FailsFrom(Log(ops), now - span + width) <= SumFails(bs) <= FailsFrom(Log(ops), now - span)
  {
    var before := MonotoneTracks(span, ops);
    var gone := EvictTracks(span, Replay(span, ops), Log(ops), Clock(ops), before, now);
    TrackedTotals(span, Evict(span, Replay(span, ops), now), Log(ops), now, gone);
  }

  /** Which vote opens a bucket: one that comes a tenth of the span (and a millisecond) or more
      after the last bucket left was opened, or that finds none. */
  lemma OpensBucketExactlyWhen(span: nat, bs: seq<Bucket>, v: Vote)
    ensures var kept, r := Evict(span, bs, v.at), Recorded(span, bs, v);
      |r| == |kept| + (if kept == [] || v.at >= kept[|kept| - 1].start + Max(span / 10, 1_000_000) then 1 else 0)
  {}

  lemma {:induction false} RetainedExactlyWhen(bs: seq<Bucket>, cutoff: nat, b: Bucket)
    ensures b in Retain(bs, cutoff) <==> b in bs && b.start >= cutoff
  {
    if bs != [] {
      RetainedExactlyWhen(bs[1..], cutoff, b);
      assert b in bs <==> b == bs[0] || b in bs[1..];
    }
  }

  /** Which buckets a reading leaves: those that start within the span before it. */
  lemma {:induction false} EvictedExactlyWhen(span: nat, bs: seq<Bucket>, now: nat, b: Bucket)
    ensures b in Evict(span, bs, now) <==> b in bs && b.start + span >= now
  {
    if now >= span {
      RetainedExactlyWhen(bs, now - span, b);
    }
  }

  /** The buckets stay sorted at least one width apart, and there are never more than the
      eleven the vector was allocated for. */
  lemma {:induction false} AtMostElevenBuckets(span: nat, ops: seq<Op>)
    requires Monotone(ops)
    ensures |Replay(span, ops)| <= 11
    ensures Spaced(Max(span / 10, 1_000_000), Replay(span, ops))
  {
    var gone := MonotoneTracks(span, ops);
    var bs, width := Replay(span, ops), WidthOf(span);
    if |bs| >= 12 {
      assert bs[0] in bs && bs[11] in bs;
      SpacedFar(width, bs, 0, 11);
      assert false;
    }
  }

  /** Whatever the clock does, reading the totals right after a vote evicts nothing more, so
      they include that vote and a failure ratio is never a division by zero. */
  lemma {:induction false} TotalsAfterRecord(span: nat, bs: seq<Bucket>, v: Vote)
    ensures Evict(span, Recorded(span, bs, v), v.at) == Recorded(span, bs, v)
    ensures SumTotal(Evict(span, Recorded(span, bs, v), v.at)) >= 1
  {
    if v.at >= span {
      var kept := Retain(bs, v.at - span);
      var pushed := Recorded(span, bs, v);
      RetainStarts(bs, v.at - span);
      forall b | b in pushed ensures b.start >= v.at - span {
        if kept != [] {
          assert kept[|kept| - 1] in kept;
        }
      }
      RetainAll(pushed, v.at - span);
    }
  }

  // --- The window as an object ---------------------------------------------------------

  /** `Window`: the bucket vector is pushed to, edited in place, filtered and cleared.  The
      ghost history is what the lemmas above speak about. */
  class Window {
    const span: nat
    const bucket: nat
    var buckets: seq<Bucket>
    ghost var history: seq<Op>

    ghost predicate Valid()
      reads this
    {
      bucket == WidthOf(span) && buckets == Replay(span, history)
    }

    constructor (span: nat)
      ensures Valid() && this.span == span && buckets == [] && history == []
    {
      this.span := span;
      var width := span / 10;
      bucket := if width < 1_000_000 then 1_000_000 else width;
      buckets := [];
      history := [];
    }

    ghost method Log1(op: Op)
      modifies this`history
      ensures history == old(history) + [op]
      ensures history[..|history| - 1] == old(history)
    {
      history := history + [op];
    }

    method Clear()
      requires Valid()
      modifies this
      ensures Valid() && buckets == [] && history == old(history) + [Op.Clear]
    {
      buckets := [];
      Log1(Op.Clear);
    }

    method RetainFrom(now: nat)
      modifies this`buckets
      ensures buckets == Evict(span, old(buckets), now)
    {
      if now >= span {
        buckets := Retain(buckets, now - span);
      }
    }

    method Count(now: nat, failure: bool)
      requires bucket == WidthOf(span)
      modifies this`buckets
      ensures buckets == Push(WidthOf(span), old(buckets), Vote(now, failure))
    {
      var last := |buckets| - 1;
      if buckets != [] && Since(now, buckets[last].start) < bucket {
        var b := buckets[last];
        b := b.(total := b.total + 1);
        if failure {
          b := b.(fails := b.fails + 1);
        }
        buckets := buckets[last := b];
      } else {
        buckets := buckets + [Bucket(now, if failure then 1 else 0, 1)];
      }
    }

    method Record(now: nat, failure: bool)
      requires Valid()
      modifies this
      ensures Valid() && history == old(history) + [Op.Record(Vote(now, failure))]
      ensures buckets == Recorded(span, old(buckets), Vote(now, failure))
    {
      RetainFrom(now);
      Count(now, failure);
      Log1(Op.Record(Vote(now, failure)));
    }

    method Totals(now: nat) returns (fails: nat, total: nat)
      requires Valid()
      modifies this
      ensures Valid() && history == old(history) + [Op.Read(now)]
      ensures buckets == Evict(span, old(buckets), now)
      ensures fails == SumFails(buckets) && total == SumTotal(buckets)
    {
      RetainFrom(now);
      Log1(Op.Read(now));
      fails, total := SumFails(buckets), SumTotal(buckets);
    }
  }
}
