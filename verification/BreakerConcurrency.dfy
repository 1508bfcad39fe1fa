/** The lock-free breaker reads are linearizable (src/breaker.rs:187-243).

    `gate`, `state_at` and `cooling_until` first load the atomic phase without the lock, and
    only some outcomes of that load go on to a locked section.  Here the load and the locked
    section are separate steps, with any number of other threads' steps in between; votes are
    one locked section each.  Note that the locked part of `state_at` and `cooling_until`
    reads the deadline without looking at the phase again. */
module BreakerConcurrency {
  import opened Common
  import opened Breaker
  import opened BreakerHistory

  type ThreadId = nat

  datatype Query = GateQuery(now: nat) | StateQuery(now: nat) | CoolingQuery(now: nat)

  datatype Answer = GateReply(verdict: Verdict) | StateReply(phase: Phase) | CoolingReply(until: Option<nat>)

  /** Where a thread is in its query.  `from` is the number of operations that had taken effect
      when the query was invoked; `upto` the number when it returned. */
  datatype Thread =
    | Invoked(query: Query, from: nat)
    | Loaded(query: Query, from: nat, at: nat)
    | Returned(query: Query, from: nat, upto: nat, answer: Answer)

  /** The operations that have changed the breaker so far or might have, in order, each with the
      thread whose gate it was (votes have none); and the threads' positions. */
  datatype World = World(events: seq<Event>, owners: seq<Option<ThreadId>>, threads: map<ThreadId, Thread>)

  datatype Action =
    | Invoke(t: ThreadId, query: Query)
    | Load(t: ThreadId)
    | Lock(t: ThreadId)
    | CastVote(failure: bool, now: nat)

  const START := World([], [], map[])

  /** The unlocked load, when it settles the query on its own. */
  function FastAnswer(q: Query, phase: Phase): Option<Answer> {
    match q
    case GateQuery(_) => if phase == Phase.Closed then Some(GateReply(Admit(Phase.Closed))) else None
    case StateQuery(_) => if phase == Open then None else Some(StateReply(phase))
    case CoolingQuery(_) => if phase == Open then None else Some(CoolingReply(None))
  }

  /** The locked section: `gate` reads the phase again, the two polls do not. */
  function LockedAnswer(c: Config, q: Query, s: State): Answer {
    match q
    case GateQuery(now) => GateReply(GateAnswer(c, s, now))
    case StateQuery(now) => StateReply(if s.openUntil.Some? && now >= s.openUntil.value then HalfOpen else Open)
    case CoolingQuery(now) =>
      CoolingReply(if s.openUntil.Some? && now < s.openUntil.value then s.openUntil else None)
  }

  function Move(w: World, t: ThreadId, th: Thread): World {
    w.(threads := w.threads[t := th])
  }

  /** One step; the breaker's state is what the operations so far have made of it. */
  function Next(c: Config, w: World, a: Action): World {
    var s, n := Run(c, w.events), |w.events|;
    match a
    case Invoke(t, q) => if t in w.threads then w else Move(w, t, Invoked(q, n))
    case Load(t) =>
      if t !in w.threads || !w.threads[t].Invoked? then w
      else
        var th := w.threads[t];
        (match FastAnswer(th.query, s.phase)
         case Some(answer) => Move(w, t, Returned(th.query, th.from, n, answer))
         case None => Move(w, t, Loaded(th.query, th.from, n)))
    case Lock(t) =>
      if t !in w.threads || !w.threads[t].Loaded? then w
      else
        var th := w.threads[t];
        var answer := LockedAnswer(c, th.query, s);
        if th.query.GateQuery? then
          World(w.events + [Event.Gate(th.query.now)], w.owners + [Some(t)],
            w.threads[t := Returned(th.query, th.from, n + 1, answer)])
        else
          Move(w, t, Returned(th.query, th.from, n, answer))
    case CastVote(failure, now) =>
      w.(events := w.events + [Event.Record(failure, now)], owners := w.owners + [None])
  }

  function After(c: Config, acts: seq<Action>): World {
    if acts == [] then START else Next(c, After(c, acts[..|acts| - 1]), acts[|acts| - 1])
  }

  // --- What it means to be linearizable ------------------------------------------------------

  /** The answer the atomic breaker gives in state `s`. */
  function AtomicAnswer(c: Config, q: Query, s: State): Answer {
    match q
    case GateQuery(now) => GateReply(GateAnswer(c, s, now))
    case StateQuery(now) => StateReply(StateAt(s, now))
    case CoolingQuery(now) => CoolingReply(CoolingUntil(s, now))
  }

  /** The thread owns operation `k` and no other: it is its gate, within its interval. */
  ghost predicate Owns(w: World, t: ThreadId, th: Thread, k: nat)
    requires |w.owners| == |w.events| && th.Returned?
  {
    k < th.upto <= |w.events| && th.query.GateQuery? && w.events[k] == Event.Gate(th.query.now) &&
    forall i :: 0 <= i < |w.owners| ==> (w.owners[i] == Some(t) <==> i == k)
  }

  /** The thread owns no operation, and its query would leave the breaker after `k` operations as
      it found it: a poll, or a gate that met a closed breaker. */
  ghost predicate OnlyReads(c: Config, w: World, t: ThreadId, th: Thread, k: nat)
    requires |w.owners| == |w.events| && th.Returned?
  {
    k <= th.upto <= |w.events| && (th.query.GateQuery? ==> Run(c, w.events[..k]).phase == Phase.Closed) &&
    forall i :: 0 <= i < |w.owners| ==> w.owners[i] != Some(t)
  }

  /** A finished query takes effect after `k` operations, within its interval: the atomic breaker
      gives its answer there, and the operation that follows is its own, or it only reads. */
  ghost predicate TakesEffectAt(c: Config, w: World, t: ThreadId, th: Thread, k: nat)
    requires |w.owners| == |w.events| && th.Returned?
  {
    th.from <= k <= |w.events| && th.answer == AtomicAnswer(c, th.query, Run(c, w.events[..k])) &&
    (Owns(w, t, th, k) || OnlyReads(c, w, t, th, k))
  }

  // --- The invariant ----------------------------------------------------------------------------

  ghost predicate OwnsNothing(w: World, t: ThreadId) {
    forall i :: 0 <= i < |w.owners| ==> w.owners[i] != Some(t)
  }

  ghost predicate Settled(c: Config, w: World, t: ThreadId, th: Thread)
    requires |w.owners| == |w.events|
  {
    match th
    case Invoked(_, from) => from <= |w.events| && OwnsNothing(w, t)
    case Loaded(q, from, at) =>
      from <= at <= |w.events| && OwnsNothing(w, t) &&
      (!q.GateQuery? ==> Run(c, w.events[..at]).phase == Open)
    case Returned(_, _, _, _) => exists k: nat :: TakesEffectAt(c, w, t, th, k)
  }

  ghost predicate Inv(c: Config, w: World) {
    |w.owners| == |w.events| &&
    (forall t :: t in w.threads ==> Settled(c, w, t, w.threads[t])) &&
    (forall t :: t !in w.threads ==> OwnsNothing(w, t))
  }

  /** The deadline changes only when the breaker opens. */
  lemma DeadlineMoves(c: Config, s: State, e: Event)
    ensures Step(c, s, e).openUntil == s.openUntil || Step(c, s, e).phase == Open
  {}

  /** Between an Open load and a later deadline read lies a state that is open with exactly the
      deadline read. */
  lemma {:induction false} OpenWithDeadline(c: Config, es: seq<Event>, at: nat, j: nat) returns (k: nat)
    requires c.Sane() && at <= j <= |es| && Run(c, es[..at]).phase == Open
    ensures at <= k <= j && Run(c, es[..k]).phase == Open
    ensures Run(c, es[..k]).openUntil == Run(c, es[..j]).openUntil
    decreases j
  {
    hide Run, Step;
    if at == j {
      k := j;
    } else {
      RunPrefix(c, es, j - 1);
      DeadlineMoves(c, Run(c, es[..j - 1]), es[j - 1]);
      if Run(c, es[..j]).openUntil != Run(c, es[..j - 1]).openUntil {
        k := j;
      } else {
        k := OpenWithDeadline(c, es, at, j - 1);
      }
    }
  }

  /** A poll's locked answer is the atomic one after some operations since its load. */
  lemma {:induction false} LockedPollReads(c: Config, w: World, t: ThreadId)
    requires c.Sane() && Inv(c, w) && t in w.threads && w.threads[t].Loaded? && !w.threads[t].query.GateQuery?
    ensures Settled(c, Next(c, w, Lock(t)), t, Next(c, w, Lock(t)).threads[t])
  {
    var th, n, w' := w.threads[t], |w.events|, Next(c, w, Lock(t));
    assert Settled(c, w, t, th);
    assert w.events[..n] == w.events;
    var k := OpenWithDeadline(c, w.events, th.at, n);
    RunCoherent(c, w.events[..k]);
    assert OnlyReads(c, w', t, w'.threads[t], k);
    assert TakesEffectAt(c, w', t, w'.threads[t], k);
  }

  /** A gate's locked section takes effect as the operation it adds. */
  lemma {:induction false} LockedGateOwns(c: Config, w: World, t: ThreadId)
    requires Inv(c, w) && t in w.threads && w.threads[t].Loaded? && w.threads[t].query.GateQuery?
    ensures Settled(c, Next(c, w, Lock(t)), t, Next(c, w, Lock(t)).threads[t])
  {
    var th, n, w' := w.threads[t], |w.events|, Next(c, w, Lock(t));
    assert Settled(c, w, t, th);
    assert w'.events[..n] == w.events;
    assert Owns(w', t, w'.threads[t], n);
    assert TakesEffectAt(c, w', t, w'.threads[t], n);
  }

  /** One more operation at the end. */
  ghost predicate Added(w: World, w': World) {
    |w.owners| == |w.events| && |w'.owners| == |w'.events| == |w.events| + 1 &&
    w.events <= w'.events && w.owners <= w'.owners
  }

  /** A place in the order stays a thread's when another operation is added. */
  lemma {:induction false} PlaceStays(c: Config, w: World, w': World, t: ThreadId, th: Thread, k: nat)
    requires |w.owners| == |w.events| && th.Returned? && TakesEffectAt(c, w, t, th, k)
    requires Added(w, w') && w'.owners[|w.owners|] != Some(t)
    ensures TakesEffectAt(c, w', t, th, k)
  {
    hide Run, AtomicAnswer;
    assert w'.events[..k] == w.events[..k];
    assert forall i :: 0 <= i < |w.owners| ==> w'.owners[i] == w.owners[i] && w'.events[i] == w.events[i];
  }

  /** Other threads stay settled when an operation is added. */
  lemma {:induction false} SettledGrows(c: Config, w: World, w': World, t: ThreadId, th: Thread)
    requires |w.owners| == |w.events| && Settled(c, w, t, th)
    requires Added(w, w') && w'.owners[|w.owners|] != Some(t)
    ensures Settled(c, w', t, th)
  {
    hide Run, TakesEffectAt;
    match th
    case Invoked(_, _) =>
    case Loaded(_, _, at) => assert w'.events[..at] == w.events[..at];
    case Returned(_, _, _, _) =>
      var k: nat :| TakesEffectAt(c, w, t, th, k);
      PlaceStays(c, w, w', t, th, k);
  }

  /** A thread that moved without an operation, and is settled, leaves the rest as it was. */
  lemma {:induction false} MoveKeepsInv(c: Config, w: World, t: ThreadId, th: Thread)
    requires Inv(c, w) && Settled(c, Move(w, t, th), t, th)
    ensures Inv(c, Move(w, t, th))
  {
    var w' := Move(w, t, th);
    forall u | u in w'.threads ensures Settled(c, w', u, w'.threads[u]) {
      if u != t && w.threads[u].Returned? {
        var k: nat :| TakesEffectAt(c, w, u, w.threads[u], k);
        assert TakesEffectAt(c, w', u, w.threads[u], k);
      }
    }
  }

  lemma {:induction false} GateKeepsInv(c: Config, w: World, t: ThreadId)
    requires Inv(c, w) && t in w.threads && w.threads[t].Loaded? && w.threads[t].query.GateQuery?
    ensures Inv(c, Next(c, w, Lock(t)))
  {
    hide Settled, LockedAnswer;
    var w' := Next(c, w, Lock(t));
    LockedGateOwns(c, w, t);
    assert Added(w, w');
    forall u | u in w'.threads ensures Settled(c, w', u, w'.threads[u]) {
      if u != t {
        SettledGrows(c, w, w', u, w.threads[u]);
      }
    }
  }

  lemma {:induction false} VoteKeepsInv(c: Config, w: World, failure: bool, now: nat)
    requires Inv(c, w)
    ensures Inv(c, Next(c, w, CastVote(failure, now)))
  {
    hide Settled;
    var w' := Next(c, w, CastVote(failure, now));
    assert Added(w, w');
    forall u | u in w'.threads ensures Settled(c, w', u, w'.threads[u]) {
      SettledGrows(c, w, w', u, w.threads[u]);
    }
  }

  lemma {:induction false} LoadKeepsInv(c: Config, w: World, t: ThreadId)
    requires Inv(c, w) && t in w.threads && w.threads[t].Invoked?
    ensures Inv(c, Next(c, w, Load(t)))
  {
    var th, n, w' := w.threads[t], |w.events|, Next(c, w, Load(t));
    assert Settled(c, w, t, th) && w.events[..n] == w.events;
    if w'.threads[t].Returned? {
      assert OnlyReads(c, w', t, w'.threads[t], n);
      assert TakesEffectAt(c, w', t, w'.threads[t], n);
    }
    MoveKeepsInv(c, w, t, w'.threads[t]);
  }

  lemma {:induction false} NextKeepsInv(c: Config, w: World, a: Action)
    requires c.Sane() && Inv(c, w)
    ensures Inv(c, Next(c, w, a))
  {
    match a
    case Invoke(t, q) =>
      if t !in w.threads {
        MoveKeepsInv(c, w, t, Invoked(q, |w.events|));
      }
    case Load(t) =>
      if t in w.threads && w.threads[t].Invoked? {
        LoadKeepsInv(c, w, t);
      }
    case Lock(t) =>
      if t in w.threads && w.threads[t].Loaded? {
        if w.threads[t].query.GateQuery? {
          GateKeepsInv(c, w, t);
        } else {
          LockedPollReads(c, w, t);
          MoveKeepsInv(c, w, t, Next(c, w, Lock(t)).threads[t]);
        }
      }
    case CastVote(failure, now) => VoteKeepsInv(c, w, failure, now);
  }

  lemma {:induction false} AfterInv(c: Config, acts: seq<Action>)
    requires c.Sane()
    ensures Inv(c, After(c, acts))
  {
    if acts != [] {
      AfterInv(c, acts[..|acts| - 1]);
      NextKeepsInv(c, After(c, acts[..|acts| - 1]), acts[|acts| - 1]);
    }
  }

  // --- Result ------------------------------------------------------------------------------------

  /** In every interleaving of loads, locked sections and votes, the breaker's state is that of the
      atomic breaker after one order of operations, and every query that has returned takes effect
      at its own place in that order, between its invocation and its return: it has the atomic
      answer there, and either owns the operation at that place, as its only one and nobody
      else's, or changes nothing. */
  lemma {:induction false} ReadsAreLinearizable(c: Config, acts: seq<Action>, t: ThreadId)
    requires c.Sane() && t in After(c, acts).threads && After(c, acts).threads[t].Returned?
    ensures var w := After(c, acts);
      |w.owners| == |w.events| && exists k: nat :: TakesEffectAt(c, w, t, w.threads[t], k)
  {
    AfterInv(c, acts);
    assert Settled(c, After(c, acts), t, After(c, acts).threads[t]);
  }

  /** A gate that admitted a probe owns its operation. */
  lemma {:induction false} ProbeOwns(c: Config, w: World, t: ThreadId, th: Thread, k: nat)
    requires |w.owners| == |w.events| && th.Returned? && TakesEffectAt(c, w, t, th, k)
    requires th.answer == GateReply(Admit(HalfOpen))
    ensures Owns(w, t, th, k) && w.owners[k] == Some(t)
  {
    hide Run;
    assert !OnlyReads(c, w, t, th, k);
  }

  /** A query that is left alone returns, with the atomic breaker's answer and effect. */
  lemma {:induction false} UndisturbedQuery(c: Config, w: World, t: ThreadId, q: Query)
    requires c.Sane() && Inv(c, w) && t !in w.threads && Coherent(c, Run(c, w.events))
    ensures var w' := Next(c, Next(c, Next(c, w, Invoke(t, q)), Load(t)), Lock(t));
      t in w'.threads && w'.threads[t].Returned? && w'.threads[t].answer == AtomicAnswer(c, q, Run(c, w.events)) &&
      Run(c, w'.events) == if q.GateQuery? then Gated(c, Run(c, w.events), q.now) else Run(c, w.events)
  {
    hide Run;
    if q.GateQuery? {
      RunSnoc(c, w.events, Event.Gate(q.now));
    }
  }

  /** The documented fast path: a gate that finds the breaker closed, and a poll that does not find it
      open, return without the lock and change nothing; every other query goes on to the lock. */
  lemma LockFreeExactlyWhen(c: Config, w: World, t: ThreadId)
    requires t in w.threads && w.threads[t].Invoked?
    ensures var q, phase, w' := w.threads[t].query, Run(c, w.events).phase, Next(c, w, Load(t));
      (w'.threads[t].Returned? <==> if q.GateQuery? then phase == Phase.Closed else phase != Open) &&
      (!w'.threads[t].Returned? ==> w'.threads[t].Loaded?) && w'.events == w.events
  {}

  /** In particular no two gates share a transition: two that were admitted as probes own two
      different operations, so a half-open breaker counts every probe it admits. */
  lemma {:induction false} ProbesOwnTheirAdmissions(c: Config, acts: seq<Action>, t: ThreadId, u: ThreadId)
    returns (j: nat, k: nat)
    requires c.Sane() && t != u && t in After(c, acts).threads && u in After(c, acts).threads
    requires After(c, acts).threads[t].Returned? && After(c, acts).threads[u].Returned?
    requires After(c, acts).threads[t].answer == After(c, acts).threads[u].answer == GateReply(Admit(HalfOpen))
    ensures var w := After(c, acts);
      j != k && |w.owners| == |w.events| &&
      Owns(w, t, w.threads[t], j) && TakesEffectAt(c, w, t, w.threads[t], j) &&
      Owns(w, u, w.threads[u], k) && TakesEffectAt(c, w, u, w.threads[u], k)
  {
    hide After, TakesEffectAt, Owns;
    var w := After(c, acts);
    ReadsAreLinearizable(c, acts, t);
    ReadsAreLinearizable(c, acts, u);
    j :| TakesEffectAt(c, w, t, w.threads[t], j);
    k :| TakesEffectAt(c, w, u, w.threads[u], k);
    ProbeOwns(c, w, t, w.threads[t], j);
    ProbeOwns(c, w, u, w.threads[u], k);
  }
}
