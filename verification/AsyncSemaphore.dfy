/** The async semaphore (src/concurrency.rs): a permit counter and a queue of wakers behind one
    mutex.  A released permit is put back and the first waker is woken; it is not handed over,
    so a newcomer may take it first. */
module AsyncSemaphore {
  import opened Common

  /** A task; its waker is named after it. */
  type Task = nat

  datatype SemState = SemState(permits: nat, waiters: seq<Task>)

  // --- The locked sections, as functions of the state ------------------------------------

  /** `try_acquire`: the state after, and whether a permit was taken. */
  function Tried(s: SemState): (SemState, bool) {
    if s.permits > 0 then (s.(permits := s.permits - 1), true) else (s, false)
  }

  /** `Acquire::poll`: takes a permit, or queues the poller's waker once more. */
  function Polled(s: SemState, t: Task): (SemState, bool) {
    if s.permits > 0 then (s.(permits := s.permits - 1), true)
    else (s.(waiters := s.waiters + [t]), false)
  }

  /** `release`, run when a permit is dropped: the state after, and the waker to wake. */
  function Released(s: SemState): (SemState, Option<Task>) {
    var s' := s.(permits := s.permits + 1);
    if s.waiters == [] then (s', None)
    else (s'.(waiters := s.waiters[1..]), Some(s.waiters[0]))
  }

  /** The semaphore as an object. */
  class Semaphore {
    var permits: nat
    var waiters: seq<Task>

    function View(): SemState
      reads this
    {
      SemState(permits, waiters)
    }

    constructor (permits: nat)
      ensures View() == SemState(permits, [])
    {
      this.permits := permits;
      waiters := [];
    }

    method Queued() returns (n: nat)
      ensures n == |View().waiters|
    {
      n := |waiters|;
    }

    method TryAcquire() returns (taken: bool)
      modifies this
      ensures (View(), taken) == Tried(old(View()))
    {
      taken := permits > 0;
      if taken {
        permits := permits - 1;
      }
    }

    method Poll(t: Task) returns (ready: bool)
      modifies this
      ensures (View(), ready) == Polled(old(View()), t)
    {
      if permits > 0 {
        permits := permits - 1;
        ready := true;
      } else {
        waiters := waiters + [t];
        ready := false;
      }
    }

    method Release() returns (woken: Option<Task>)
      modifies this
      ensures (View(), woken) == Released(old(View()))
    {
      permits := permits + 1;
      woken := None;
      if waiters != [] {
        woken := Some(waiters[0]);
        waiters := waiters[1..];
      }
    }
  }
}

/** Any number of tasks on one semaphore, in every interleaving. */
module SemaphoreProtocol {
  import opened Common
  import opened AsyncSemaphore

  /** A task is outside the semaphore, holds a permit, sleeps with its waker queued, or has been
      woken and not yet polled. */
  datatype Status = Outside | Holding | Sleeping | Woken

  /** `wasted` counts wake-ups that reached nobody asleep, or were lost with their task. */
  datatype World = World(sem: SemState, status: map<Task, Status>, wasted: nat)

  datatype Action =
    | TryAcquire(t: Task)      // the barging fast path of a task outside
    | Poll(t: Task)            // a first poll, a poll after a wake-up, or a spurious one
    | Release(t: Task)         // a held permit is dropped
    | Cancel(t: Task)          // a waiting `Acquire` is dropped; its wakers stay queued

  function Start(permits: nat): World { World(SemState(permits, []), map[], 0) }

  function StatusOf(w: World, t: Task): Status {
    if t in w.status then w.status[t] else Outside
  }

  function Set(w: World, t: Task, st: Status): World {
    w.(status := w.status[t := st])
  }

  function Wake(w: World, woken: Option<Task>): World {
    match woken
    case None => w
    case Some(t) => if StatusOf(w, t) == Sleeping then Set(w, t, Woken) else w.(wasted := w.wasted + 1)
  }

  /** One action; an action a task is in no position to take does nothing. */
  function Next(w: World, a: Action): World {
    var st := StatusOf(w, a.t);
    match a
    case TryAcquire(t) =>
      if st != Outside then w
      else
        var (sem, taken) := Tried(w.sem);
        if taken then Set(w.(sem := sem), t, Holding) else w
    case Poll(t) =>
      if st == Holding then w
      else
        var (sem, ready) := Polled(w.sem, t);
        Set(w.(sem := sem), t, if ready then Holding else Sleeping)
    case Release(t) =>
      if st != Holding then w
      else
        var (sem, woken) := Released(w.sem);
        Wake(Set(w.(sem := sem), t, Outside), woken)
    case Cancel(t) =>
      if st == Sleeping then Set(w, t, Outside)
      else if st == Woken then Set(w, t, Outside).(wasted := w.wasted + 1)
      else w
  }

  function After(permits: nat, acts: seq<Action>): World {
    if acts == [] then Start(permits) else Next(After(permits, acts[..|acts| - 1]), acts[|acts| - 1])
  }

  function With(w: World, st: Status): set<Task> {
    set t | t in w.status && w.status[t] == st
  }

  // --- Who gets a permit, and who is woken ----------------------------------------------------

  /** A newcomer's `try_acquire` takes a permit exactly when one is free, queued tasks or not, and
      otherwise changes nothing. */
  lemma TryAcquireExactlyWhen(w: World, t: Task)
    requires StatusOf(w, t) == Outside
    ensures var w' := Next(w, TryAcquire(t));
      if w.sem.permits > 0 then
        StatusOf(w', t) == Holding && w'.sem == SemState(w.sem.permits - 1, w.sem.waiters)
      else w' == w
  {}

  /** A poll takes a permit exactly when one is free, and otherwise puts the task to sleep at the end
      of the queue. */
  lemma PollExactlyWhen(w: World, t: Task)
    requires StatusOf(w, t) != Holding
    ensures var w' := Next(w, Poll(t));
      if w.sem.permits > 0 then
        StatusOf(w', t) == Holding && w'.sem == SemState(w.sem.permits - 1, w.sem.waiters)
      else StatusOf(w', t) == Sleeping && w'.sem == SemState(0, w.sem.waiters + [t])
  {}

  /** A release frees one permit and wakes the task that has queued longest, and nobody else. */
  lemma ReleaseWakesFirst(w: World, t: Task)
    requires StatusOf(w, t) == Holding
    ensures var w', q := Next(w, Release(t)), w.sem.waiters;
      w'.sem == SemState(w.sem.permits + 1, if q == [] then [] else q[1..]) && StatusOf(w', t) == Outside &&
      forall u :: u != t ==>
        StatusOf(w', u) == if q != [] && u == q[0] && StatusOf(w, u) == Sleeping then Woken else StatusOf(w, u)
  {}

  // --- Conservation of permits -----------------------------------------------------------

  lemma {:induction false} SetCounts(w: World, t: Task, st: Status, kind: Status)
    ensures |With(Set(w, t, st), kind)| ==
      |With(w, kind)| + (if st == kind then 1 else 0) - (if t in w.status && w.status[t] == kind then 1 else 0)
  {
    var before, after := With(w, kind), With(Set(w, t, st), kind);
    if st == kind {
      assert after == before + {t};
    } else {
      assert after == before - {t};
    }
  }

  lemma {:induction false} WakeCounts(w: World, woken: Option<Task>)
    ensures |With(Wake(w, woken), Holding)| == |With(w, Holding)|
    ensures |With(Wake(w, woken), Woken)| + Wake(w, woken).wasted ==
      |With(w, Woken)| + w.wasted + if woken.Some? then 1 else 0
  {
    if woken.Some? && StatusOf(w, woken.value) == Sleeping {
      SetCounts(w, woken.value, Woken, Holding);
      SetCounts(w, woken.value, Woken, Woken);
    }
  }

  lemma {:induction false} NextConserves(w: World, a: Action)
    ensures Next(w, a).sem.permits + |With(Next(w, a), Holding)| == w.sem.permits + |With(w, Holding)|
  {
    match a
    case TryAcquire(t) => SetCounts(w, t, Holding, Holding);
    case Poll(t) =>
      SetCounts(w, t, Holding, Holding);
      SetCounts(w, t, Sleeping, Holding);
    case Release(t) =>
      var (sem, woken) := Released(w.sem);
      var w' := Set(w.(sem := sem), t, Outside);
      SetCounts(w.(sem := sem), t, Outside, Holding);
      WakeCounts(w', woken);
    case Cancel(t) => SetCounts(w, t, Outside, Holding);
  }

  /** Free permits and held permits always add up to the configured number, cancellations and
      spurious polls included; so no more than that many tasks ever hold one. */
  lemma {:induction false} PermitsConserved(permits: nat, acts: seq<Action>)
    ensures After(permits, acts).sem.permits + |With(After(permits, acts), Holding)| == permits
  {
    if acts == [] {
      assert With(Start(permits), Holding) == {};
    } else {
      PermitsConserved(permits, acts[..|acts| - 1]);
      NextConserves(After(permits, acts[..|acts| - 1]), acts[|acts| - 1]);
    }
  }

  // --- Wake-ups -------------------------------------------------------------------------------

  /** While wakers are queued, every free permit is matched by a task on its way to it or by a
      wasted wake-up; and every sleeper still has a waker queued. */
  ghost predicate Attended(w: World) {
    (w.sem.waiters != [] ==> w.sem.permits <= |With(w, Woken)| + w.wasted) &&
    (forall t :: StatusOf(w, t) == Sleeping ==> t in w.sem.waiters)
  }

  lemma {:induction false} ReleaseAttends(w: World, t: Task)
    requires Attended(w) && StatusOf(w, t) == Holding
    ensures Attended(Next(w, Release(t)))
  {
    var (sem, woken) := Released(w.sem);
    var w1 := w.(sem := sem);
    var w2 := Set(w1, t, Outside);
    var w' := Wake(w2, woken);
    SetCounts(w1, t, Outside, Woken);
    assert With(w1, Woken) == With(w, Woken);
    WakeCounts(w2, woken);
    forall u | StatusOf(w', u) == Sleeping ensures u in w'.sem.waiters {
      assert StatusOf(w, u) == Sleeping;
      var i :| 0 <= i < |w.sem.waiters| && w.sem.waiters[i] == u;
      assert i > 0;
      assert u == sem.waiters[i - 1];
    }
  }

  lemma {:induction false} NextAttends(w: World, a: Action)
    requires Attended(w)
    ensures Attended(Next(w, a))
  {
    match a
    case TryAcquire(t) =>
      SetCounts(w, t, Holding, Woken);
    case Poll(t) =>
      SetCounts(w, t, Holding, Woken);
      SetCounts(w, t, Sleeping, Woken);
    case Release(t) =>
      if StatusOf(w, t) == Holding {
        ReleaseAttends(w, t);
      }
    case Cancel(t) =>
      SetCounts(w, t, Outside, Woken);
  }

  lemma {:induction false} AfterAttended(permits: nat, acts: seq<Action>)
    ensures Attended(After(permits, acts))
  {
    if acts != [] {
      AfterAttended(permits, acts[..|acts| - 1]);
      NextAttends(After(permits, acts[..|acts| - 1]), acts[|acts| - 1]);
    }
  }

  /** No `Acquire` is dropped while it waits, and none is polled again before it was woken. */
  predicate Allowed(w: World, a: Action) {
    match a
    case Cancel(_) => false
    case Poll(t) => StatusOf(w, t) != Sleeping
    case _ => true
  }

  ghost predicate WellBehaved(permits: nat, acts: seq<Action>) {
    acts == [] ||
    (WellBehaved(permits, acts[..|acts| - 1]) && Allowed(After(permits, acts[..|acts| - 1]), acts[|acts| - 1]))
  }

  /** The queue lists exactly the sleepers, each once. */
  ghost predicate Clean(w: World) {
    (forall t :: t in w.sem.waiters <==> StatusOf(w, t) == Sleeping) && Distinct(w.sem.waiters)
  }

  /** The queue is clean, and no wake-up was wasted. */
  ghost predicate QueueIsSleepers(w: World) {
    w.wasted == 0 && Clean(w)
  }

  lemma {:induction false} ReleaseKeepsQueue(w: World, t: Task)
    requires QueueIsSleepers(w) && StatusOf(w, t) == Holding
    ensures QueueIsSleepers(Next(w, Release(t)))
  {
    var (sem, woken) := Released(w.sem);
    var w' := Next(w, Release(t));
    if woken.Some? {
      assert woken.value in w.sem.waiters;
      forall u ensures u in sem.waiters <==> u in w.sem.waiters && u != woken.value {
        if u in w.sem.waiters && u != woken.value {
          var i :| 0 <= i < |w.sem.waiters| && w.sem.waiters[i] == u;
          assert u == sem.waiters[i - 1];
        }
      }
    }
  }

  lemma {:induction false} NextKeepsQueue(w: World, a: Action)
    requires QueueIsSleepers(w) && Allowed(w, a)
    ensures QueueIsSleepers(Next(w, a))
  {
    match a
    case Release(t) =>
      if StatusOf(w, t) == Holding {
        ReleaseKeepsQueue(w, t);
      }
    case _ =>
  }

  lemma {:induction false} WellBehavedQueue(permits: nat, acts: seq<Action>)
    requires WellBehaved(permits, acts)
    ensures QueueIsSleepers(After(permits, acts))
  {
    if acts != [] {
      WellBehavedQueue(permits, acts[..|acts| - 1]);
      NextKeepsQueue(After(permits, acts[..|acts| - 1]), acts[|acts| - 1]);
    }
  }

  /** No lost wake-up: in every well-behaved interleaving, barging included, while any task
      sleeps there are at most as many free permits as tasks woken and on their way; in
      particular, once nobody is on the way and nobody holds a permit, nobody sleeps. */
  lemma {:induction false} NoLostWakeup(permits: nat, acts: seq<Action>)
    requires WellBehaved(permits, acts) && permits > 0
    ensures var w := After(permits, acts);
      (With(w, Sleeping) != {} ==> w.sem.permits <= |With(w, Woken)|) &&
      (With(w, Woken) == {} && With(w, Holding) == {} ==> With(w, Sleeping) == {})
  {
    var w := After(permits, acts);
    AfterAttended(permits, acts);
    WellBehavedQueue(permits, acts);
    PermitsConserved(permits, acts);
    if With(w, Sleeping) != {} {
      var t :| t in With(w, Sleeping);
      assert t in w.sem.waiters;
    }
  }

  /** With cancellations and spurious polls the guarantee is off by at most the wake-ups that
      went astray, however the tasks behave. */
  lemma {:induction false} LostWakeupsAreWasted(permits: nat, acts: seq<Action>)
    ensures var w := After(permits, acts);
      With(w, Sleeping) != {} ==> w.sem.permits <= |With(w, Woken)| + w.wasted
  {
    var w := After(permits, acts);
    AfterAttended(permits, acts);
    if With(w, Sleeping) != {} {
      var t :| t in With(w, Sleeping);
      assert t in w.sem.waiters;
    }
  }

  lemma {:induction false} AfterSnoc(permits: nat, acts: seq<Action>, a: Action, w: World, w': World)
    requires After(permits, acts) == w && Next(w, a) == w'
    ensures After(permits, acts + [a]) == w'
  {
    assert (acts + [a])[..|acts|] == acts;
  }

  /** The world a task that holds the only permit and one that waits leave behind. */
  lemma {:induction false} HolderAndWaiter()
    ensures After(1, [Poll(0)] + [Poll(1)]) == World(SemState(0, [1]), map[0 := Holding, 1 := Sleeping], 0)
  {
    AfterSnoc(1, [], Poll(0), Start(1), World(SemState(0, []), map[0 := Holding], 0));
    assert [] + [Poll(0)] == [Poll(0)];
    AfterSnoc(1, [Poll(0)], Poll(1), World(SemState(0, []), map[0 := Holding], 0),
      World(SemState(0, [1]), map[0 := Holding, 1 := Sleeping], 0));
  }

  /** A wake-up can be lost to a cancelled waiter: its waker stays in the queue ahead of a live
      one, takes the only wake-up, and the live waiter sleeps beside a free permit. */
  lemma {:induction false} CancelledWaiterLosesWakeup()
    ensures var w := After(1, [Poll(0)] + [Poll(1)] + [Cancel(1)] + [Poll(2)] + [Release(0)]);
      w.sem.permits == 1 && StatusOf(w, 2) == Sleeping && With(w, Woken) == {} && With(w, Holding) == {}
  {
    var acts := [Poll(0)] + [Poll(1)];
    var w2 := World(SemState(0, [1]), map[0 := Holding, 1 := Sleeping], 0);
    var w3 := World(SemState(0, [1]), map[0 := Holding, 1 := Outside], 0);
    var w4 := World(SemState(0, [1, 2]), map[0 := Holding, 1 := Outside, 2 := Sleeping], 0);
    var w5 := World(SemState(1, [2]), map[0 := Outside, 1 := Outside, 2 := Sleeping], 1);
    HolderAndWaiter();
    AfterSnoc(1, acts, Cancel(1), w2, w3);
    AfterSnoc(1, acts + [Cancel(1)], Poll(2), w3, w4);
    AfterSnoc(1, acts + [Cancel(1)] + [Poll(2)], Release(0), w4, w5);
  }

  // --- Exactly when a wake-up can still be lost ---------------------------------------------------

  /** A task sleeps beside more free permits than there are tasks on their way to them. */
  ghost predicate Stranded(w: World) {
    With(w, Sleeping) != {} && w.sem.permits > |With(w, Woken)|
  }

  /** The world after some more actions. */
  function Continue(w: World, acts: seq<Action>): World
    decreases |acts|
  {
    if acts == [] then w else Continue(Next(w, acts[0]), acts[1..])
  }

  ghost predicate Behaves(w: World, acts: seq<Action>)
    decreases |acts|
  {
    acts == [] || (Allowed(w, acts[0]) && Behaves(Next(w, acts[0]), acts[1..]))
  }

  /** Some well-behaved continuation strands a task. */
  ghost predicate CanStrand(w: World) {
    exists acts :: Behaves(w, acts) && Stranded(Continue(w, acts))
  }

  lemma {:induction false} StrandsNow(w: World)
    requires Stranded(w)
    ensures CanStrand(w)
  {
    assert Behaves(w, []) && Continue(w, []) == w;
  }

  lemma {:induction false} StrandsLater(w: World, a: Action)
    requires Allowed(w, a) && CanStrand(Next(w, a))
    ensures CanStrand(w)
  {
    var acts :| Behaves(Next(w, a), acts) && Stranded(Continue(Next(w, a), acts));
    assert ([a] + acts)[1..] == acts;
    assert Behaves(w, [a] + acts) && Stranded(Continue(w, [a] + acts));
  }

  /** Every permit is held, and nobody is on the way. */
  ghost predicate Quiet(w: World, holder: Task) {
    w.sem.permits == 0 && With(w, Woken) == {} && StatusOf(w, holder) == Holding
  }

  /** A waker in the queue whose task is not asleep. */
  ghost predicate StaleAt(w: World, i: nat) {
    i < |w.sem.waiters| && StatusOf(w, w.sem.waiters[i]) != Sleeping
  }

  ghost predicate TwiceAt(w: World, i: nat, j: nat) {
    i < j < |w.sem.waiters| && w.sem.waiters[i] == w.sem.waiters[j]
  }

  ghost predicate Messy(w: World) {
    (exists i: nat :: StaleAt(w, i)) || exists i: nat, j: nat :: TwiceAt(w, i, j)
  }

  /** Releasing onto a stale waker wakes nobody. */
  lemma {:induction false} StaleInFront(w: World, holder: Task)
    requires Quiet(w, holder) && StaleAt(w, 0) && With(w, Sleeping) != {}
    ensures CanStrand(w)
  {
    var w' := Next(w, Release(holder));
    var t :| t in With(w, Sleeping);
    assert t in With(w', Sleeping);
    assert With(w', Woken) == {};
    StrandsNow(w');
    StrandsLater(w, Release(holder));
  }

  /** Release, take the permit back, and let the woken task queue again: the queue turns by one
      and nothing else changes. */
  lemma {:induction false} Rotate(w: World, holder: Task) returns (w': World)
    requires Quiet(w, holder) && w.sem.waiters != [] && !StaleAt(w, 0)
    ensures w' == w.(sem := SemState(0, w.sem.waiters[1..] + [w.sem.waiters[0]]))
    ensures CanStrand(w') ==> CanStrand(w)
  {
    var front := w.sem.waiters[0];
    var w1 := Next(w, Release(holder));
    var w2 := Next(w1, TryAcquire(holder));
    w' := Next(w2, Poll(front));
    assert w'.status == w.status;
    if CanStrand(w') {
      StrandsLater(w2, Poll(front));
      StrandsLater(w1, TryAcquire(holder));
      StrandsLater(w, Release(holder));
    }
  }

  lemma {:induction false} RotatedQuiet(w: World, w': World, holder: Task)
    requires Quiet(w, holder) && w'.status == w.status && w'.sem.permits == 0
    ensures Quiet(w', holder) && With(w', Sleeping) == With(w, Sleeping)
  {
    assert With(w', Woken) == With(w, Woken);
  }

  lemma {:induction false} StaleStrands(w: World, holder: Task, i: nat)
    requires Quiet(w, holder) && StaleAt(w, i) && With(w, Sleeping) != {}
    ensures CanStrand(w)
    decreases i
  {
    if StaleAt(w, 0) {
      StaleInFront(w, holder);
    } else {
      var w' := Rotate(w, holder);
      RotatedQuiet(w, w', holder);
      assert w'.sem.waiters[i - 1] == w.sem.waiters[i];
      StaleStrands(w', holder, i - 1);
    }
  }

  /** The first of two wakers of one task hands it a permit, which leaves the second stale. */
  lemma {:induction false} TwiceInFront(w: World, holder: Task, j: nat, other: Task)
    requires Quiet(w, holder) && TwiceAt(w, 0, j) && !StaleAt(w, 0)
    requires StatusOf(w, other) == Sleeping && other != w.sem.waiters[0]
    ensures CanStrand(w)
  {
    var front := w.sem.waiters[0];
    var w1 := Next(w, Release(holder));
    var w2 := Next(w1, Poll(front));
    assert w2.sem == SemState(0, w.sem.waiters[1..]);
    assert w2.sem.waiters[j - 1] == front;
    assert With(w2, Woken) == {} by {
      forall t ensures t !in With(w2, Woken) {
        assert t !in With(w, Woken);
      }
    }
    assert other in With(w2, Sleeping);
    StaleStrands(w2, front, j - 1);
    StrandsLater(w1, Poll(front));
    StrandsLater(w, Release(holder));
  }

  lemma {:induction false} TwiceStrands(w: World, holder: Task, i: nat, j: nat, other: Task)
    requires Quiet(w, holder) && TwiceAt(w, i, j)
    requires StatusOf(w, other) == Sleeping && other != w.sem.waiters[i]
    ensures CanStrand(w)
    decreases i
  {
    assert other in With(w, Sleeping);
    if StaleAt(w, 0) {
      StaleInFront(w, holder);
    } else if i == 0 {
      TwiceInFront(w, holder, j, other);
    } else {
      var w' := Rotate(w, holder);
      RotatedQuiet(w, w', holder);
      assert w'.sem.waiters[i - 1] == w.sem.waiters[i] && w'.sem.waiters[j - 1] == w.sem.waiters[j];
      TwiceStrands(w', holder, i - 1, j - 1, other);
    }
  }

  lemma {:induction false} Above(s: set<Task>) returns (t: Task)
    ensures forall u :: u in s ==> u < t
  {
    if s == {} {
      t := 0;
    } else {
      var u :| u in s;
      var rest := Above(s - {u});
      t := if rest > u then rest else u + 1;
      forall v | v in s ensures v < t {
        assert v == u || v in s - {u};
      }
    }
  }

  /** A task nobody has heard of. */
  lemma {:induction false} Newcomer(w: World) returns (t: Task)
    ensures t !in w.status && t !in w.sem.waiters
  {
    t := Above(w.status.Keys + set u | u in w.sem.waiters);
  }

  /** One more waker at the end of the queue does not tidy it up, nor does falling asleep on it. */
  lemma {:induction false} StaysMessy(w: World, w': World, t: Task)
    requires Messy(w) && w'.sem.waiters == w.sem.waiters + [t]
    requires forall u :: u != t ==> StatusOf(w', u) == StatusOf(w, u)
    ensures Messy(w')
  {
    if i: nat :| StaleAt(w, i) {
      if w.sem.waiters[i] == t {
        assert TwiceAt(w', i, |w.sem.waiters|);
      } else {
        assert StaleAt(w', i);
      }
    } else {
      var i: nat, j: nat :| TwiceAt(w, i, j);
      assert TwiceAt(w', i, j);
    }
  }

  /** Once every permit is held and nobody is on the way, a newcomer can be stranded. */
  lemma {:induction false} QuietStrands(w: World, holder: Task)
    requires Quiet(w, holder) && Messy(w)
    ensures CanStrand(w)
  {
    var t := Newcomer(w);
    var w' := Next(w, Poll(t));
    assert With(w', Woken) == With(w, Woken);
    assert t in With(w', Sleeping);
    StaysMessy(w, w', t);
    if i: nat :| StaleAt(w', i) {
      StaleStrands(w', holder, i);
    } else {
      var i: nat, j: nat :| TwiceAt(w', i, j);
      assert w'.sem.waiters[i] == w.sem.waiters[i];
      TwiceStrands(w', holder, i, j, t);
    }
    StrandsLater(w, Poll(t));
  }

  /** With every permit held, the tasks on their way find none and queue again. */
  lemma {:induction false} HeldStrands(w: World)
    requires w.sem.permits == 0 && With(w, Holding) != {} && Messy(w)
    ensures CanStrand(w)
    decreases |With(w, Woken)|
  {
    var holder :| holder in With(w, Holding);
    if With(w, Woken) == {} {
      QuietStrands(w, holder);
    } else {
      var t :| t in With(w, Woken);
      var w' := Next(w, Poll(t));
      StaysMessy(w, w', t);
      SetCounts(w, t, Sleeping, Woken);
      assert With(w', Woken) == With(Set(w, t, Sleeping), Woken);
      assert holder in With(w', Holding);
      HeldStrands(w');
      StrandsLater(w, Poll(t));
    }
  }

  /** Newcomers may take all the free permits first. */
  lemma {:induction false} MessyStrands(w: World)
    requires w.sem.permits + |With(w, Holding)| >= 1 && Messy(w)
    ensures CanStrand(w)
    decreases w.sem.permits
  {
    if w.sem.permits == 0 {
      HeldStrands(w);
    } else {
      var t := Newcomer(w);
      var w' := Next(w, TryAcquire(t));
      NextConserves(w, TryAcquire(t));
      if i: nat :| StaleAt(w, i) {
        assert StaleAt(w', i);
      } else {
        var i: nat, j: nat :| TwiceAt(w, i, j);
        assert TwiceAt(w', i, j);
      }
      MessyStrands(w');
      StrandsLater(w, TryAcquire(t));
    }
  }

  lemma {:induction false} UncleanIsMessy(w: World)
    requires Attended(w) && !Clean(w)
    ensures Messy(w)
  {
    if i, j :| 0 <= i < j < |w.sem.waiters| && w.sem.waiters[i] == w.sem.waiters[j] {
      assert TwiceAt(w, i, j);
    } else {
      var t :| t in w.sem.waiters && StatusOf(w, t) != Sleeping;
      var i :| 0 <= i < |w.sem.waiters| && w.sem.waiters[i] == t;
      assert StaleAt(w, i);
    }
  }

  // The other direction: a clean world stays clean, and its sleepers stay attended.

  ghost predicate UpToWaste(w: World, w': World) {
    w'.sem == w.sem && w'.status == w.status
  }

  lemma {:induction false} CleanNeverStrands(w: World, w0: World, acts: seq<Action>)
    requires UpToWaste(w, w0) && QueueIsSleepers(w0) && Attended(w0) && Behaves(w, acts)
    ensures !Stranded(Continue(w, acts))
    decreases |acts|
  {
    if acts == [] {
      assert With(w, Woken) == With(w0, Woken);
      forall t ensures t !in With(w, Sleeping) || w.sem.permits <= |With(w, Woken)| {
        assert t in With(w, Sleeping) ==> t in w0.sem.waiters;
      }
    } else {
      NextKeepsQueue(w0, acts[0]);
      NextAttends(w0, acts[0]);
      CleanNeverStrands(Next(w, acts[0]), Next(w0, acts[0]), acts[1..]);
    }
  }

  lemma {:induction false} CleanAttends(w: World, w0: World)
    requires Clean(w) && !Stranded(w) && w0 == w.(wasted := 0)
    ensures QueueIsSleepers(w0) && Attended(w0)
  {
    assert With(w0, Woken) == With(w, Woken);
    if w.sem.waiters != [] {
      assert w.sem.waiters[0] in w.sem.waiters;
      assert w.sem.waiters[0] in With(w, Sleeping);
    }
  }

  /** Exactly when a wake-up can still be lost, from any reachable world on: some well-behaved
      continuation strands a task beside a free permit if and only if one is stranded already, or
      the queue is not clean.  A dropped waiter whose waker stays queued, or a waker queued twice
      by a spurious poll, is enough, however well everyone behaves from then on; and nothing else
      is. */
  lemma {:induction false} StrandsExactlyWhen(permits: nat, before: seq<Action>)
    requires permits >= 1
    ensures CanStrand(After(permits, before)) <==> Stranded(After(permits, before)) || !Clean(After(permits, before))
  {
    var w := After(permits, before);
    AfterAttended(permits, before);
    PermitsConserved(permits, before);
    if Stranded(w) {
      StrandsNow(w);
    } else if !Clean(w) {
      UncleanIsMessy(w);
      MessyStrands(w);
    } else {
      var w0 := w.(wasted := 0);
      assert With(w0, Woken) == With(w, Woken);
      CleanAttends(w, w0);
      forall acts | Behaves(w, acts) ensures !Stranded(Continue(w, acts)) {
        CleanNeverStrands(w, w0, acts);
      }
    }
  }

  /** A spurious poll does it too: the second waker it queues can cost a later waiter its wake-up. */
  lemma {:induction false} SpuriousPollLosesWakeup()
    ensures CanStrand(After(1, [Poll(0)] + [Poll(1)] + [Poll(1)]))
  {
    HolderAndWaiter();
    var w := World(SemState(0, [1, 1]), map[0 := Holding, 1 := Sleeping], 0);
    AfterSnoc(1, [Poll(0)] + [Poll(1)], Poll(1), World(SemState(0, [1]), map[0 := Holding, 1 := Sleeping], 0), w);
    assert w.sem.waiters[0] == w.sem.waiters[1];
    StrandsExactlyWhen(1, [Poll(0)] + [Poll(1)] + [Poll(1)]);
  }

  // --- What the queue length tells ------------------------------------------------------------------

  /** The queue length that the saturation policy compares with `max_queued` is never less than the
      number of tasks asleep, and it is that number exactly when the queue is clean. */
  lemma {:induction false} QueuedCountsSleepers(permits: nat, acts: seq<Action>)
    ensures var w := After(permits, acts);
      |With(w, Sleeping)| <= |w.sem.waiters| &&
      (|w.sem.waiters| == |With(w, Sleeping)| <==> Clean(w))
  {
    var w := After(permits, acts);
    AfterAttended(permits, acts);
    var asleep, queued := With(w, Sleeping), Elements(w.sem.waiters);
    assert forall t :: t in asleep <==> StatusOf(w, t) == Sleeping;
    DistinctCount(w.sem.waiters);
    Subset(asleep, queued);
    if Clean(w) {
      assert queued == asleep;
    } else {
      assert forall t :: t in w.sem.waiters <==> t in queued;
    }
  }
}
