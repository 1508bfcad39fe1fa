/** Many calls of the pipeline on one retry budget: the threads of the bucket and the calls that
    wait for them, in every interleaving (src/engine.rs:185-189, src/engine.rs:344-354,
    src/retry/budget.rs:45-78). */
module SharedBudget {
  import opened Common
  import opened Engine
  import opened EngineTheorems
  import opened Pipeline
  import opened RetryBudget
  import B = Breaker
  import Bucket = RetryBudgetProtocol

  // --- What one call pays --------------------------------------------------------------------

  /** All that determines one call's course. */
  datatype Launch<!T, !E> = Launch(
    plan: Plan<T, E>,
    config: Option<B.Config>,
    recordWhen: Option<E -> bool>,
    history: seq<B.Event>,
    scene: Scene<T, E>)
  {
    predicate Sane() { plan.budgeted && plan.maxAttempts >= 1 && (config.Some? ==> config.value.Sane()) }

    function Journey(): Journey<T, E>
      requires Sane()
    {
      Course(plan, config, recordWhen, history, scene)
    }

    /** How often its course invokes the operation. */
    function Invocations(): nat
      requires Sane()
    {
      |Journey().report.calls|
    }
  }

  /** How many of the withdrawals between the first `n` attempts the budget granted. */
  function GrantedBefore<T, E>(oracle: nat -> Turn<T, E>, n: nat): nat {
    if n <= 1 then 0 else GrantedBefore(oracle, n - 1) + if oracle(n - 1).granted then 1 else 0
  }

  /** In a budgeted run every retry so far was granted, at every point of the run. */
  lemma {:induction false} PaidSoFar<T, E>(env: Env<T, E>, at: nat, n: nat)
    requires env.plan.budgeted && env.plan.maxAttempts >= 1 && n <= |DriveSpec(env, at).calls|
    ensures GrantedBefore(env.oracle, n) == if n == 0 then 0 else n - 1
    decreases n
  {
    hide DriveFrom;
    if n >= 2 {
      PaidSoFar(env, at, n - 1);
      var r := DriveSpec(env, at);
      Numbered(env, 1, None, None, at);
      RunExplained(env, at);
      ExplainedAt(env, None, r.calls, r.outcome, n - 2);
      assert r.calls[n - 2].number == n - 1;
    }
  }

  lemma {:induction false} AdmittedPays<T, E>(plan: Plan<T, E>, c: Option<B.Config>, recordWhen: Option<E -> bool>,
      history: seq<B.Event>, scene: Scene<T, E>, view: BreakerView, at: nat, n: nat)
    requires plan.budgeted && plan.maxAttempts >= 1 && (c.Some? ==> c.value.Sane())
    requires n <= |Admitted(plan, c, recordWhen, history, scene, view, at).report.calls|
    ensures GrantedBefore(scene.oracle, n) == if n == 0 then 0 else n - 1
    ensures Admitted(plan, c, recordWhen, history, scene, view, at).deposits == 1
  {
    hide DriveSpec, B.Transition, B.Run;
    PaidSoFar(EnvOf(plan, scene, view), at, n);
  }

  lemma {:induction false} LaunchPays<T, E>(l: Launch<T, E>, n: nat)
    requires l.Sane() && n <= l.Invocations()
    ensures GrantedBefore(l.scene.oracle, n) == if n == 0 then 0 else n - 1
  {
    hide Admitted, Pass, AcquireFor;
    var deadline := TotalDeadline(l.plan, l.scene.start);
    var (held, at) := AcquireFor(l.plan, Operations, l.scene.permit, l.scene.start, deadline);
    var pass := Pass(l.config, l.history + l.scene.before, at);
    if held && pass.Some? {
      AdmittedPays(l.plan, l.config, l.recordWhen, l.history + l.scene.before, l.scene, pass.value, at, n);
    }
  }

  // --- Calls and bucket together --------------------------------------------------------------------

  /** Where a call is: the thread of its deposit, how many times it has invoked its operation, how
      many of its withdrawals have been answered, and the thread of the one that has not. */
  datatype Stage = Stage(deposit: Bucket.ThreadId, begun: nat, heard: nat, asking: Option<Bucket.ThreadId>)

  /** The steps on the bucket so far, the calls that have started their attempts, and the threads
      whose withdrawals the calls were granted. */
  datatype World = World(acts: seq<Bucket.Action>, calls: seq<Stage>, spent: set<Bucket.ThreadId>)

  datatype Action =
    | Start(t: Bucket.ThreadId)           // the next call deposits
    | Work(a: Bucket.Action)              // a load or a compare-exchange of any thread
    | Invoke(i: nat)                      // a call invokes its operation
    | Ask(i: nat, t: Bucket.ThreadId)     // a call begins a withdrawal
    | Hear(i: nat)                        // a call's withdrawal has returned

  const EMPTY := World([], [], {})

  predicate Done(bucket: Bucket.World, t: Bucket.ThreadId) {
    t in bucket.calls && bucket.calls[t].Finished?
  }

  /** One step; one that is not possible does nothing.  A call is as its launch makes it: it invokes
      its operation as often as its course does, again only once its withdrawal has returned; and
      what its course took for the budget's answer is the bucket's. */
  function Next<T, E>(b: Budget, launches: nat -> Launch<T, E>, w: World, a: Action): World
    requires forall i :: launches(i).Sane()
  {
    var bucket := Bucket.After(b, w.acts);
    match a
    case Start(t) =>
      if t in bucket.calls || launches(|w.calls|).Journey().deposits == 0 then w
      else w.(acts := w.acts + [Bucket.Begin(t, Op.Deposit)], calls := w.calls + [Stage(t, 0, 0, None)])
    case Work(step) =>
      if step.Begin? then w else w.(acts := w.acts + [step])
    case Invoke(i) =>
      if i >= |w.calls| then w
      else
        var s := w.calls[i];
        if s.begun < launches(i).Invocations() &&
          (if s.begun == 0 then Done(bucket, s.deposit) else s.heard == s.begun)
        then w.(calls := w.calls[i := s.(begun := s.begun + 1)])
        else w
    case Ask(i, t) =>
      if i >= |w.calls| || t in bucket.calls then w
      else
        var s := w.calls[i];
        if s.asking.None? && s.heard < s.begun
        then w.(acts := w.acts + [Bucket.Begin(t, Withdraw)], calls := w.calls[i := s.(asking := Some(t))])
        else w
    case Hear(i) =>
      if i >= |w.calls| || w.calls[i].asking.None? then w
      else
        var s, t := w.calls[i], w.calls[i].asking.value;
        if Done(bucket, t) && bucket.calls[t].granted == launches(i).scene.oracle(s.begun).granted
        then w.(calls := w.calls[i := s.(heard := s.heard + 1, asking := None)],
                spent := w.spent + if bucket.calls[t].granted then {t} else {})
        else w
  }

  function After<T, E>(b: Budget, launches: nat -> Launch<T, E>, acts: seq<Action>): World
    requires forall i :: launches(i).Sane()
  {
    if acts == [] then EMPTY else Next(b, launches, After(b, launches, acts[..|acts| - 1]), acts[|acts| - 1])
  }

  /** A call that waits for nothing goes on: it invokes its operation again exactly when its course
      does and, before a retry, its withdrawal has been answered, or its deposit has been made. */
  lemma {:induction false} InvokesExactlyWhen<T, E>(b: Budget, launches: nat -> Launch<T, E>, w: World, i: nat)
    requires (forall k :: launches(k).Sane()) && i < |w.calls|
    ensures var s, w' := w.calls[i], Next(b, launches, w, Invoke(i));
      |w'.calls| == |w.calls| && w'.acts == w.acts &&
      w'.calls[i].begun == s.begun +
        (if s.begun < |Course(launches(i).plan, launches(i).config, launches(i).recordWhen, launches(i).history,
              launches(i).scene).report.calls| &&
            (if s.begun == 0 then Done(Bucket.After(b, w.acts), s.deposit) else s.heard == s.begun)
         then 1 else 0)
  {
    hide Course, Bucket.After;
  }

  lemma {:induction false} ActsOnBucket(b: Budget, acts: seq<Bucket.Action>, a: Bucket.Action)
    ensures Bucket.After(b, acts + [a]) == Bucket.Next(b, Bucket.After(b, acts), a)
  {
    hide Bucket.Next;
    assert (acts + [a])[..|acts|] == acts;
  }

  /** A call that is left alone while it starts makes its deposit. */
  lemma {:induction false} StartGoesThrough<T, E>(b: Budget, launches: nat -> Launch<T, E>, w: World,
      t: Bucket.ThreadId)
    requires (forall k :: launches(k).Sane()) && t !in Bucket.After(b, w.acts).calls
    requires launches(|w.calls|).Journey().deposits >= 1
    ensures var w1 := Next(b, launches, w, Start(t));
      var w2 := Next(b, launches, w1, Work(Bucket.Load(t)));
      var w3 := Next(b, launches, w2, Work(Bucket.Exchange(t, false)));
      var before, after := Bucket.After(b, w.acts), Bucket.After(b, w3.acts);
      w3.calls == w.calls + [Stage(t, 0, 0, None)] && w3.spent == w.spent && Done(after, t) &&
      after.tokens == Min(before.tokens + b.deposit, b.maxTokens)
  {
    hide Launch.Journey, Bucket.After, Bucket.Next;
    var asked, loaded := Bucket.Begin(t, Op.Deposit), Bucket.Load(t);
    ActsOnBucket(b, w.acts, asked);
    ActsOnBucket(b, w.acts + [asked], loaded);
    ActsOnBucket(b, w.acts + [asked] + [loaded], Bucket.Exchange(t, false));
    Bucket.UndisturbedCall(b, Bucket.After(b, w.acts), t, Op.Deposit);
  }

  /** A call that is left alone after an attempt asks the bucket and hears its answer, which is the
      course's: with a whole token it pays and has all it needs for its next attempt, and with less
      it has paid nothing. */
  lemma {:induction false} RetryGoesThrough<T, E>(b: Budget, launches: nat -> Launch<T, E>, w: World, i: nat,
      t: Bucket.ThreadId)
    requires (forall k :: launches(k).Sane()) && t !in Bucket.After(b, w.acts).calls
    requires i < |w.calls| && w.calls[i].asking.None? && w.calls[i].heard + 1 == w.calls[i].begun
    requires launches(i).scene.oracle(w.calls[i].begun).granted <==> Bucket.After(b, w.acts).tokens >= 1000
    ensures var w1 := Next(b, launches, w, Ask(i, t));
      var w2 := Next(b, launches, w1, Work(Bucket.Load(t)));
      var w3 := Next(b, launches, w2, Work(Bucket.Exchange(t, false)));
      var w4 := Next(b, launches, w3, Hear(i));
      var tokens, s := Bucket.After(b, w.acts).tokens, w.calls[i];
      w4.calls == w.calls[i := s.(heard := s.begun)] &&
      w4.spent == w.spent + (if tokens >= 1000 then {t} else {}) &&
      Bucket.After(b, w4.acts).tokens == tokens - if tokens >= 1000 then 1000 else 0
  {
    hide Launch.Journey, Launch.Invocations, Bucket.After, Bucket.Next;
    var asked, loaded := Bucket.Begin(t, Withdraw), Bucket.Load(t);
    ActsOnBucket(b, w.acts, asked);
    ActsOnBucket(b, w.acts + [asked], loaded);
    ActsOnBucket(b, w.acts + [asked] + [loaded], Bucket.Exchange(t, false));
    Bucket.UndisturbedCall(b, Bucket.After(b, w.acts), t, Withdraw);
  }

  /** The invocations after the first, of all calls. */
  function Retries(calls: seq<Stage>): nat {
    if calls == [] then 0
    else
      var last := calls[|calls| - 1];
      Retries(calls[..|calls| - 1]) + if last.begun == 0 then 0 else last.begun - 1
  }

  /** The withdrawals all calls have heard were granted. */
  function Heard<T, E>(launches: nat -> Launch<T, E>, calls: seq<Stage>): nat {
    if calls == [] then 0
    else
      var n := |calls| - 1;
      Heard(launches, calls[..n]) + GrantedBefore(launches(n).scene.oracle, calls[n].heard + 1)
  }

  lemma {:induction false} HeardUpdate<T, E>(launches: nat -> Launch<T, E>, calls: seq<Stage>, i: nat, s: Stage)
    requires i < |calls|
    ensures Heard(launches, calls[i := s]) + GrantedBefore(launches(i).scene.oracle, calls[i].heard + 1) ==
      Heard(launches, calls) + GrantedBefore(launches(i).scene.oracle, s.heard + 1)
  {
    var n := |calls| - 1;
    if i < n {
      HeardUpdate(launches, calls[..n], i, s);
      assert calls[i := s][..n] == calls[..n][i := s];
    } else {
      assert calls[i := s][..n] == calls[..n];
    }
  }

  // --- The invariant -------------------------------------------------------------------------------

  /** A withdrawal on the bucket, finished or not. */
  predicate IsWithdrawal(bucket: Bucket.World, t: Bucket.ThreadId) {
    t in bucket.calls && (bucket.calls[t].Denied? || bucket.calls[t].op == Withdraw)
  }

  predicate IsGrant(bucket: Bucket.World, t: Bucket.ThreadId) {
    Done(bucket, t) && bucket.calls[t].op == Withdraw && bucket.calls[t].granted
  }

  /** A step of the bucket leaves withdrawals withdrawals and grants grants. */
  lemma {:induction false} BucketStep(b: Budget, acts: seq<Bucket.Action>, a: Bucket.Action)
    ensures var bucket, bucket' := Bucket.After(b, acts), Bucket.After(b, acts + [a]);
      bucket' == Bucket.Next(b, bucket, a) &&
      (forall t :: t in bucket.calls ==> t in bucket'.calls) &&
      (forall t :: IsWithdrawal(bucket, t) ==> IsWithdrawal(bucket', t)) &&
      (forall t :: IsGrant(bucket, t) ==> IsGrant(bucket', t)) &&
      Bucket.CallsBegun(b, acts + [a]) == Bucket.CallsBegun(b, acts) +
        if a.Begin? && a.op == Op.Deposit && a.t !in bucket.calls then 1 else 0
  {
    assert (acts + [a])[..|acts|] == acts;
  }

  ghost predicate StageSane<T, E>(bucket: Bucket.World, l: Launch<T, E>, spent: set<Bucket.ThreadId>, s: Stage)
    requires l.Sane()
  {
    s.heard <= s.begun <= s.heard + 1 && s.begun <= l.Invocations() &&
    (s.asking.Some? ==> s.heard < s.begun && IsWithdrawal(bucket, s.asking.value) && s.asking.value !in spent)
  }

  ghost predicate Inv<T, E>(b: Budget, launches: nat -> Launch<T, E>, w: World)
    requires forall i :: launches(i).Sane()
  {
    var bucket := Bucket.After(b, w.acts);
    Bucket.CallsBegun(b, w.acts) == |w.calls| && |w.spent| == Heard(launches, w.calls) &&
    (forall t :: t in w.spent ==> IsGrant(bucket, t)) &&
    (forall i :: 0 <= i < |w.calls| ==> StageSane(bucket, launches(i), w.spent, w.calls[i])) &&
    (forall i, j :: 0 <= i < j < |w.calls| && w.calls[i].asking.Some? ==> w.calls[i].asking != w.calls[j].asking)
  }

  lemma {:induction false} StartKeepsInv<T, E>(b: Budget, launches: nat -> Launch<T, E>, w: World, t: Bucket.ThreadId)
    requires (forall i :: launches(i).Sane()) && Inv(b, launches, w)
    ensures Inv(b, launches, Next(b, launches, w, Start(t)))
  {
    hide Launch.Journey, Launch.Invocations, IsWithdrawal, IsGrant, Bucket.After, Bucket.CallsBegun;
    var w' := Next(b, launches, w, Start(t));
    if w' != w {
      BucketStep(b, w.acts, Bucket.Begin(t, Op.Deposit));
      assert w'.calls[..|w.calls|] == w.calls;
    }
  }

  lemma {:induction false} WorkKeepsInv<T, E>(b: Budget, launches: nat -> Launch<T, E>, w: World, a: Bucket.Action)
    requires (forall i :: launches(i).Sane()) && Inv(b, launches, w)
    ensures Inv(b, launches, Next(b, launches, w, Work(a)))
  {
    hide Launch.Journey, Launch.Invocations, IsWithdrawal, IsGrant, Bucket.After, Bucket.CallsBegun;
    BucketStep(b, w.acts, a);
  }

  lemma {:induction false} InvokeKeepsInv<T, E>(b: Budget, launches: nat -> Launch<T, E>, w: World, i: nat)
    requires (forall k :: launches(k).Sane()) && Inv(b, launches, w)
    ensures Inv(b, launches, Next(b, launches, w, Invoke(i)))
  {
    hide Launch.Journey, Launch.Invocations, IsWithdrawal, IsGrant, Bucket.After, Bucket.CallsBegun;
    var w' := Next(b, launches, w, Invoke(i));
    if w' != w {
      HeardUpdate(launches, w.calls, i, w'.calls[i]);
    }
  }

  lemma {:induction false} AskKeepsInv<T, E>(b: Budget, launches: nat -> Launch<T, E>, w: World, i: nat,
      t: Bucket.ThreadId)
    requires (forall k :: launches(k).Sane()) && Inv(b, launches, w)
    ensures Inv(b, launches, Next(b, launches, w, Ask(i, t)))
  {
    hide Launch.Journey, Launch.Invocations, Bucket.After, Bucket.CallsBegun;
    var w' := Next(b, launches, w, Ask(i, t));
    if w' != w {
      BucketStep(b, w.acts, Bucket.Begin(t, Withdraw));
      HeardUpdate(launches, w.calls, i, w'.calls[i]);
    }
  }

  /** An answer heard moves a finished withdrawal, if granted, to the spent ones. */
  lemma {:induction false} AnswerHeard<T, E>(bucket: Bucket.World, l: Launch<T, E>, spent: set<Bucket.ThreadId>,
      s: Stage)
    requires l.Sane() && StageSane(bucket, l, spent, s) && s.asking.Some? && Done(bucket, s.asking.value)
    requires bucket.calls[s.asking.value].granted == l.scene.oracle(s.begun).granted
    ensures var t, granted := s.asking.value, bucket.calls[s.asking.value].granted;
      var spent' := spent + if granted then {t} else {};
      (granted ==> IsGrant(bucket, t)) &&
      |spent'| == |spent| + (if granted then 1 else 0) &&
      GrantedBefore(l.scene.oracle, s.heard + 2) ==
        GrantedBefore(l.scene.oracle, s.heard + 1) + (if granted then 1 else 0) &&
      StageSane(bucket, l, spent', s.(heard := s.heard + 1, asking := None))
  {
    hide Launch.Sane, Launch.Invocations;
    assert s.heard + 1 == s.begun;
  }

  /** Another call does not notice. */
  lemma {:induction false} OthersKept<T, E>(bucket: Bucket.World, l: Launch<T, E>, spent: set<Bucket.ThreadId>,
      s: Stage,
      t: Bucket.ThreadId)
    requires l.Sane() && StageSane(bucket, l, spent, s) && s.asking != Some(t)
    ensures StageSane(bucket, l, spent + {t}, s) && StageSane(bucket, l, spent + {}, s)
  {
    hide Launch.Sane, Launch.Invocations, IsWithdrawal;
    assert spent + {} == spent;
  }

  lemma {:induction false} HearKeepsInv<T, E>(b: Budget, launches: nat -> Launch<T, E>, w: World, i: nat)
    requires (forall k :: launches(k).Sane()) && Inv(b, launches, w)
    ensures Inv(b, launches, Next(b, launches, w, Hear(i)))
  {
    hide Launch.Sane, Launch.Invocations, Bucket.After, Bucket.CallsBegun, StageSane, IsGrant, IsWithdrawal;
    hide GrantedBefore, Heard;
    var w' := Next(b, launches, w, Hear(i));
    if w' != w {
      var bucket, s := Bucket.After(b, w.acts), w.calls[i];
      var t := s.asking.value;
      HeardUpdate(launches, w.calls, i, w'.calls[i]);
      AnswerHeard(bucket, launches(i), w.spent, s);
      forall k | 0 <= k < |w.calls| ensures StageSane(bucket, launches(k), w'.spent, w'.calls[k]) {
        if k != i {
          assert w.calls[k].asking != Some(t);
          OthersKept(bucket, launches(k), w.spent, w.calls[k], t);
        }
      }
    }
  }

  lemma {:induction false} AfterInv<T, E>(b: Budget, launches: nat -> Launch<T, E>, acts: seq<Action>)
    requires forall i :: launches(i).Sane()
    ensures Inv(b, launches, After(b, launches, acts))
  {
    if acts != [] {
      hide Inv, Next;
      var rest := acts[..|acts| - 1];
      AfterInv(b, launches, rest);
      var w := After(b, launches, rest);
      match acts[|acts| - 1]
      case Start(t) => StartKeepsInv(b, launches, w, t);
      case Work(a) => WorkKeepsInv(b, launches, w, a);
      case Invoke(i) => InvokeKeepsInv(b, launches, w, i);
      case Ask(i, t) => AskKeepsInv(b, launches, w, i, t);
      case Hear(i) => HearKeepsInv(b, launches, w, i);
    }
  }

  // --- The bound -----------------------------------------------------------------------------------

  /** The threads with a granted withdrawal among some effects. */
  function Granters(effects: seq<Bucket.Effect>): set<Bucket.ThreadId> {
    set e | e in effects && e.op == Withdraw && e.granted :: e.thread
  }

  lemma {:induction false} GrantersCount(effects: seq<Bucket.Effect>)
    ensures |Granters(effects)| <= Bucket.Grants(effects)
  {
    if effects != [] {
      var rest, e := effects[..|effects| - 1], effects[|effects| - 1];
      GrantersCount(rest);
      assert effects == rest + [e];
      assert Granters(effects) == Granters(rest) + if e.op == Withdraw && e.granted then {e.thread} else {};
    }
  }

  lemma {:induction false} SpentAreGrants(b: Budget, acts: seq<Bucket.Action>, spent: set<Bucket.ThreadId>)
    requires b.Sane() && forall t :: t in spent ==> IsGrant(Bucket.After(b, acts), t)
    ensures |spent| <= Bucket.Grants(Bucket.After(b, acts).effects)
  {
    hide Bucket.After;
    var bucket := Bucket.After(b, acts);
    forall t | t in spent ensures t in Granters(bucket.effects) {
      assert IsGrant(bucket, t);
      Bucket.RefinesAtomicBucket(b, acts);
      assert bucket.effects[bucket.calls[t].at] in bucket.effects;
    }
    GrantersCount(bucket.effects);
    Subset(spent, Granters(bucket.effects));
  }

  lemma {:induction false} StagePays<T, E>(bucket: Bucket.World, l: Launch<T, E>, spent: set<Bucket.ThreadId>, s: Stage)
    requires l.Sane() && StageSane(bucket, l, spent, s)
    ensures (if s.begun == 0 then 0 else s.begun - 1) <= GrantedBefore(l.scene.oracle, s.heard + 1)
  {
    hide Launch.Sane, Launch.Invocations, IsWithdrawal;
    LaunchPays(l, s.begun);
  }

  lemma {:induction false} RetriesHeard<T, E>(bucket: Bucket.World, launches: nat -> Launch<T, E>,
      spent: set<Bucket.ThreadId>, calls: seq<Stage>)
    requires forall i :: launches(i).Sane()
    requires forall i :: 0 <= i < |calls| ==> StageSane(bucket, launches(i), spent, calls[i])
    ensures Retries(calls) <= Heard(launches, calls)
  {
    hide Launch.Sane, StageSane, GrantedBefore;
    if calls != [] {
      var n := |calls| - 1;
      RetriesHeard(bucket, launches, spent, calls[..n]);
      StagePays(bucket, launches(n), spent, calls[n]);
    }
  }

  /** However many policies share one budget, and however the steps of their calls and of the
      bucket's threads interleave, at every moment: 1000 times all the retries so far of all the
      calls that have started is at most the burst plus the deposit for each of them. */
  lemma {:induction false} SharedBudgetBoundsRetries<T, E>(b: Budget, launches: nat -> Launch<T, E>, acts: seq<Action>)
    requires b.Sane() && forall i :: launches(i).Sane()
    ensures var w := After(b, launches, acts);
      COST * Retries(w.calls) <= b.maxTokens + b.deposit * |w.calls|
  {
    hide Bucket.After, Bucket.CallsBegun, Bucket.Grants, After, Retries, Heard, IsGrant, StageSane;
    var w := After(b, launches, acts);
    AfterInv(b, launches, acts);
    RetriesHeard(Bucket.After(b, w.acts), launches, w.spent, w.calls);
    SpentAreGrants(b, w.acts, w.spent);
    Bucket.RetriesBoundedFromStart(b, w.acts);
  }
}
