/** The shared retry budget (src/retry/budget.rs): a token bucket behind one atomic word,
    changed by load / compare-exchange loops. */
module RetryBudget {
  import opened Common

  /** Tokens are counted in thousandths; a retry costs one whole token. */
  const COST := 1000

  datatype Budget = Budget(maxTokens: int, deposit: int)
  {
    predicate Sane() { maxTokens >= COST && 0 <= deposit <= COST }
  }

  /** `new`: the ratio clamped to [0, 1] and scaled down to thousandths, the burst at least one. */
  function NewBudget(ratio: real, burst: nat): (b: Budget)
    ensures b.Sane()
    ensures b.maxTokens == Max(burst, 1) * COST
    ensures 0.0 <= ratio <= 1.0 ==> b.deposit as real <= ratio * 1000.0 < b.deposit as real + 1.0
    ensures ratio <= 0.0 ==> b.deposit == 0
    ensures ratio >= 1.0 ==> b.deposit == COST
  {
    var clamped := if ratio < 0.0 then 0.0 else if ratio > 1.0 then 1.0 else ratio;
    Budget((if burst < 1 then 1 else burst) * COST, (clamped * 1000.0).Floor)
  }

  // --- The atomic bucket: what one deposit or withdrawal does ---------------------------------

  datatype Op = Deposit | Withdraw

  function Apply(b: Budget, tokens: int, op: Op): int {
    match op
    case Deposit => Min(tokens + b.deposit, b.maxTokens)
    case Withdraw => if tokens < COST then tokens else tokens - COST
  }

  /** The answer the operation gives: a withdrawal may be denied. */
  function Granted(tokens: int, op: Op): bool {
    op == Deposit || tokens >= COST
  }

  function ApplyAll(b: Budget, tokens: int, ops: seq<Op>): int {
    if ops == [] then tokens
    else Apply(b, ApplyAll(b, tokens, ops[..|ops| - 1]), ops[|ops| - 1])
  }

  lemma {:induction false} ApplyAllConcat(b: Budget, tokens: int, xs: seq<Op>, ys: seq<Op>)
    ensures ApplyAll(b, tokens, xs + ys) == ApplyAll(b, ApplyAll(b, tokens, xs), ys)
  {
    if ys == [] {
      assert xs + ys == xs;
    } else {
      ApplyAllConcat(b, tokens, xs, ys[..|ys| - 1]);
      assert (xs + ys)[..|xs + ys| - 1] == xs + ys[..|ys| - 1];
    }
  }

  // --- What uncontended operations add up to ------------------------------------------------------

  function Repeat(op: Op, n: nat): (ops: seq<Op>)
    ensures |ops| == n
  {
    if n == 0 then [] else Repeat(op, n - 1) + [op]
  }

  /** Deposits add up until the bucket is full. */
  lemma {:induction false} DepositsAddUp(b: Budget, tokens: int, n: nat)
    requires b.Sane() && tokens <= b.maxTokens
    ensures ApplyAll(b, tokens, Repeat(Op.Deposit, n)) == Min(tokens + n * b.deposit, b.maxTokens)
  {
    if n > 0 {
      DepositsAddUp(b, tokens, n - 1);
      assert Repeat(Op.Deposit, n)[..n - 1] == Repeat(Op.Deposit, n - 1);
      OneMore(n, b.deposit);
    }
  }

  /** After `n` deposits into an empty bucket a retry is granted exactly when they reach a token. */
  lemma {:induction false} RetryAfterDeposits(b: Budget, n: nat)
    requires b.Sane()
    ensures Granted(ApplyAll(b, 0, Repeat(Op.Deposit, n)), Withdraw) <==> n * b.deposit >= 1000
  {
    DepositsAddUp(b, 0, n);
  }

  /** Withdrawals take a whole token each while there is one, and nothing after that: the next one
      is granted exactly when the bucket held a token more than those before it. */
  lemma {:induction false} WithdrawalsAddUp(b: Budget, tokens: nat, n: nat)
    ensures ApplyAll(b, tokens, Repeat(Withdraw, n)) ==
      if n * 1000 <= tokens then tokens - n * 1000 else tokens % 1000
    ensures Granted(ApplyAll(b, tokens, Repeat(Withdraw, n)), Withdraw) <==> (n + 1) * 1000 <= tokens
  {
    if n > 0 {
      WithdrawalsAddUp(b, tokens, n - 1);
      assert Repeat(Withdraw, n)[..n - 1] == Repeat(Withdraw, n - 1);
    }
  }

  /** From a full bucket the whole burst of retries is granted in a row, and not one more. */
  lemma {:induction false} BurstGranted(ratio: real, burst: nat, n: nat)
    ensures var b := NewBudget(ratio, burst);
      Granted(ApplyAll(b, b.maxTokens, Repeat(Withdraw, n)), Withdraw) <==> n < Max(burst, 1)
  {
    var b := NewBudget(ratio, burst);
    WithdrawalsAddUp(b, b.maxTokens, n);
  }

  // --- The loops, as methods of an object under interference -------------------------------------

  /** What happens around one turn of a loop: the operations of other threads that take effect
      between this thread's last look at the word and its compare-exchange, and whether the weak
      compare-exchange fails without cause. */
  datatype Round = Round(others: seq<Op>, spurious: bool)

  function OthersIn(rounds: seq<Round>): seq<Op> {
    if rounds == [] then [] else OthersIn(rounds[..|rounds| - 1]) + rounds[|rounds| - 1].others
  }

  /** The word as a thread last saw it before its `i`-th round. */
  function SeenBefore(b: Budget, tokens: int, rounds: seq<Round>, i: nat): int
    requires i <= |rounds|
  {
    ApplyAll(b, tokens, OthersIn(rounds[..i]))
  }

  /** A round in which the exchange succeeds: it does not fail without cause, and the other threads
      leave the word as the thread last saw it. */
  predicate Quiet(b: Budget, tokens: int, rounds: seq<Round>, i: nat)
    requires i < |rounds|
  {
    !rounds[i].spurious && SeenBefore(b, tokens, rounds, i + 1) == SeenBefore(b, tokens, rounds, i)
  }

  /** A round that settles a withdrawal: the thread has seen too few tokens, or the exchange
      succeeds. */
  predicate Settles(b: Budget, tokens: int, rounds: seq<Round>, i: nat)
    requires i < |rounds|
  {
    SeenBefore(b, tokens, rounds, i) < COST || Quiet(b, tokens, rounds, i)
  }

  /** Nobody disturbs the first round. */
  lemma {:induction false} UndisturbedRound(b: Budget, tokens: int, rounds: seq<Round>)
    requires rounds != [] && rounds[0] == Round([], false)
    ensures SeenBefore(b, tokens, rounds, 0) == tokens
    ensures Quiet(b, tokens, rounds, 0) && Settles(b, tokens, rounds, 0)
    ensures OthersIn(rounds[..1]) == [] && OthersIn(rounds[..0]) == []
    ensures ApplyAll(b, tokens, [] + [Op.Deposit]) == Min(tokens + b.deposit, b.maxTokens)
    ensures ApplyAll(b, tokens, [] + [Withdraw]) == tokens - if tokens < COST then 0 else COST
  {
    assert rounds[..1][..0] == [] && OthersIn(rounds[..1]) == OthersIn([]) + rounds[0].others;
    assert ([] + [Op.Deposit])[..0] == [] && ([] + [Withdraw])[..0] == [];
  }

  lemma FirstSight(b: Budget, tokens: int, rounds: seq<Round>)
    ensures SeenBefore(b, tokens, rounds, 0) == tokens
  {}

  /** What a round does to the word: the other threads' operations, and this thread's, if it
      succeeds, after them. */
  lemma {:induction false} RoundStep(b: Budget, tokens: int, rounds: seq<Round>, i: nat, op: Op)
    requires i < |rounds|
    ensures SeenBefore(b, tokens, rounds, i + 1) == ApplyAll(b, SeenBefore(b, tokens, rounds, i), rounds[i].others)
    ensures ApplyAll(b, tokens, OthersIn(rounds[..i + 1]) + [op]) == Apply(b, SeenBefore(b, tokens, rounds, i + 1), op)
  {
    assert rounds[..i + 1][..i] == rounds[..i];
    ApplyAllConcat(b, tokens, OthersIn(rounds[..i]), rounds[i].others);
    assert (OthersIn(rounds[..i + 1]) + [op])[..|OthersIn(rounds[..i + 1])|] == OthersIn(rounds[..i + 1]);
  }

  class Bucket {
    const budget: Budget
    var tokens: int

    constructor (budget: Budget)
      ensures this.budget == budget && tokens == budget.maxTokens
    {
      this.budget := budget;
      tokens := budget.maxTokens;
    }

    method CompareExchangeWeak(current: int, next: int, spurious: bool) returns (observed: Option<int>)
      modifies this
      ensures observed.None? <==> !spurious && old(tokens) == current
      ensures tokens == if observed.None? then next else old(tokens)
      ensures observed.Some? ==> observed.value == old(tokens)
    {
      if tokens == current && !spurious {
        tokens := next;
        observed := None;
      } else {
        observed := Some(tokens);
      }
    }

    /** Other threads' operations, one atomic change after another. */
    method Interfere(ops: seq<Op>)
      modifies this
      ensures tokens == ApplyAll(budget, old(tokens), ops)
    {
      var i := 0;
      while i < |ops|
        invariant 0 <= i <= |ops|
        invariant tokens == ApplyAll(budget, old(tokens), ops[..i])
      {
        assert ops[..i + 1][..i] == ops[..i];
        tokens := Apply(budget, tokens, ops[i]);
        i := i + 1;
      }
      assert ops[..|ops|] == ops;
    }

    /** `deposit`.  The loop commits in the first quiet round `k`: the word has then seen the other
        threads' operations up to there and exactly one deposit.  Without a quiet round it has seen
        the others' operations only. */
    method Deposit(rounds: seq<Round>) returns (committed: bool, ghost k: nat)
      modifies this
      ensures k <= |rounds| && (committed <==> k < |rounds|)
      ensures forall i :: 0 <= i < k ==> !Quiet(budget, old(tokens), rounds, i)
      ensures committed ==> Quiet(budget, old(tokens), rounds, k)
      ensures rounds != [] && rounds[0] == Round([], false) ==>
        committed && k == 0 && tokens == Min(old(tokens) + budget.deposit, budget.maxTokens)
      ensures tokens == ApplyAll(budget, old(tokens),
        if committed then OthersIn(rounds[..k + 1]) + [Op.Deposit] else OthersIn(rounds))
    {
      hide ApplyAll, OthersIn;
      var current, i := tokens, 0;
      k := 0;
      FirstSight(budget, tokens, rounds);
      if rounds != [] && rounds[0] == Round([], false) {
        UndisturbedRound(budget, tokens, rounds);
      }
      while i < |rounds|
        invariant 0 <= i <= |rounds|
        invariant tokens == current == SeenBefore(budget, old(tokens), rounds, i)
        invariant forall j :: 0 <= j < i ==> !Quiet(budget, old(tokens), rounds, j)
        invariant rounds != [] && rounds[0] == Round([], false) ==> i == 0
      {
        var next := Min(current + budget.deposit, budget.maxTokens);
        RoundStep(budget, old(tokens), rounds, i, Op.Deposit);
        Interfere(rounds[i].others);
        var observed := CompareExchangeWeak(current, next, rounds[i].spurious);
        if observed.None? {
          return true, i;
        }
        current := observed.value;
        i := i + 1;
      }
      assert rounds[..|rounds|] == rounds;
      return false, i;
    }

    /** `try_withdraw`.  It answers in the first round `k` that settles it; the answer is the atomic
        bucket's at the point where it last looked at the word, and the word has seen one withdrawal
        if granted, none if denied. */
    method TryWithdraw(rounds: seq<Round>) returns (answer: Option<bool>, ghost k: nat)
      modifies this
      ensures k <= |rounds| && (answer.Some? <==> k < |rounds|)
      ensures forall i :: 0 <= i < k ==> !Settles(budget, old(tokens), rounds, i)
      ensures answer.Some? ==> Settles(budget, old(tokens), rounds, k)
      ensures answer.Some? ==> (answer.value <==> SeenBefore(budget, old(tokens), rounds, k) >= COST)
      ensures rounds != [] && rounds[0] == Round([], false) ==>
        answer == Some(old(tokens) >= COST) && tokens == old(tokens) - if old(tokens) >= COST then COST else 0
      ensures answer == Some(true) ==>
        Granted(ApplyAll(budget, old(tokens), OthersIn(rounds[..k + 1])), Withdraw) &&
        tokens == ApplyAll(budget, old(tokens), OthersIn(rounds[..k + 1]) + [Withdraw])
      ensures answer == Some(false) ==>
        !Granted(ApplyAll(budget, old(tokens), OthersIn(rounds[..k])), Withdraw) &&
        tokens == ApplyAll(budget, old(tokens), OthersIn(rounds[..k]))
      ensures answer == None ==> tokens == ApplyAll(budget, old(tokens), OthersIn(rounds))
    {
      hide ApplyAll, OthersIn;
      var current, i := tokens, 0;
      k := 0;
      FirstSight(budget, tokens, rounds);
      if rounds != [] && rounds[0] == Round([], false) {
        UndisturbedRound(budget, tokens, rounds);
      }
      while i < |rounds|
        invariant 0 <= i <= |rounds|
        invariant tokens == current == SeenBefore(budget, old(tokens), rounds, i)
        invariant forall j :: 0 <= j < i ==> !Settles(budget, old(tokens), rounds, j)
        invariant rounds != [] && rounds[0] == Round([], false) ==> i == 0
      {
        if current < COST {
          return Some(false), i;
        }
        RoundStep(budget, old(tokens), rounds, i, Withdraw);
        Interfere(rounds[i].others);
        var observed := CompareExchangeWeak(current, current - COST, rounds[i].spurious);
        if observed.None? {
          return Some(true), i;
        }
        current := observed.value;
        i := i + 1;
      }
      assert rounds[..|rounds|] == rounds;
      return None, i;
    }
  }
}

/** All threads together: every interleaving of loads and compare-exchanges on one bucket. */
module RetryBudgetProtocol {
  import opened Common
  import opened RetryBudget

  type ThreadId = nat

  /** Where a call is.  `from` is the length of the order of effects when it began; a finished
      call, or a withdrawal that has seen too few tokens, has its place `at` in that order. */
  datatype Call =
    | Begun(op: Op, from: nat)
    | Looked(op: Op, from: nat, current: int)
    | Denied(from: nat, at: nat)
    | Finished(op: Op, granted: bool, from: nat, at: nat)

  datatype Effect = Effect(thread: ThreadId, op: Op, granted: bool)

  /** The word, the calls, and the ghost order in which operations take effect. */
  datatype World = World(tokens: int, calls: map<ThreadId, Call>, effects: seq<Effect>)

  datatype Action =
    | Begin(t: ThreadId, op: Op)
    | Load(t: ThreadId)
    | Exchange(t: ThreadId, spurious: bool)

  function Start(b: Budget): World { World(b.maxTokens, map[], []) }

  /** The thread sees the word: a withdrawal that sees less than the cost is as good as denied. */
  function Look(w: World, t: ThreadId, op: Op, from: nat): World {
    if op == Withdraw && w.tokens < COST then
      w.(calls := w.calls[t := Denied(from, |w.effects|)], effects := w.effects + [Effect(t, op, false)])
    else
      w.(calls := w.calls[t := Looked(op, from, w.tokens)])
  }

  function Desired(b: Budget, op: Op, current: int): int {
    if op == Op.Deposit then Min(current + b.deposit, b.maxTokens) else current - COST
  }

  function Next(b: Budget, w: World, a: Action): World {
    match a
    case Begin(t, op) =>
      if t in w.calls then w else w.(calls := w.calls[t := Begun(op, |w.effects|)])
    case Load(t) =>
      if t !in w.calls || !w.calls[t].Begun? then w else Look(w, t, w.calls[t].op, w.calls[t].from)
    case Exchange(t, spurious) =>
      if t !in w.calls then w
      else
        match w.calls[t]
        case Denied(from, at) => w.(calls := w.calls[t := Finished(Withdraw, false, from, at)])
        case Looked(op, from, current) =>
          if w.tokens == current && !spurious then
            World(Desired(b, op, current),
              w.calls[t := Finished(op, true, from, |w.effects|)],
              w.effects + [Effect(t, op, true)])
          else Look(w, t, op, from)
        case _ => w
  }

  function After(b: Budget, acts: seq<Action>): World {
    if acts == [] then Start(b) else Next(b, After(b, acts[..|acts| - 1]), acts[|acts| - 1])
  }

  /** A thread that is left alone finishes its call with the atomic bucket's answer: a withdrawal is
      granted exactly when it sees a whole token, and then takes it; a deposit adds its share. */
  lemma UndisturbedCall(b: Budget, w: World, t: ThreadId, op: Op)
    requires t !in w.calls
    ensures var w' := Next(b, Next(b, Next(b, w, Begin(t, op)), Load(t)), Exchange(t, false));
      var granted := op == Op.Deposit || w.tokens >= 1000;
      w'.calls.Keys == w.calls.Keys + {t} && w'.calls[t].Finished? && w'.calls[t].op == op &&
      w'.calls[t].granted == granted &&
      w'.tokens ==
        if op == Op.Deposit then Min(w.tokens + b.deposit, b.maxTokens)
        else w.tokens - if granted then 1000 else 0
  {}

  /** An exchange changes the word exactly when it does not fail without cause and the word is what
      the thread last saw. */
  lemma ExchangeCommitsExactlyWhen(b: Budget, w: World, t: ThreadId, spurious: bool)
    requires t in w.calls && w.calls[t].Looked?
    ensures var c, w' := w.calls[t], Next(b, w, Exchange(t, spurious));
      (w'.calls[t].Finished? <==> !spurious && w.tokens == c.current) &&
      w'.tokens ==
        if !w'.calls[t].Finished? then w.tokens
        else if c.op == Op.Deposit then Min(w.tokens + b.deposit, b.maxTokens)
        else w.tokens - 1000
  {}

  // --- Refinement of the atomic bucket -------------------------------------------------------------

  /** The bucket after the effects in order. */
  function Replay(b: Budget, effects: seq<Effect>): int {
    if effects == [] then b.maxTokens
    else Apply(b, Replay(b, effects[..|effects| - 1]), effects[|effects| - 1].op)
  }

  /** Every effect has the answer the atomic bucket gives at its place in the order. */
  ghost predicate Lawful(b: Budget, effects: seq<Effect>) {
    forall i :: 0 <= i < |effects| ==> effects[i].granted == Granted(Replay(b, effects[..i]), effects[i].op)
  }

  ghost predicate InOrder(b: Budget, w: World, t: ThreadId)
    requires t in w.calls
  {
    match w.calls[t]
    case Begun(_, from) => from <= |w.effects|
    case Looked(op, from, current) => from <= |w.effects| && (op == Withdraw ==> current >= COST)
    case Denied(from, at) => from <= at < |w.effects| && w.effects[at] == Effect(t, Withdraw, false)
    case Finished(op, granted, from, at) => from <= at < |w.effects| && w.effects[at] == Effect(t, op, granted)
  }

  /** The calls whose effect has not happened yet. */
  predicate Pending(c: Call) { c.Begun? || c.Looked? }

  /** Every effect belongs to a call that is settled, and no call has two. */
  ghost predicate EffectsOwned(w: World) {
    (forall i :: 0 <= i < |w.effects| ==> w.effects[i].thread in w.calls && !Pending(w.calls[w.effects[i].thread])) &&
    (forall i, j :: 0 <= i < j < |w.effects| ==> w.effects[i].thread != w.effects[j].thread)
  }

  ghost predicate Inv(b: Budget, w: World) {
    0 <= w.tokens <= b.maxTokens &&
    w.tokens == Replay(b, w.effects) && Lawful(b, w.effects) &&
    (forall t :: t in w.calls ==> InOrder(b, w, t)) && EffectsOwned(w)
  }

  lemma {:induction false} LawfulSnoc(b: Budget, effects: seq<Effect>, e: Effect)
    requires Lawful(b, effects) && e.granted == Granted(Replay(b, effects), e.op)
    ensures Lawful(b, effects + [e]) && Replay(b, effects + [e]) == Apply(b, Replay(b, effects), e.op)
  {
    hide Apply;
    var n, all := |effects|, effects + [e];
    assert all[..n] == effects;
    forall i | 0 <= i < n + 1 ensures all[i].granted == Granted(Replay(b, all[..i]), all[i].op) {
      if i < n {
        assert all[..i] == effects[..i] && all[i] == effects[i];
      }
    }
  }

  /** A call's one effect is added at the end of the order. */
  ghost predicate Adds(w: World, w': World, t: ThreadId, e: Effect) {
    t in w.calls && Pending(w.calls[t]) && e.thread == t && w'.effects == w.effects + [e] &&
    (w'.calls == w.calls[t := Finished(e.op, e.granted, w.calls[t].from, |w.effects|)] ||
     (e.op == Withdraw && !e.granted && w'.calls == w.calls[t := Denied(w.calls[t].from, |w.effects|)]))
  }

  lemma {:induction false} EffectInOrder(b: Budget, w: World, w': World, t: ThreadId, e: Effect)
    requires Adds(w, w', t, e) && forall u :: u in w.calls ==> InOrder(b, w, u)
    ensures forall u :: u in w'.calls ==> InOrder(b, w', u)
  {
    assert InOrder(b, w, t);
    forall u | u in w'.calls ensures InOrder(b, w', u) {
      if u != t {
        assert InOrder(b, w, u);
      }
    }
  }

  lemma {:induction false} EffectOnce(w: World, w': World, t: ThreadId, e: Effect)
    requires Adds(w, w', t, e) && EffectsOwned(w)
    ensures EffectsOwned(w')
  {
    forall i | 0 <= i < |w'.effects|
      ensures w'.effects[i].thread in w'.calls && !Pending(w'.calls[w'.effects[i].thread])
    {
      if i < |w.effects| {
        assert w'.effects[i] == w.effects[i];
      }
    }
  }

  /** One more effect at the end of the order. */
  lemma {:induction false} EffectKeepsInv(b: Budget, w: World, w': World, t: ThreadId, op: Op)
    requires b.Sane() && Inv(b, w) && t in w.calls && Pending(w.calls[t]) && w.calls[t].op == op
    requires w'.tokens == Apply(b, w.tokens, op) && Adds(w, w', t, Effect(t, op, Granted(w.tokens, op)))
    ensures Inv(b, w')
  {
    var e := Effect(t, op, Granted(w.tokens, op));
    LawfulSnoc(b, w.effects, e);
    EffectInOrder(b, w, w', t, e);
    EffectOnce(w, w', t, e);
    hide Lawful, Replay, Adds, InOrder, EffectsOwned;
  }

  lemma {:induction false} LookKeepsInv(b: Budget, w: World, t: ThreadId)
    requires b.Sane() && Inv(b, w) && t in w.calls && Pending(w.calls[t])
    ensures Inv(b, Look(w, t, w.calls[t].op, w.calls[t].from))
  {
    assert InOrder(b, w, t);
    var op, w' := w.calls[t].op, Look(w, t, w.calls[t].op, w.calls[t].from);
    if op == Withdraw && w.tokens < COST {
      EffectKeepsInv(b, w, w', t, op);
    } else {
      forall u | u in w'.calls ensures InOrder(b, w', u) {
        if u != t {
          assert InOrder(b, w, u);
        }
      }
    }
  }

  /** Moving one thread without an effect. */
  lemma {:induction false} MoveKeepsInv(b: Budget, w: World, w': World, t: ThreadId, c: Call)
    requires Inv(b, w) && w' == w.(calls := w.calls[t := c]) && InOrder(b, w', t)
    requires if t in w.calls then Pending(w.calls[t]) == Pending(c) else Pending(c)
    ensures Inv(b, w')
  {
    forall u | u in w'.calls ensures InOrder(b, w', u) {
      if u != t {
        assert InOrder(b, w, u);
      }
    }
  }

  lemma {:induction false} ExchangeKeepsInv(b: Budget, w: World, t: ThreadId, spurious: bool)
    requires b.Sane() && Inv(b, w) && t in w.calls
    ensures Inv(b, Next(b, w, Exchange(t, spurious)))
  {
    var w' := Next(b, w, Exchange(t, spurious));
    assert InOrder(b, w, t);
    match w.calls[t]
    case Denied(from, at) => MoveKeepsInv(b, w, w', t, Finished(Withdraw, false, from, at));
    case Looked(op, from, current) =>
      if w.tokens == current && !spurious {
        EffectKeepsInv(b, w, w', t, op);
      } else {
        LookKeepsInv(b, w, t);
      }
    case _ =>
  }

  lemma {:induction false} NextKeepsInv(b: Budget, w: World, a: Action)
    requires b.Sane() && Inv(b, w)
    ensures Inv(b, Next(b, w, a))
  {
    match a
    case Begin(t, op) =>
      if t !in w.calls {
        MoveKeepsInv(b, w, Next(b, w, a), t, Begun(op, |w.effects|));
      }
    case Load(t) =>
      if t in w.calls && w.calls[t].Begun? {
        LookKeepsInv(b, w, t);
      }
    case Exchange(t, spurious) =>
      if t in w.calls {
        ExchangeKeepsInv(b, w, t, spurious);
      }
  }

  lemma {:induction false} AfterInv(b: Budget, acts: seq<Action>)
    requires b.Sane()
    ensures Inv(b, After(b, acts))
  {
    if acts != [] {
      AfterInv(b, acts[..|acts| - 1]);
      NextKeepsInv(b, After(b, acts[..|acts| - 1]), acts[|acts| - 1]);
    }
  }

  /** The compare-exchange machine refines the atomic bucket: after any interleaving the word
      is what the effects, applied one by one, leave in an atomic bucket; each effect's answer is
      the atomic one; and every finished call has exactly one effect, with the answer it
      returned, placed after it began. */
  lemma {:induction false} RefinesAtomicBucket(b: Budget, acts: seq<Action>)
    requires b.Sane()
    ensures var w := After(b, acts);
      0 <= w.tokens <= b.maxTokens && w.tokens == Replay(b, w.effects) && Lawful(b, w.effects) &&
      (forall t :: t in w.calls && w.calls[t].Finished? ==>
        var c := w.calls[t];
        c.from <= c.at < |w.effects| && w.effects[c.at] == Effect(t, c.op, c.granted) &&
        forall i :: 0 <= i < |w.effects| && w.effects[i].thread == t ==> i == c.at)
  {
    AfterInv(b, acts);
    var w := After(b, acts);
    forall t | t in w.calls && w.calls[t].Finished?
      ensures var c := w.calls[t];
        c.from <= c.at < |w.effects| && w.effects[c.at] == Effect(t, c.op, c.granted) &&
        forall i :: 0 <= i < |w.effects| && w.effects[i].thread == t ==> i == c.at
    {
      assert InOrder(b, w, t);
    }
  }

  // --- The bound on retries -----------------------------------------------------------------------

  function Grants(effects: seq<Effect>): nat {
    if effects == [] then 0
    else
      var e := effects[|effects| - 1];
      Grants(effects[..|effects| - 1]) + (if e.op == Withdraw && e.granted then 1 else 0)
  }

  function Deposits(effects: seq<Effect>): nat {
    if effects == [] then 0
    else
      var e := effects[|effects| - 1];
      Deposits(effects[..|effects| - 1]) + (if e.op == Op.Deposit then 1 else 0)
  }

  /** The deposits begun in a list of actions. */
  function CallsBegun(b: Budget, acts: seq<Action>): nat {
    if acts == [] then 0
    else
      var rest, a := acts[..|acts| - 1], acts[|acts| - 1];
      CallsBegun(b, rest) + (if a.Begin? && a.op == Op.Deposit && a.t !in After(b, rest).calls then 1 else 0)
  }

  predicate IsPendingDeposit(c: Call) { Pending(c) && c.op == Op.Deposit }

  function PendingDeposits(w: World): set<ThreadId> {
    set t | t in w.calls && IsPendingDeposit(w.calls[t])
  }

  lemma {:induction false} LawfulRest(b: Budget, effects: seq<Effect>)
    requires effects != [] && Lawful(b, effects)
    ensures var rest, last := effects[..|effects| - 1], effects[|effects| - 1];
      Lawful(b, rest) && last.granted == Granted(Replay(b, rest), last.op)
  {
    var n, rest := |effects| - 1, effects[..|effects| - 1];
    forall k | 0 <= k < n ensures rest[k].granted == Granted(Replay(b, rest[..k]), rest[k].op) {
      assert rest[k] == effects[k] && rest[..k] == effects[..k];
    }
    assert effects[n].granted == Granted(Replay(b, effects[..n]), effects[n].op);
  }

  /** Tokens held, plus what was granted, less what was put in. */
  function Potential(b: Budget, effects: seq<Effect>): int {
    Replay(b, effects) + COST * Grants(effects) - b.deposit * Deposits(effects)
  }

  lemma {:induction false} PotentialStep(b: Budget, rest: seq<Effect>, last: Effect)
    requires b.Sane() && last.granted == Granted(Replay(b, rest), last.op)
    ensures Potential(b, rest + [last]) <= Potential(b, rest)
  {
    assert (rest + [last])[..|rest|] == rest;
    assert b.deposit * (Deposits(rest) + 1) == b.deposit * Deposits(rest) + b.deposit;
  }

  /** The potential never grows: what the bucket holds is bounded by what was put in less what
      was granted. */
  lemma {:induction false} TokensAccounted(b: Budget, effects: seq<Effect>, i: nat)
    requires b.Sane() && Lawful(b, effects) && i <= |effects|
    ensures Potential(b, effects) <= Potential(b, effects[..i])
  {
    if i == |effects| {
      assert effects[..i] == effects;
    } else {
      var rest, last := effects[..|effects| - 1], effects[|effects| - 1];
      assert rest[..i] == effects[..i];
      assert rest + [last] == effects;
      LawfulRest(b, effects);
      PotentialStep(b, rest, last);
      TokensAccounted(b, rest, i);
    }
  }

  function DepositBalance(w: World): int { Deposits(w.effects) + |PendingDeposits(w)| }

  lemma {:induction false} PendingChange(w: World, w': World, t: ThreadId, c: Call)
    requires w'.calls == w.calls[t := c]
    ensures |PendingDeposits(w')| == |PendingDeposits(w)| + (if IsPendingDeposit(c) then 1 else 0)
      - (if t in w.calls && IsPendingDeposit(w.calls[t]) then 1 else 0)
  {
    if IsPendingDeposit(c) {
      assert PendingDeposits(w') == PendingDeposits(w) + {t};
    } else {
      assert PendingDeposits(w') == PendingDeposits(w) - {t};
    }
  }

  lemma {:induction false} DepositsSnoc(effects: seq<Effect>, e: Effect)
    ensures Deposits(effects + [e]) == Deposits(effects) + (if e.op == Op.Deposit then 1 else 0)
  {
    assert (effects + [e])[..|effects|] == effects;
  }

  lemma {:induction false} LookBalances(w: World, t: ThreadId)
    requires t in w.calls && Pending(w.calls[t])
    ensures DepositBalance(Look(w, t, w.calls[t].op, w.calls[t].from)) == DepositBalance(w)
  {
    var op, w' := w.calls[t].op, Look(w, t, w.calls[t].op, w.calls[t].from);
    PendingChange(w, w', t, w'.calls[t]);
    if op == Withdraw {
      DepositsSnoc(w.effects, Effect(t, op, false));
    }
  }

  lemma {:induction false} ExchangeBalances(b: Budget, w: World, t: ThreadId, spurious: bool)
    requires t in w.calls
    ensures DepositBalance(Next(b, w, Exchange(t, spurious))) == DepositBalance(w)
  {
    var w' := Next(b, w, Exchange(t, spurious));
    match w.calls[t]
    case Denied(_, _) => PendingChange(w, w', t, w'.calls[t]);
    case Looked(op, _, current) =>
      if w.tokens == current && !spurious {
        PendingChange(w, w', t, w'.calls[t]);
        DepositsSnoc(w.effects, Effect(t, op, true));
      } else {
        LookBalances(w, t);
      }
    case _ =>
  }

  lemma {:induction false} PendingStep(b: Budget, w: World, a: Action)
    ensures DepositBalance(Next(b, w, a)) ==
      DepositBalance(w) + (if a.Begin? && a.op == Op.Deposit && a.t !in w.calls then 1 else 0)
  {
    match a
    case Begin(t, op) =>
      if t !in w.calls {
        PendingChange(w, Next(b, w, a), t, Begun(op, |w.effects|));
      }
    case Load(t) =>
      if t in w.calls && w.calls[t].Begun? {
        LookBalances(w, t);
      }
    case Exchange(t, spurious) =>
      if t in w.calls {
        ExchangeBalances(b, w, t, spurious);
      }
  }

  /** Every deposit begun has either taken effect or is still pending. */
  lemma {:induction false} DepositsAccounted(b: Budget, acts: seq<Action>)
    requires b.Sane()
    ensures DepositBalance(After(b, acts)) == CallsBegun(b, acts)
  {
    if acts == [] {
      assert PendingDeposits(Start(b)) == {};
    } else {
      var rest, a := acts[..|acts| - 1], acts[|acts| - 1];
      DepositsAccounted(b, rest);
      PendingStep(b, After(b, rest), a);
    }
  }

  lemma {:induction false} EffectsGrow(b: Budget, acts: seq<Action>, p: nat)
    requires p <= |acts|
    ensures After(b, acts[..p]).effects <= After(b, acts).effects
  {
    if p == |acts| {
      assert acts[..p] == acts;
    } else {
      assert acts[..|acts| - 1][..p] == acts[..p];
      EffectsGrow(b, acts[..|acts| - 1], p);
    }
  }

  lemma {:induction false} Rearranged(most: int, deposit: int, r: int, r0: int, g: int, g0: int, d: int, d0: int)
    requires 0 <= r && r0 <= most && r + COST * g - deposit * d <= r0 + COST * g0 - deposit * d0
    ensures COST * (g - g0) <= most + deposit * (d - d0)
  {
    assert deposit * (d - d0) == deposit * d - deposit * d0;
  }

  lemma {:induction false} StretchBounded(b: Budget, before: World, after: World)
    requires b.Sane() && Lawful(b, after.effects) && before.effects <= after.effects
    requires before.tokens == Replay(b, before.effects) <= b.maxTokens
    requires after.tokens == Replay(b, after.effects) >= 0
    ensures COST * (Grants(after.effects) - Grants(before.effects)) <=
      b.maxTokens + b.deposit * (Deposits(after.effects) - Deposits(before.effects))
  {
    var i := |before.effects|;
    assert after.effects[..i] == before.effects;
    TokensAccounted(b, after.effects, i);
    Rearranged(b.maxTokens, b.deposit, after.tokens, before.tokens,
      Grants(after.effects), Grants(before.effects), Deposits(after.effects), Deposits(before.effects));
  }

  lemma ScaledBound(d: int, x: int, y: int)
    requires 0 <= d && x <= y
    ensures d * x <= d * y
  {}

  /** Over any contiguous stretch of any interleaving, the retries granted to all policies
      sharing the budget cost at most the full bucket plus the deposits of the calls begun in
      the stretch or still depositing when it started. */
  lemma {:induction false} RetriesBounded(b: Budget, acts: seq<Action>, p: nat)
    requires b.Sane() && p <= |acts|
    ensures var before, after := After(b, acts[..p]), After(b, acts);
      COST * (Grants(after.effects) - Grants(before.effects)) <=
        b.maxTokens + b.deposit * (CallsBegun(b, acts) - CallsBegun(b, acts[..p]) + |PendingDeposits(before)|)
  {
    var before, after := After(b, acts[..p]), After(b, acts);
    assert COST * (Grants(after.effects) - Grants(before.effects)) <=
      b.maxTokens + b.deposit * (Deposits(after.effects) - Deposits(before.effects)) by {
      AfterInv(b, acts);
      AfterInv(b, acts[..p]);
      EffectsGrow(b, acts, p);
      StretchBounded(b, before, after);
    }
    DepositsAccounted(b, acts);
    DepositsAccounted(b, acts[..p]);
    ScaledBound(b.deposit, Deposits(after.effects) - Deposits(before.effects),
      CallsBegun(b, acts) - CallsBegun(b, acts[..p]) + |PendingDeposits(before)|);
  }

  /** From a fresh budget: 1000 times the retries granted is at most the burst plus the deposit
      of every call begun. */
  lemma {:induction false} RetriesBoundedFromStart(b: Budget, acts: seq<Action>)
    requires b.Sane()
    ensures COST * Grants(After(b, acts).effects) <= b.maxTokens + b.deposit * CallsBegun(b, acts)
  {
    RetriesBounded(b, acts, 0);
    assert acts[..0] == [];
    assert PendingDeposits(Start(b)) == {};
  }
}
