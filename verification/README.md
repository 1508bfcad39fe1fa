# Verification of the execution-policy reliability core

A Dafny model of the crate's reliability state machines and proofs about them: the circuit
breaker and its sliding window, the async semaphore, the shared retry budget, the retry loop and
the pipeline around it, backoff and jitter, the random stream, and the multi-target router.

`dafny verify dfyconfig.toml` checks everything.

## How the model is laid out

Each component has an object with the source's fields, whose methods change them as the source
does, and a set of functions on values that say what each operation does. The methods are proved
equal to the functions; the lemmas are about the functions, and so about every run of the
methods.

| files | what they hold |
|---|---|
| `SlidingWindow`, `Breaker` | the window and the breaker: objects, operations, histories |
| `BreakerHistory` | the breaker against its vote history and the exact event log |
| `BreakerEpisodes` | many calls sharing one breaker: half-open episodes in every interleaving |
| `BreakerConcurrency` | the unlocked load and the locked section as separate steps: linearizability |
| `AsyncSemaphore` | the semaphore, and every interleaving of tasks on it |
| `RetryBudget` | the compare-exchange loops, and every interleaving of threads on one bucket |
| `Backoff` | raw delay, jitter, the retry-after floor |
| `Engine`, `EngineTheorems`, `EngineCalls`, `EngineSilence` | `drive`: recursive specification, loop, what every run keeps, what its calls and trace are in terms of the oracle alone, and when a run ends in silence |
| `Pipeline`, `PipelineTheorems` | the pipeline around `drive`, composed with the breaker |
| `SharedBudget` | many calls of the pipeline and the threads of one retry budget, in one world |
| `SplitMix` | the mixer and the stream, in 64-bit words |
| `Sampling`, `Router`, `RouterTheorems`, `Fairness` | the draw, choosing, failing over, and how evenly load spreads |

What the environment decides is a parameter: operation outcomes and durations, permits that come
free, random words, lateness of timers, other threads' and other calls' steps. Instants and
durations are natural numbers of nanoseconds; the clock of a run moves only while something is
awaited. `u64` words of the random generator are 64-bit vectors; saturating and truncating
arithmetic of the delays is written out.

## Where the code and its documentation differ

The model follows the code.

- `src/retry/backoff.rs:8` documents `base * 2^(attempt-1)` clamped to the maximum. The factor is
  narrowed to 32 bits, so this fails from attempt 33 on for small bases; `ClosedFormExactlyWhen`
  gives the exact condition and `ClosedFormFails` an input.
- `src/retry/jitter.rs:8` documents full jitter in `[0, base]`; the upper end is drawn exactly when
  it is zero (`FullReachesBaseExactlyWhen`).
- `src/retry/mod.rs:124` says a hinted delay is still capped by the maximum backoff; that holds
  exactly when the hint is itself within the maximum (`CappedExactlyWhen`), and `CapFails` gives an
  input.
- `src/router.rs:46` says `AllUnavailable` means nothing was attempted. It is the result exactly when
  every healthy member fails without an operation error, so it means that exactly when no member is
  healthy (`UnavailableExactlyWhen`); `UnavailableAfterAttempt` gives an input.

## What the code does not promise

Each of these is false of the code; the lemmas give an input and say exactly when it does hold.

- A half-open breaker always resolves: `WedgeIsReachable`, `WedgedExactlyWhen`.
- `half_open_max_calls` bounds the probes that run at once. Stale successes let more probes of one
  episode run (`MoreProbesThanTheLimit`, `OutstandingProbes`), and probes of earlier episodes keep
  running beside them without any bound (`ProbesUnbounded`); `RunningProbes` is the exact count, and
  `LimitBrokenExactlyWhen` says which step breaks the limit.
- Every admitted call that runs to completion votes: `LimitedCallCanAbandon`,
  `BudgetedCallCanAbandon`, `SomeCallAbandonsExactlyWhen`.
- A closed breaker's window is below its ratio: a vote can lift it (`ClosedBeyondRatio`), and so can
  the clock alone (`ClosedBeyondRatioByClock`); `ClosedBeyondRatioExactlyWhen` covers every instant.
- Every call announces its end: the retry loop can end asleep (`SilentRun`, `SilentExactlyWhen`,
  `SilencedExactlyWhen`) and the breaker rejects without an event (`RejectedCallIsSilent`);
  `CallSilentExactlyWhen` and `CallSilencedExactlyWhen` cover the whole pipeline.
- No wake-up is lost: `CancelledWaiterLosesWakeup`, `SpuriousPollLosesWakeup`, `StrandsExactlyWhen`.

## Model

| member | source | states |
|---|---|---|
| SlidingWindow.Window.Record | src/breaker.rs:341-355 | evicts, then counts into a young last bucket or pushes a new one; nothing else changes |
| SlidingWindow.Window.Totals | src/breaker.rs:357-370 | evicts and returns the sums over what is left |
| SlidingWindow.Window.Clear | src/breaker.rs:337-339 | empties the buckets |
| SlidingWindow.TotalsSandwich | src/breaker.rs:326-370 | for nondecreasing times, totals and failures each lie between the exact log's counts over the span less a tenth of it (at least a millisecond) and over the span |
| SlidingWindow.AtMostElevenBuckets | src/breaker.rs:327-335 | buckets stay sorted at least a width apart and never exceed the reserved capacity of 11 |
| SlidingWindow.TotalsAfterRecord | src/breaker.rs:277-297 | whatever the clock does, the totals a trip check reads include the vote just recorded, so the ratio never divides by zero |
| SlidingWindow.OpensBucketExactlyWhen | src/breaker.rs:341-355 | a vote opens a bucket of its own if and only if no bucket is left or the last one is a tenth of the span old, at least a millisecond; otherwise it is counted in the last |
| SlidingWindow.EvictedExactlyWhen | src/breaker.rs:357-370 | a bucket is evicted if and only if it starts more than the span before now |
| SlidingWindow.MonotoneTracks | src/breaker.rs:341-369 | every history: the buckets partition the log without a prefix of old votes |
| Breaker.BreakerRuntime.constructor | src/breaker.rs:140-158 | a fresh breaker is closed, with a window of the configured span in ratio mode and of one second otherwise |
| Breaker.BreakerRuntime.Gate | src/breaker.rs:215-243 | the answer and the new state for each phase, as the atomic step has them |
| Breaker.BreakerRuntime.RecordSuccess | src/breaker.rs:246-264 | new state and reported transition of a success in each phase |
| Breaker.BreakerRuntime.RecordFailure | src/breaker.rs:267-286 | new state and reported transition of a failure in each phase |
| Breaker.BreakerRuntime.Trips | src/breaker.rs:288-300 | the trip decision on counters or windowed totals |
| Breaker.BreakerRuntime.DoOpen | src/breaker.rs:302-307 | opens until `now + open_for` and resets the half-open counters |
| Breaker.BreakerRuntime.DoClose | src/breaker.rs:309-315 | closes, clearing counters and window |
| Breaker.BreakerRuntime.StateNow | src/breaker.rs:187-199 | the polled phase as a function of the clock |
| Breaker.BreakerRuntime.Cooling | src/breaker.rs:204-211 | the deadline exactly while it lies ahead |
| BreakerHistory.RunCoherent | src/breaker.rs:302-315 | every reachable state: counters are zero outside half-open, within the limit inside it, and Open has a deadline |
| BreakerHistory.PollAgreesWithGate | src/breaker.rs:187-243 | in every reachable state an admission sees the polled phase, rejection means cooling or a full half-open breaker, and the reported deadline is where polling stops reading Open |
| BreakerHistory.CounterIsFailureRun | src/breaker.rs:259-276 | while closed, the counter is the trailing failure run since the last close, and below the threshold |
| BreakerHistory.OpensExactlyAtThreshold | src/breaker.rs:275-290 | a closed breaker opens on exactly the vote that completes the threshold in a row |
| BreakerHistory.TransitionReported | src/breaker.rs:246-286 | a vote reports a transition exactly when it closes the breaker, opens it, or as a late failure moves the deadline of an open one |
| BreakerHistory.LateVote | src/breaker.rs:258-286 | in consecutive mode a late failure re-opens an open breaker for the full cooldown if and only if it completes the threshold |
| BreakerHistory.ClosesExactlyAfterProbes | src/breaker.rs:246-274 | a half-open breaker closes on exactly the vote that completes half_open_max_calls successes, forgetting everything, and reopens for the full cooldown on a failure |
| BreakerHistory.WindowReplays | src/breaker.rs:245-316 | the breaker's window is the replay of its votes outside half-open, cleared at each close |
| BreakerHistory.RatioTripAgainstLog | src/breaker.rs:291-298 | in ratio mode a trip, and a failure to trip, are borne out by the exact log over the configured window, up to a tenth of it or a millisecond |
| BreakerHistory.ClosedBeyondRatioExactlyWhen | src/breaker.rs:258-300 | at any instant from a vote on, a breaker found closed has a window that reaches throughput and ratio if and only if the vote did not trip and what is left by then of the buckets it found, with the vote while its bucket is left, reaches them |
| BreakerHistory.ClosedBeyondRatio | src/breaker.rs:258-262 | an input on which a success does it |
| BreakerHistory.ClosedBeyondRatioByClock | src/breaker.rs:357-369 | an input on which the clock alone does it, by eviction |
| BreakerHistory.CanReject | src/breaker.rs:219-242 | every sane configuration has a history after which the gate rejects at every instant |
| BreakerHistory.DeadlineNeverDecreases | src/breaker.rs:302-307 | under a monotone clock the cooldown deadline never moves back |
| BreakerHistory.NoAdmissionWhileCooling | src/breaker.rs:215-316 | no call is admitted between an opening at p and p + open_for, whatever votes arrive; at the deadline the gate admits |
| BreakerEpisodes.HalfOpenNeverWedges | src/breaker.rs:233-264 | in every interleaving of voting calls the half-open counter is at most the probes really running, so a rejection means a full set of outstanding probes |
| BreakerEpisodes.WedgedExactlyWhen | src/breaker.rs:233-264 | when calls may end unvoted, half-open rejects for ever exactly when its counter is full and no call is left running |
| BreakerEpisodes.WedgeIsReachable | src/engine.rs:113-113 | one dropped probe reaches that state |
| BreakerEpisodes.EpisodeAdmissionsBounded | src/breaker.rs:215-264 | one half-open episode admits at most 2M - 1 calls, stale votes and vanished probes included |
| BreakerEpisodes.EpisodeBoundAttained | src/breaker.rs:215-264 | the bound is reached, for every M |
| BreakerEpisodes.OutstandingProbes | src/breaker.rs:233-264 | the running probes of the current episode exceed the counter by exactly the stale successes of the episode, less its probes that vanished and the successes that found the counter at zero; never more than 2M - 1 of them run at once |
| BreakerEpisodes.RunningProbes | src/breaker.rs:219-274 | all running probes exceed the counter by that much and the probes of earlier episodes still running; they are within the limit if and only if those and the stale successes fit the room the counter leaves |
| BreakerEpisodes.LimitBrokenExactlyWhen | src/breaker.rs:215-274 | in any phase, a step takes the running probes over the limit if and only if it is an arrival the gate admits as a probe while as many as the limit run |
| BreakerEpisodes.ProbesUnbounded | src/breaker.rs:219-274 | under every limit, for every n, some run leaves exactly n probes running at once |
| BreakerEpisodes.MoreProbesThanTheLimit | src/breaker.rs:233-264 | a run with three probes under a limit of two |
| BreakerConcurrency.ReadsAreLinearizable | src/breaker.rs:187-243 | with load and locked section as separate steps, the breaker is the atomic one after one order of operations, and every gate and poll takes effect at its own place in that order inside its call: its answer is the atomic one there, and it owns that operation alone or changes nothing |
| BreakerConcurrency.ProbesOwnTheirAdmissions | src/breaker.rs:219-243 | two gates that admitted probes own two different operations: no update is lost |
| BreakerConcurrency.NextKeepsInv | src/breaker.rs:187-243 | the invariant behind it, kept by every step of every thread |
| BreakerConcurrency.UndisturbedQuery | src/breaker.rs:187-243 | a thread left alone finishes its query with the atomic breaker's answer and step |
| BreakerConcurrency.LockFreeExactlyWhen | src/breaker.rs:187-221 | a gate that finds the breaker closed and a poll that does not find it open return without the lock; every other query takes it |
| AsyncSemaphore.Semaphore.TryAcquire | src/concurrency.rs:151-161 | takes a permit exactly when one is free |
| AsyncSemaphore.Semaphore.Poll | src/concurrency.rs:199-210 | takes a free permit, or appends the poller's waker |
| AsyncSemaphore.Semaphore.Release | src/concurrency.rs:170-177 | returns the permit and wakes the first queued waker |
| SemaphoreProtocol.TryAcquireExactlyWhen | src/concurrency.rs:151-161 | a newcomer takes a permit if and only if one is free, queued tasks or not, and otherwise changes nothing |
| SemaphoreProtocol.PollExactlyWhen | src/concurrency.rs:199-210 | a poll takes a permit if and only if one is free, and otherwise queues the task last |
| SemaphoreProtocol.ReleaseWakesFirst | src/concurrency.rs:170-177 | a release frees one permit and wakes the task that has queued longest, and nobody else |
| SemaphoreProtocol.QueuedCountsSleepers | src/concurrency.rs:146-148 | the queue length is never less than the number of sleeping tasks, and equals it exactly when the queue lists the sleepers, each once |
| SemaphoreProtocol.PermitsConserved | src/concurrency.rs:151-211 | free plus held permits is the configured number after every step, cancellations and spurious polls included |
| SemaphoreProtocol.NoLostWakeup | src/concurrency.rs:170-211 | with no waiter dropped or polled unwoken, while a task sleeps the free permits are at most the woken tasks on their way, barging included |
| SemaphoreProtocol.LostWakeupsAreWasted | src/concurrency.rs:170-211 | for all behaviours the guarantee is off by at most the wake-ups that went astray |
| SemaphoreProtocol.CancelledWaiterLosesWakeup | src/engine.rs:146-163 | a cancelled waiter can leave a live one asleep beside a free permit |
| SemaphoreProtocol.SpuriousPollLosesWakeup | src/concurrency.rs:207-209 | so can a waiter polled before it was woken |
| SemaphoreProtocol.StrandsExactlyWhen | src/concurrency.rs:151-211 | from any reachable state, some continuation without cancellations and spurious polls strands a task beside a free permit if and only if one is stranded already or the queue is not exactly the sleepers, each once |
| RetryBudget.NewBudget | src/retry/budget.rs:27-37 | the bucket holds the burst, at least one retry; the deposit is the ratio in thousandths, rounded down, and nothing or a whole retry outside [0, 1] |
| RetryBudget.Bucket.CompareExchangeWeak | src/retry/budget.rs:50-56 | stores exactly when the word is as expected and no spurious failure strikes |
| RetryBudget.Bucket.Deposit | src/retry/budget.rs:45-58 | under interference the loop commits exactly one atomic deposit, in the first round in which the exchange does not fail without cause and the word is as last seen |
| RetryBudget.Bucket.TryWithdraw | src/retry/budget.rs:61-78 | under interference the loop makes one atomic withdrawal, or none when it saw too few tokens, in the first round that settles it |
| RetryBudget.DepositsAddUp | src/retry/budget.rs:45-58 | n deposits add exactly n shares, up to the maximum |
| RetryBudget.RetryAfterDeposits | src/retry/budget.rs:45-78 | after n deposits into an empty bucket a retry is granted if and only if they reach a whole token |
| RetryBudget.WithdrawalsAddUp | src/retry/budget.rs:61-78 | withdrawals take whole tokens while there are any; the next is granted if and only if the bucket held one token more |
| RetryBudget.BurstGranted | src/retry/budget.rs:27-78 | a full bucket grants exactly the burst of retries in a row |
| RetryBudgetProtocol.RefinesAtomicBucket | src/retry/budget.rs:45-78 | every interleaving of loads and compare-exchanges is an order of atomic operations with the answers returned, tokens within 0 and the maximum |
| RetryBudgetProtocol.NextKeepsInv | src/retry/budget.rs:45-78 | the refinement invariant, kept by every step |
| RetryBudgetProtocol.UndisturbedCall | src/retry/budget.rs:45-78 | a thread left alone finishes with the atomic answer: a deposit always, a withdrawal if and only if it sees a whole token |
| RetryBudgetProtocol.ExchangeCommitsExactlyWhen | src/retry/budget.rs:48-57 | an exchange changes the word if and only if it does not fail without cause and the word is as last seen |
| RetryBudgetProtocol.RetriesBounded | src/retry/budget.rs:45-78 | over any contiguous stretch of any interleaving, 1000 times the retries granted is at most a full bucket plus the stretch's deposits |
| RetryBudgetProtocol.RetriesBoundedFromStart | src/retry/budget.rs:45-78 | the same from a fresh budget, by calls started |
| Backoff.RawDelayIsMin | src/retry/backoff.rs:21-33 | the saturating arithmetic is exact arithmetic with a saturated factor |
| Backoff.ClosedFormExactlyWhen | src/retry/backoff.rs:8-33 | the documented closed form holds if and only if attempt <= 32, or the base is zero, or the saturated product reaches the maximum |
| Backoff.ClosedFormFails | src/retry/backoff.rs:8-33 | an input on which the documented form fails |
| Backoff.RawDelayMonotone | src/retry/backoff.rs:21-33 | the delay never shrinks with the attempt and never exceeds the maximum |
| Backoff.JitterRanges | src/retry/jitter.rs:16-37 | full jitter in [0, n), equal jitter in [n/2, n), no 128-bit overflow |
| Backoff.JitterShortens | src/retry/jitter.rs:16-37 | for every base, those beyond 64 bits included, jitter never lengthens a delay |
| Backoff.FullReachesBaseExactlyWhen | src/retry/jitter.rs:8-31 | full jitter draws the base itself if and only if it is zero |
| Backoff.JitterIsScaledDraw | src/retry/jitter.rs:16-37 | for every base and word: the delay is the base cut to 64 bits, scaled by the word's top 53 bits and rounded down, on top of half of it for equal jitter; the low 11 bits do not matter |
| Backoff.JitterUniform | src/retry/jitter.rs:22-37 | full jitter hits every value below the base, and equal jitter every value of the upper half, with the floor or the ceiling of its even share of the 2^53 draws, and no other value |
| Backoff.DelayBounds | src/retry/mod.rs:156-170 | the delay is the jittered backoff or the hint, at least the hint, and within the schedule when the hint is |
| Backoff.FixedDelay | src/retry/backoff.rs:21-33 | a fixed schedule without jitter waits its delay, or the hint if that is longer, after every attempt |
| Backoff.CappedExactlyWhen | src/retry/mod.rs:121-170 | the delay stays within the maximum backoff if and only if there is no hint or the hint is within it |
| Backoff.CapFails | src/retry/mod.rs:121-170 | an input on which the documented cap fails |
| Backoff.TotalDelayBounded | src/retry/mod.rs:156-170 | without hints the delays of n + 1 attempts sum to at most n times the maximum |
| Engine.Drive | src/engine.rs:174-406 | the loop's outcome, events, calls, withdrawals and clock are those of the recursive specification, for every oracle |
| Engine.RunAttempt | src/engine.rs:230-325 | one attempt: the race against both timers and the classification of what came of it |
| Engine.Between | src/engine.rs:327-403 | the elapsed-time guard, the budget, the backoff, the hint check and the sleep |
| EngineTheorems.TraceOfRun | src/engine.rs:193-406 | attempts are numbered without gaps up to the cap; the run succeeds exactly when its trace ends in `Succeeded`, its only one, after exactly one scheduled retry for every earlier attempt, in order |
| EngineTheorems.RunExplained | src/engine.rs:254-403 | a retry happens only if classifier, attempt cap, elapsed-time cap and budget all allow it; the first call that is denied one decides the outcome; otherwise the deadline or a refused permit does |
| EngineTheorems.DriveInTime | src/engine.rs:230-252 | with exact timers nothing happens after the total deadline and no attempt outlasts its own |
| EngineTheorems.BackoffHonoured | src/engine.rs:356-403 | however late timers are, an attempt starts at least the full delay, and the latest error's hint, after the one before ended |
| EngineTheorems.RunAccounted | src/engine.rs:185-403 | every attempt after the first was paid for by a withdrawal; a run without calls was refused a permit; an error's context reports attempts, elapsed time and breaker view |
| EngineTheorems.AbandonsExactlyWhen | src/engine.rs:201-403 | a plan has surroundings in which a run ends in no counted outcome if and only if it has an attempts-scope limit, or a retry budget, two attempts and an attainable retry |
| EngineTheorems.RefusedExactlyWhen | src/engine.rs:124-168 | a permit is refused if and only if none is free and the policy rejects, the queue is full, or a timer fires before one comes |
| EngineCalls.RunTold | src/engine.rs:174-406 | a second description of the run, by arithmetic on the oracle: its calls and when they start and end, its end, its trace event by event, its withdrawals and its last delay |
| EngineCalls.CallsRunTheirCourse | src/engine.rs:193-266 | call i ends with what its own operation returned if and only if that is ready by the time either timer has fired and been noticed, otherwise with the timer that fired first; it starts with its permit; its turn comes a full delay after the call before |
| EngineCalls.ExactCourse | src/engine.rs:230-252 | with exact timers an attempt ends the moment its operation is ready, its own time is up or the deadline comes; the operation wins ties, then its own timer |
| EngineCalls.ResultIsTheOperations | src/engine.rs:266-325 | a success returns what the operation returned to the last attempt; an operation's error is that of the last attempt that returned one |
| EngineCalls.LatestErrorIs | src/engine.rs:313-318 | the latest error is that of the last call whose operation returned one, timeouts and retried values in between |
| EngineCalls.SelectDecides | src/engine.rs:230-252 | the race: which of the operation and the two timers wins, and when, by arithmetic |
| EngineSilence.SilentExactlyWhen | src/engine.rs:384-403 | a run of the retry loop announces its end exactly once, and not at all if and only if its last call may be retried but the sleep before that reaches the total deadline |
| EngineSilence.SilentRun | src/engine.rs:397-403 | an input on which the retry loop ends in silence |
| EngineSilence.SilencedExactlyWhen | src/engine.rs:356-403 | a plan has surroundings in which the retry loop ends in silence if and only if it has a total timeout and an attainable retry, with a hint that fits it, whose sleep can reach it |
| Pipeline.RunPipeline | src/engine.rs:47-121 | permit, gate, attempts and vote in order, with the breaker's history extended by exactly this call's gate and vote among the others' |
| Pipeline.AskGate | src/engine.rs:73-92 | the gate's answer becomes the view, or a refusal |
| Pipeline.CastVote | src/engine.rs:97-118 | the vote for each outcome, and the transition it reports |
| Pipeline.RunGuarded | src/engine.rs:73-121 | an admitted call's attempts, vote and announced transitions |
| Pipeline.RunGate | src/engine.rs:73-121 | the pipeline from the gate on, rejection included |
| PipelineTheorems.OneVotePerCall | src/engine.rs:97-118 | a call votes at most once, exactly when it ran its operation and ended in a counted outcome, with the right sign; under a plan that cannot abandon, exactly when it ran at all |
| PipelineTheorems.TurnedAwayExactlyWhen | src/engine.rs:57-74 | a call is refused before its gate, with one `ConcurrencyRejected` event, zero attempts and no gate or vote, if and only if its plan limits operations, none is free, and the policy rejects, the queue is full or a timer fires first |
| PipelineTheorems.CourseTold | src/engine.rs:47-121 | past its permit a call is rejected by the gate without an event, or its attempts begin at once and its calls, trace, state-change events, error context, deposit and withdrawals are those the oracle and the breaker determine |
| PipelineTheorems.WithinTotalTimeout | src/engine.rs:57-93 | with exact timers every call ends within the total timeout of its start, waits for permits included, and its error says so |
| PipelineTheorems.CompletedCallsNeverWedge | src/engine.rs:94-118 | under such plans, in every interleaving of calls run to completion, a half-open rejection means a full set of outstanding probes |
| PipelineTheorems.SomeCallAbandonsExactlyWhen | src/engine.rs:94-118 | an admitted call run to completion can end without a vote if and only if its plan has an attempts-scope limit, or a retry budget and an attainable retry |
| PipelineTheorems.LimitedCallCanAbandon | src/engine.rs:201-222 | an admitted call runs no operation if and only if its first permit is refused, for whatever reason, and then casts no vote |
| PipelineTheorems.BudgetedCallCanAbandon | src/engine.rs:344-354 | a first retry denied by the budget ends the call without a vote after one invocation |
| PipelineTheorems.CallSilentExactlyWhen | src/engine.rs:47-121 | a call announces its end exactly once, and not at all if and only if the breaker rejects it or its retry loop ends asleep |
| PipelineTheorems.RejectedCallIsSilent | src/engine.rs:85-89 | every breaker can reject a call, which then emits nothing and runs nothing |
| PipelineTheorems.CallSilencedExactlyWhen | src/engine.rs:47-121 | some call under a policy announces no end if and only if the policy has a breaker or a plan that can end asleep |
| SharedBudget.PaidSoFar | src/engine.rs:344-406 | at every point of a budgeted run every retry so far was granted by the budget before it started |
| SharedBudget.InvokesExactlyWhen | src/engine.rs:344-406 | a call invokes its operation again if and only if its course does and its withdrawal has been answered, or its deposit made |
| SharedBudget.StartGoesThrough | src/engine.rs:185-189 | a starting call left alone makes its deposit |
| SharedBudget.RetryGoesThrough | src/engine.rs:344-354 | a call left alone after an attempt pays one token if the bucket holds one, hears the answer and can go on |
| SharedBudget.AfterInv | src/engine.rs:185-189 | every interleaving of call steps and bucket steps: one deposit per started call, and exactly as many granted withdrawals spent as the calls were told |
| SharedBudget.SharedBudgetBoundsRetries | src/engine.rs:344-354 | at every moment of every such interleaving, 1000 times all retries so far of all calls sharing one budget is at most the burst plus the deposit for every call started |
| SplitMix.MixIsBijective | src/core/rng.rs:14-17 | the mixer is a permutation of the 64-bit words, with an explicit inverse |
| SplitMix.OutputsDistinct | src/core/rng.rs:11-18 | the first 2^64 outputs of a seed are pairwise different |
| SplitMix.SeedsDiffer | src/core/rng.rs:7-18 | two seeds agree on any one output only if they are the same |
| SplitMix.MixStepByStep | src/core/rng.rs:14-17 | the output written out: each xor, shift and multiplication in its place |
| SplitMix.KnownOutputs | src/core/rng.rs:11-18 | the first outputs of known seeds |
| SplitMix.SplitMix64.NextU64 | src/core/rng.rs:11-18 | one call advances the state once and returns the next output |
| SplitMix.TokioCore.NextU64 | src/core/tokio.rs:38-43 | the atomic core's k-th fetch returns the k-th output of the sequential stream |
| Sampling.SampleDistinct | src/router.rs:240-248 | the in-place swaps yield the draw its choices determine |
| Sampling.SampleIsDistinct | src/router.rs:240-248 | a draw is the first entries of a permutation: distinct indices in range |
| Sampling.ChoicesFor | src/router.rs:240-248 | every ordered tuple of distinct indices is drawn by some choices |
| Sampling.ChoicesRoundTrip | src/router.rs:240-248 | and by only those: choices and tuples correspond one to one |
| Sampling.EveryTupleDrawn | src/router.rs:240-248 | every ordered tuple of distinct indices is drawn by some random words |
| Sampling.DrawnIs | src/router.rs:240-248 | step i draws the index its place holds by then: the place's own, unless an earlier step chose it |
| Sampling.StepUniform | src/router.rs:243-243 | each step's places have the same share of the 2^64 words, to within one |
| Router.BestAt | src/router.rs:291-312 | the running best is the leader of the positions looked at, or the first score that is not finite |
| Router.LeaderIsArgmin | src/router.rs:291-312 | there is a leader exactly when all scores are finite, and it comes strictly before all others by score and index; else the first bad score is reported |
| Router.RouterPolicy.Choose | src/router.rs:258-313 | the choice among the healthy members' current counters, sampled or not |
| Router.RouterPolicy.HealthyMembers | src/router.rs:318-331 | the members not polled Open, and the soonest cooldown of the rest |
| Router.RouterPolicy.TakeGuard | src/router.rs:221-236 | one more call in flight on one member |
| Router.RouterPolicy.DropGuard | src/router.rs:232-236 | one call fewer in flight on that member |
| Router.RouterPolicy.RecordAttempt | src/router.rs:337-352 | one more pick counted, nothing else |
| Router.RouterPolicy.Attempt | src/router.rs:419-426 | one attempt leaves the in-flight count as it was and the pick count one up |
| Router.RouterPolicy.Run | src/router.rs:401-441 | the run's result, members tried and counters are those of the recursive specification |
| RouterTheorems.PickLeavesWorse | src/router.rs:286-312 | a pick over k sampled candidates leaves at least k - 1 strictly worse, whatever the random words |
| RouterTheorems.NeverTheUniqueWorst | src/router.rs:286-312 | a sample of two or more never picks the unique worst |
| RouterTheorems.P2cAvoidsTheBusiest | src/pick.rs:119-122 | power of two choices never picks the one member busier than all others |
| RouterTheorems.SampleDecides | src/router.rs:286-312 | any k candidates can be the ones sampled, and the best of those is chosen |
| RouterTheorems.P2cComparesAnyTwo | src/pick.rs:119-122 | power of two choices can compare any two candidates, and takes the less busy one, at a tie the one inserted first |
| RouterTheorems.PresetsChoose | src/pick.rs:99-112 | `first_healthy`, `round_robin` and `least_in_flight` choose the least by their measure, and of several such the one inserted first |
| RouterTheorems.WeightedChooses | src/pick.rs:114-117 | `weighted_least_in_flight` chooses a member that one more call would load the least for its weight, and of several such the one inserted first |
| RouterTheorems.RunKeepsBooks | src/router.rs:401-441 | under any strategy and outcomes each member is tried at most once, each try is counted once, in-flight counts are restored, and `attempts` is the number tried |
| RouterTheorems.RunChooses | src/router.rs:412-441 | under any strategy, attempt k goes to the member chosen with the k-th random words among the healthy members not yet tried, in order, each with its counters by then |
| RouterTheorems.RunConcludes | src/router.rs:359-441 | under any strategy a run stops at the first decisive outcome, or at a healthy member whose score is not finite, or tries every healthy member and ends with the last operation error, without one in `AllUnavailable` |
| RouterTheorems.LastErrorIs | src/router.rs:380-388 | the error kept is that of the last member whose operation returned one |
| RouterTheorems.OrderSorts | src/router.rs:258-313 | repeated choosing sorts the members strictly by score and index |
| RouterTheorems.FailoverIsSelectionSort | src/router.rs:359-441 | an isolated run tries the healthy members in sorted order up to the first decisive outcome, which is its result, else ends with the last operation error or none |
| RouterTheorems.OrderedFailover | src/pick.rs:99-102 | under `first_healthy` that order is the order of registration |
| RouterTheorems.UnavailableExactlyWhen | src/router.rs:401-441 | under any strategy, sampled or not, a run that ends in `AllUnavailable` has tried every healthy member and each failed without an operation error; with finite scores that is exactly when it ends so |
| RouterTheorems.UnavailableAfterAttempt | src/router.rs:435-440 | an input on which a member is attempted first |
| RouterTheorems.ParkHintExact | src/router.rs:405-410 | with no healthy member, all read Open and reject until the hint, and at the hint some member reads HalfOpen and admits |
| RouterTheorems.HintIsSoonest | src/router.rs:318-331 | whatever the other members are and whenever each is read, the hint is the soonest end of a cooldown among all members found cooling, none if there is none |
| RouterTheorems.ReportedHint | src/router.rs:435-440 | that is the hint an `AllUnavailable` run reports, healthy members present or not |
| RouterTheorems.ScanFindsHealthy | src/router.rs:318-331 | a member is healthy exactly when it has no breaker or is not polled Open |
| Fairness.RoundRobinFair | src/pick.rs:104-107 | pick counts stay within one of each other after every single attempt of any sequence of runs, failovers included |
| Fairness.RoundRobinShares | src/pick.rs:104-107 | from a fresh router every member is tried its even share of all attempts, rounded down or up |
| Fairness.AllHealthy | src/router.rs:318-331 | when no member is polled Open a run starts from all of them |
| Fairness.WeightedShares | src/pick.rs:114-117 | after k overlapping calls in-flight counts are proportional to the weights to within one call, and each member holds at least its share rounded down |
| Fairness.EqualWeightsBalance | src/pick.rs:114-117 | with equal weights the counts differ by at most one |
| Fairness.LeastInFlightBalances | src/pick.rs:109-112 | `least_in_flight` keeps the counts of overlapping calls within one of each other, from any loads that were |

## Left out

- Floating point: the failure ratio is a fraction compared by multiplying out, scores and weights
  are reals or not finite, and signed zero and rounding are not modelled.
- Counter widths: `u32`, `i64`, `u64` and `usize` counters, and `Instant` arithmetic, are unbounded;
  wrap-around of a counter is not modelled. Durations in the delay arithmetic have their real range.
- Stores inside a locked section are seen together: a reader without the lock is taken to see the
  phase before or after the whole section, not between its store and the rest of it.
- The boxed and owned twins of the engine and the router differ only in closure and future types
  and are modelled once. Futures, pinning, wakers as objects, tokio timers: abstract steps.
- Termination of the compare-exchange loops: the methods take a finite list of rounds and may run
  out of it; that an unbounded loop ends needs fairness of the scheduler.
- Tasks of the semaphore hold at most one permit each and have one `Acquire` at a time; a bound of
  the queue by `max_queued` is not claimed, since woken waiters queue again without the check.
- Interference within one router run: other runs do not change the counters while it is under way.
  `RunKeepsBooks`, the selection sort and the fairness results are about runs one after another,
  `WeightedShares` about calls that overlap without completing.
- Members shared between pools: each router owns its counters.
- The latency meter and `peak_ewma`, the stall watchdog, the manual clock, builders, classifiers
  (taken as arbitrary functions), event plumbing, and Debug and Display.
- The correlation of successive random draws: results about sampling and jitter count words, or
  hold for all words; nothing is said about the distribution of a stream beyond `OutputsDistinct`.
- Sampling.StepUniform: states the share of each step's choice, not of whole tuples, which follows
  only for independent words.
- SemaphoreProtocol.NoLostWakeup: assumes that no waiter is dropped or polled unwoken; without that
  it is false, and `StrandsExactlyWhen` says exactly when.
- Fairness.WeightedShares: real arithmetic, without the rounding of the source's scores.
