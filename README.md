# async-retry in Dafny

A model of the Rust crate `async-retry`. It rests on two pieces.

- **Backoff strategies** (`src/backoff.rs`): `FixedDelay`, `ExponentialBackoff`, `FibonacciBackoff`, the `Jitter` decorator, and the standard `take(n)` adapter that the tests and documentation stack on top of them. Each one is a Dafny class whose fields change in place. A call of `Next` is tied to a pure step function over an abstract state `BackoffSpec.Gen`. The closed forms, limits and saturation behaviour are proved about that step function.
- **The retry loop** (`src/lib.rs`): the builder (`new`, `with_condition`, `with_max_duration`) and the loop inside both `into_future` bodies.
  - The loop is the method `Retrying.Execute`. It is proved against a specification function, `Retrying.Session`, which describes a whole run from the answers the strategy gave.
  - The lemmas in `RetryProofs` derive from `Session` what the crate promises: the order of the stopping checks, the error that is returned, how many invocations, `next()` calls and sleeps a run makes, and the timeline of the sleeps.

`Duration` is a whole number of nanoseconds up to `Duration::MAX`, which is (2^64 − 1) seconds plus 999 999 999 nanoseconds. Rust's `saturating_mul` and `saturating_add` clamp at that bound. The async machinery is stripped away, and everything the loop cannot see becomes a parameter:
- the operation is a function from the invocation number to its `Result` and to how long it takes;
- the timer is a `Sleeper`: the j-th sleep lasts the requested delay plus an arbitrary overshoot;
- jitter's random draw is a nondeterministic choice within its range.

Modules, in dependency order:

| module | file | content |
|---|---|---|
| `Wrappers` | `wrappers.dfy` | `Option`, `Result` |
| `Durations` | `durations.dfy` | the `Duration` type and its saturating and millisecond operations |
| `BackoffSpec` | `backoff_spec.dfy` | the abstract strategy state `Gen`, one step of it (`Nominal`, `Advance`), capacity, `Fits`/`Admits` |
| `BackoffProofs` | `backoff_proofs.dfy` | closed forms, limits, saturation, jitter, the unit-test sequences |
| `Backoff` | `backoff.dfy` | the strategy classes and the `Strategy` interface |
| `BackoffTests` | `backoff_tests.dfy` | the unit tests of `src/backoff.rs`, run against the objects |
| `Retrying` | `retry.dfy` | the builder, the loop's specification `Session`, the loop method `Execute` |
| `RetryProofs` | `retry_proofs.dfy` | properties of the loop |
| `RetryTests` | `retry_tests.dfy` | the integration tests, run through `Execute` |

### Where the source, its tests and its documentation disagree

- **The source does not compile as written.** The model follows the evident intent:
  - the second loop declares `attempt` (`src/lib.rs:493`) but increments `_attempt` (`src/lib.rs:496`);
  - `AlwaysRetry` is used (`src/lib.rs:225`, `src/lib.rs:384`) but never defined;
  - the two `IntoFuture` impls overlap.

  The intent is one loop that takes a condition. `Condition` is either `AlwaysRetry`, for which no check is made (the default body, `src/lib.rs:437`), or `When(f)`. `RetryProofs.AlwaysRetryAcceptsAll` proves the default body equal to the general one with a constant-true condition.
- **`take(3)` makes four invocations, not three.** `tests/integration_test.rs:92` expects 3 invocations for `FixedDelay::new(10ms).take(3)`, and the comment in `examples/conditional_retry.rs:33` says the same about `with_max_retries(3)`. The loop asks the strategy after every retryable failure, so n delays give n + 1 invocations. The model follows the code:
  - `RetryProofs.TakeThreeMakesFourAttempts` and `RetryTests.FailureOnMaxRetries` state four invocations;
  - `RetryProofs.ExhaustsAfter` states the general n + 1.

## Model

| member | source | states |
|---|---|---|
| Durations.Saturate | src/backoff.rs:111-112 | the clamped value is at most the exact one, equals it or `MAX`, and is `MAX` exactly when the exact value reaches `MAX` |
| Durations.SaturatingMul | src/backoff.rs:112 | `saturating_mul`: the exact product when it fits in a `Duration`, `MAX` otherwise |
| Durations.SaturatingAdd | src/backoff.rs:180 | `saturating_add`: the exact sum when it fits, `MAX` otherwise |
| Durations.Min | src/backoff.rs:106-108 | `min` is a lower bound of both arguments and equal to one of them |
| Durations.AsMillis | src/backoff.rs:220 | `as_millis` is the whole number of milliseconds: `ms` ms ≤ d < `ms`+1 ms |
| Durations.FromMillis | src/backoff.rs:221 | `from_millis(ms)` is `ms` × 10^6 ns, a whole number of milliseconds |
| Durations.TruncateToU64 | src/backoff.rs:220-221 | the `as u64` cast is below 2^64, never larger than its argument, and the identity on values that fit |
| Durations.SaturatedDouble | src/backoff.rs:112 | doubling a saturated value saturates the exact double: repeated saturating doubling never loses track of the exact power |
| Durations.SaturatedSum | src/backoff.rs:180 | the saturating sum of saturated values is the saturated exact sum |
| Durations.SaturateMonotone | src/backoff.rs:112 | saturation preserves order |
| BackoffSpec.NewExponential | src/backoff.rs:64-72 | a fresh exponential strategy first yields `base`, is unbounded, and has no jitter |
| BackoffSpec.NewFibonacci | src/backoff.rs:136-144 | a fresh Fibonacci strategy first yields `base`, is unbounded, and has no jitter |
| BackoffSpec.WithMaxDelay | src/backoff.rs:76-79 | on either counting strategy the capacity and exhaustion are unchanged and the next value is at most the cap (also src/backoff.rs:147-150) |
| BackoffSpec.WithMaxRetries | src/backoff.rs:84-87 | on a fresh counting strategy the capacity becomes exactly `m`, exhausted at once iff `m` is 0 (also src/backoff.rs:153-156) |
| BackoffSpec.Nominal | src/backoff.rs:93-115 | definition: the value `next()` returns in a state without jitter, and an upper bound on it with jitter (limit check first, then the cap), for every strategy kind and `take(n)` (the Fibonacci case is src/backoff.rs:164-177, the same shape); it has no contract of its own, and each class's `Next` is proved to return a value that `Fits` it: equal to it when the chain has no jitter, the same exhaustion and at most it when it does |
| BackoffSpec.Advance | src/backoff.rs:93-115 | definition: the state after `next()` (unchanged at the limit, otherwise attempt + 1 and the saturating update, for Fibonacci the shift of src/backoff.rs:180-182); each class's `Next` is proved to move to it, and `BackoffProofs.CapacityStep` proves it uses one unit of capacity |
| BackoffSpec.Cap | src/backoff.rs:105-108 | the emitted delay is at most the uncapped value and at most `max_delay`, equal to one of them, and unchanged when no cap is set |
| BackoffSpec.JitterPick | src/backoff.rs:219-221 | the drawn jitter is always a whole number of milliseconds |
| Backoff.NextOf | src/backoff.rs:17-20 | `next()` on any strategy gives an answer the strategy's abstract state allows, and moves that state one step on |
| Backoff.FixedDelay.constructor | src/backoff.rs:33-35 | `FixedDelay::new(d)` holds `d` |
| Backoff.FixedDelay.Next | src/backoff.rs:41-43 | always `Some(duration)`; the state is a fixed point of the step |
| Backoff.ExponentialBackoff.constructor | src/backoff.rs:64-72 | `new(base)`: current = base = `base`, no cap, no limit, attempt 0 |
| Backoff.ExponentialBackoff.WithMaxDelay | src/backoff.rs:76-79 | sets the cap and leaves every other field as it was |
| Backoff.ExponentialBackoff.WithMaxRetries | src/backoff.rs:84-87 | sets the limit and leaves every other field as it was |
| Backoff.ExponentialBackoff.Next | src/backoff.rs:93-115 | at the limit: `None` and no field changes; otherwise the capped old `current` is returned, `attempt` rises by one and `current` doubles (saturating), uncapped |
| Backoff.FibonacciBackoff.constructor | src/backoff.rs:136-144 | `new(base)`: both slots hold `base`, no cap, no limit, attempt 0 |
| Backoff.FibonacciBackoff.WithMaxDelay | src/backoff.rs:147-150 | sets the cap only |
| Backoff.FibonacciBackoff.WithMaxRetries | src/backoff.rs:153-156 | sets the limit only |
| Backoff.FibonacciBackoff.Next | src/backoff.rs:162-185 | at the limit: `None` and no field changes; otherwise the capped old `current` is returned, `attempt` rises by one, and (current, next) becomes (next, current + next) saturating |
| Backoff.Jitter.constructor | src/backoff.rs:206-208 | wraps the inner strategy and adds no state |
| Backoff.Jitter.Next | src/backoff.rs:215-223 | `None` exactly when the inner strategy answers `None`; otherwise a whole number of milliseconds no greater than the inner delay; the inner strategy moves one step |
| Backoff.Take.constructor | src/backoff.rs:234 | `inner.take(n)` holds the inner strategy and the count `n` |
| Backoff.Take.Next | src/backoff.rs:234-238 | at count 0: `None` without asking the inner strategy; otherwise the count drops by one and the inner answer is passed on |
| BackoffProofs.CapacityStep | src/backoff.rs:95-100 | a strategy answers `None` exactly when its remaining capacity is zero, and each call uses one unit of capacity |
| BackoffProofs.ExhaustedForever | src/backoff.rs:95-99 | once a strategy answers `None`, it answers `None` forever |
| BackoffProofs.FixedTake | src/backoff.rs:233-238 | `FixedDelay::new(d).take(n)` yields exactly n copies of `d`, then `None` |
| BackoffProofs.FixedForever | src/backoff.rs:41-43 | a fixed delay never changes state, always yields `d`, and is unbounded |
| BackoffProofs.FixedTakeOutputs | src/backoff.rs:233-238 | any number of calls of `FixedDelay::new(d).take(n)`: call j yields `d` when j < n and `None` after |
| BackoffProofs.ExponentialState | src/backoff.rs:103-112 | after k calls within the limit, `current` is base × 2^k saturated, whatever the cap: the cap never feeds back into the progression |
| BackoffProofs.ExponentialClosedForm | src/backoff.rs:103-112 | the k-th call within the limit returns min(base × 2^(k−1), MAX) and then the cap; the capped value is the uncapped one with the cap applied |
| BackoffProofs.ExponentialExhausted | src/backoff.rs:95-100 | with `with_max_retries(m)`, every call from the (m+1)-th on returns `None` and the state stays what it was after m calls |
| BackoffProofs.ExponentialAttemptBounded | src/backoff.rs:95-100 | `attempt ≤ m` after any number of calls |
| BackoffProofs.ExponentialNondecreasing | src/backoff.rs:103-112 | the emitted exponential delays never decrease |
| BackoffProofs.ExponentialSaturationSticky | src/backoff.rs:111-112 | once base × 2^j saturates at `MAX`, every later value is `MAX` |
| BackoffProofs.FibonacciState | src/backoff.rs:172-183 | after k calls within the limit, (current, next) = (base × fib(k+1), base × fib(k+2)), each saturated |
| BackoffProofs.FibonacciClosedForm | src/backoff.rs:172-183 | the k-th call within the limit returns min(base × fib(k), MAX) and then the cap, with fib(1) = fib(2) = 1 |
| BackoffProofs.FibonacciExhausted | src/backoff.rs:164-169 | with `with_max_retries(m)`, every call from the (m+1)-th on returns `None` and the state is frozen |
| BackoffProofs.FibonacciAttemptBounded | src/backoff.rs:164-169 | `attempt ≤ m` after any number of calls |
| BackoffProofs.FibonacciNondecreasing | src/backoff.rs:172-183 | the emitted Fibonacci delays never decrease |
| BackoffProofs.FibonacciSaturationSticky | src/backoff.rs:179-182 | once base × fib(j) saturates, every later value is saturated |
| BackoffProofs.JitterRange | src/backoff.rs:216-221 | no draw exceeds the inner delay; a pick below 2^64 comes out as exactly that many ms (a larger one, possible only for inner delays of at least 2^64 ms, is first cut to its low 64 bits by the `as u64` cast) |
| BackoffProofs.JitterFixedTake | src/backoff.rs:293-302 | every answer sequence `Jitter::new(FixedDelay::new(d)).take(n)` may give has n delays, each at most `d`, then `None` |
| BackoffProofs.ExponentialTakeFour | src/backoff.rs:242-249 | `ExponentialBackoff::new(100ms).take(4)` yields 100, 200, 400, 800 ms, then `None` |
| BackoffProofs.ExponentialCappedTakeFour | src/backoff.rs:252-261 | with `with_max_delay(300ms)`: 100, 200, 300, 300 ms, then `None` |
| BackoffProofs.ExponentialMaxRetriesTwo | src/backoff.rs:264-269 | with `with_max_retries(2)`: 100, 200 ms, then `None` |
| BackoffProofs.FibonacciTakeSix | src/backoff.rs:272-281 | `FibonacciBackoff::new(1s).take(6)` yields 1, 1, 2, 3, 5, 8 s, then `None` |
| BackoffProofs.FibonacciMaxRetriesThree | src/backoff.rs:284-290 | with `with_max_retries(3)`: 1, 1, 2 s, then `None` |
| BackoffTests.FixedDelayTakeThree | src/backoff.rs:233-238 | the objects built as in the test answer 1 s three times, then `None` |
| BackoffTests.ExponentialTakeFour | src/backoff.rs:242-249 | the objects answer 100, 200, 400, 800 ms, then `None` |
| BackoffTests.ExponentialCappedTakeFour | src/backoff.rs:252-261 | the objects answer 100, 200, 300, 300 ms, then `None` |
| BackoffTests.ExponentialMaxRetriesTwo | src/backoff.rs:264-269 | the object answers 100, 200 ms, then `None` |
| BackoffTests.FibonacciTakeSix | src/backoff.rs:272-281 | the objects answer 1, 1, 2, 3, 5, 8 s, then `None` |
| BackoffTests.FibonacciMaxRetriesThree | src/backoff.rs:284-290 | the object answers 1, 1, 2 s, then `None` |
| BackoffTests.JitterTakeTen | src/backoff.rs:293-302 | ten answers, each present and at most 1 s, then `None` |
| Retrying.New | src/lib.rs:267-274 | `Retry::new` keeps the strategy and operation, retries every error, and has no budget |
| Retrying.WithCondition | src/lib.rs:324-335 | replaces the condition and keeps strategy, operation and budget |
| Retrying.WithMaxDuration | src/lib.rs:377-380 | sets the budget and keeps everything else |
| Retrying.Allows | src/lib.rs:526 | definition: the condition check; `AlwaysRetry` lets every error through (the default body has no check, src/lib.rs:437) |
| Retrying.Overruns | src/lib.rs:539 | definition: the corrected pre-sleep check, `elapsed + delay > budget` compared exactly; properties in `RetryProofs.ContinueTimeline` and `RetryProofs.SleepEndingAtBudgetIsTaken` |
| Retrying.Continue | src/lib.rs:495-564 | definition of the loop from invocation i on, checks in source order; its properties are the `RetryProofs.Continue*` lemmas |
| Retrying.Session | src/lib.rs:489-566 | definition: the whole run, from time 0 with no sleeps; `Retrying.Execute` is proved equal to it |
| Retrying.OverrunsAsWritten | src/lib.rs:539 | the pre-sleep check as written: it panics (`None`) exactly when `elapsed + delay` passes `Duration::MAX`, and otherwise agrees with the exact comparison |
| Retrying.NextDelay | src/lib.rs:536 | the loop's `next()` call: the answer is one the strategy may give, the strategy moves one step, and a delay uses up one unit of capacity |
| Retrying.Execute | src/lib.rs:489-566 | the loop's result, its own count of invocations and the sleeps it took equal those of `Session` for the answers the strategy gave; those answers are ones the strategy may give; the strategy is left after exactly that many calls, at most its capacity plus one; the pre-sleep check is the exact comparison `Retrying.Overruns`, not the panicking `Duration` sum (see Findings) |
| RetryProofs.ContinueTrace | src/lib.rs:509-561 | every exit returns the outcome of the last invocation verbatim; exactly one sleep per retried invocation, so sleeps = invocations − 1 |
| RetryProofs.ContinueRetried | src/lib.rs:536-552 | every invocation before the last failed with an error the condition let through, the strategy gave a delay for it, and its sleep was asked for exactly that delay |
| RetryProofs.ContinueExit | src/lib.rs:514-561 | which check stopped the loop, each an if-and-only-if in source order (success; budget `>=`; condition; exhausted strategy; delay past budget); `next()` is called once per failed invocation that reached it, so at most once per invocation |
| RetryProofs.ContinueTimeline | src/lib.rs:538-552 | sleeps start no earlier than the clock; each sleep's actual end (start plus requested delay plus that sleep's overshoot) is no later than the next sleep's start and the final check; and with a budget every sleep's requested end (start plus requested delay, without the timer's overshoot) is within it (equality allowed) |
| RetryProofs.AlwaysRetryAcceptsAll | src/lib.rs:437-440 | the default body (no condition check) equals the general body with a condition that accepts every error |
| RetryProofs.SucceedsOnAttempt | src/lib.rs:501-507 | with no budget, every error before invocation k accepted by the condition, and a delay from the strategy for each of those k − 1 failures: first success at invocation k means `Ok` returned after exactly k invocations, k − 1 `next()` calls and k − 1 sleeps |
| RetryProofs.ExhaustsAfter | src/lib.rs:553-560 | always-failing, always-retryable, no budget, a strategy with n delays: n + 1 invocations, n sleeps, the last error |
| RetryProofs.RejectedAtOnce | src/lib.rs:525-530 | a rejected first error ends the run after one invocation, with no `next()` call and no sleep |
| RetryProofs.TakeThreeMakesFourAttempts | tests/integration_test.rs:80-95 | against `FixedDelay::new(d).take(3)`: four invocations, three sleeps, the fourth error |
| RetryProofs.BudgetAllowsOneSleep | tests/integration_test.rs:98-113 | a 75 ms budget, 50 ms delays and instantaneous invocations: exactly two invocations and one sleep, whatever the overshoot |
| RetryProofs.SleepEndingAtBudgetIsTaken | src/lib.rs:538-547 | a sleep ending exactly at the budget is taken (the check is strict `>`) |
| RetryProofs.OverflowingPreSleepCheck | src/lib.rs:539 | a `Duration::MAX` delay after 1 ns makes the written `Duration` sum overflow, while the exact comparison says "stop" |
| RetryProofs.HugeDelayStopsCleanly | src/lib.rs:538-547 | with the exact comparison, that run stops after one invocation without sleeping, returning the error |
| RetryTests.CountingOp | tests/integration_test.rs:21-48 | definition: the tests' `Op` fixture; invocation i (from 0) gives `Ok(i + 1)` exactly when i + 1 equals `succeed_on`, and the fixed error otherwise; it has no contract of its own |
| RetryTests.SuccessOnFirstTry | tests/integration_test.rs:56-65 | `Ok(1)` after one invocation |
| RetryTests.SuccessOnThirdTry | tests/integration_test.rs:68-77 | `Ok(3)` after three invocations and two sleeps |
| RetryTests.FailureOnMaxRetries | tests/integration_test.rs:80-95 | `Err("fail")` after four invocations and three 10 ms sleeps |
| RetryTests.FailureOnMaxDuration | tests/integration_test.rs:98-113 | `Err("fail")` after two invocations, whatever the timer's overshoot |
| RetryTests.FailureOnCondition | tests/integration_test.rs:116-131 | `Err("PERMANENT")` after one invocation, the strategy never asked |

## Left out

- `src/sleep.rs` and the async runtime (`IntoFuture`, boxing, `.await`, cancellation): the loop is a sequential method, and a sleep is a parameter (`Sleeper`) that takes at least the requested delay.
- `Instant::now()` and `elapsed()`: time is counted in nanoseconds from the start of the run. Each invocation's duration is a parameter. The model reads the clock once after each invocation and uses that value for both budget checks, so it does not capture time passing between the two reads.
- The operation and the condition are `FnMut` closures in the source. Here they are pure functions, and the operation is a function of the invocation number, which covers an operation whose state is a call counter (as in the tests).
- `rand::thread_rng().gen_range`: the draw is a nondeterministic choice in `0..=as_millis()`. Nothing is claimed about its distribution.
- `log::` calls behind the `logging` feature, and the `_attempt` counter that exists only for them.
- `Retrying.Execute`: requires the strategy to be bounded (`take(n)` or `with_max_retries` somewhere in the chain) so that the loop ends. The source also runs unbounded strategies, which end only by success, budget or condition; `Session` and the lemmas about it cover those runs.
- `usize` overflow of the `attempt` counters (`src/backoff.rs:100`, `src/backoff.rs:169`) is not modelled: counters are unbounded naturals, and reaching 2^64 calls is out of reach in practice.
- The blanket `impl Backoff for T` over all duration iterators is modelled as the closed set of the five strategies in `Backoff.Strategy`. Other iterators are not modelled.
- `examples/` (HTTP calls, printing) is not part of this model.
- Retrying.Session: uses the exact comparison `Overruns` for the pre-sleep check, not the `Duration` sum of `src/lib.rs:443` and `src/lib.rs:539`, which panics on overflow; the panicking check is modelled separately by `Retrying.OverrunsAsWritten` (see Findings).

## Findings

| source | as written | input that shows it | evidently intended | confidence | as-written member | corrected member |
|---|---|---|---|---|---|---|
| src/lib.rs:539 (also src/lib.rs:443) | `start_time.elapsed() + delay > max_duration` adds two `Duration`s, and that addition panics on overflow | `ExponentialBackoff::new(Duration::MAX)` with `with_max_duration(Duration::MAX)` and an operation that fails after at least 1 ns: the first delay is `Duration::MAX`, and the sum overflows | the delay would pass the budget, so return the error without sleeping | not executed | Retrying.OverrunsAsWritten, RetryProofs.OverflowingPreSleepCheck | Retrying.Overruns, RetryProofs.HugeDelayStopsCleanly |
