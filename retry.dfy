/**
 * The `Retry` builder and its control loop (`src/lib.rs`).
 *
 * The future returned by `into_future` is, once the async machinery is
 * stripped away, one sequential loop: invoke the operation; on success
 * return; on failure check the budget, then the condition, then pull the
 * next delay, then check the budget against that delay, then sleep. The
 * two `into_future` bodies of the source differ only in that the default
 * one has no condition check; here they are one loop whose condition is
 * either `AlwaysRetry` (no check) or `When(f)`.
 *
 * What the loop cannot see is a parameter: the operation is a function of
 * the invocation number (its result and how long it takes), and the timer
 * a sleeper whose j-th sleep of `d` lasts `d` plus some overshoot. Time is
 * counted in nanoseconds from the start of the session.
 */
module Retrying {
  import opened Wrappers
  import opened Durations
  import opened BackoffSpec
  import opened Backoff
  import BackoffProofs

  /** The retried operation: invocation i (from 0) resolves to `outcome(i)` after `duration(i)`. */
  datatype Operation<T, E> = Operation(outcome: nat -> Result<T, E>, duration: nat -> nat)

  /** The retry condition: the default retries every error. */
  datatype Condition<!E> = AlwaysRetry | When(retryable: E -> bool)

  /** The injected timer: the j-th sleep (from 0) of `d` lasts `d + overshoot(j)`. */
  datatype Sleeper = Sleeper(overshoot: nat -> nat)

  /** The builder: strategy, operation, condition, optional total budget. */
  datatype Retry<T, !E> = Retry(strategy: Strategy, operation: Operation<T, E>,
                               condition: Condition<E>, maxDuration: Option<Duration>)

  /** One sleep the session performed: when it began and for how long it was asked. */
  datatype Nap = Nap(start: nat, delay: Duration)

  /** Which stopping check fired. */
  datatype Stop = Succeeded | BudgetSpent | NotRetryable | StrategyExhausted | SleepPastBudget

  /**
   * The whole observable run: the result returned, how many invocations
   * and `next()` calls were made, the sleeps, the elapsed time at the last
   * check, and which check ended the loop.
   */
  datatype Report<T, E> = Report(result: Result<T, E>, attempts: nat, pulls: nat,
                                 naps: seq<Nap>, elapsed: nat, stop: Stop)

  /** `Retry::new`: retry every error, no budget. */
  function New<T, E>(strategy: Strategy, operation: Operation<T, E>): (r: Retry<T, E>)
    ensures r.strategy == strategy && r.operation == operation
    ensures r.condition == AlwaysRetry && r.maxDuration == None
  {
    Retry(strategy, operation, AlwaysRetry, None)
  }

  /** `with_condition`: replaces the condition and keeps everything else. */
  function WithCondition<T, E>(r: Retry<T, E>, f: E -> bool): (r': Retry<T, E>)
    ensures r'.condition == When(f)
    ensures r'.strategy == r.strategy && r'.operation == r.operation && r'.maxDuration == r.maxDuration
  {
    Retry(r.strategy, r.operation, When(f), r.maxDuration)
  }

  /** `with_max_duration`: sets the budget and keeps everything else. */
  function WithMaxDuration<T, E>(r: Retry<T, E>, d: Duration): (r': Retry<T, E>)
    ensures r'.maxDuration == Some(d)
    ensures r'.strategy == r.strategy && r'.operation == r.operation && r'.condition == r.condition
  {
    r.(maxDuration := Some(d))
  }

  /** Whether the condition lets the loop go on after error `e`. */
  predicate Allows<E>(c: Condition<E>, e: E) {
    match c
    case AlwaysRetry => true
    case When(f) => f(e)
  }

  /** The pre-sleep check, compared exactly: sleeping `delay` from `elapsed` would pass the budget. */
  predicate Overruns(elapsed: nat, delay: Duration, budget: Duration) {
    elapsed + delay > budget
  }

  /**
   * The same check as the source writes it, `start_time.elapsed() + delay >
   * max_duration` on `Duration`s: the addition panics (`None` here) when the
   * sum passes `Duration::MAX`.
   */
  function OverrunsAsWritten(elapsed: Duration, delay: Duration, budget: Duration): (r: Option<bool>)
    ensures r.None? <==> elapsed + delay > MAX
    ensures r.Some? ==> r.value == Overruns(elapsed, delay, budget)
  {
    if elapsed + delay > MAX then None else Some(elapsed + delay > budget)
  }

  /**
   * The loop from invocation `i` on, `clock` being the time elapsed before
   * it and `naps` the sleeps so far. `pulls[j]` is what the j-th call of
   * `next()` returned; a call past the end of `pulls` counts as exhausted
   * (the loop method below never gets there: its `pulls` is exactly the
   * calls it made).
   */
  function Continue<T, E>(op: Operation<T, E>, cond: Condition<E>, budget: Option<Duration>,
                          sleeper: Sleeper, pulls: seq<Option<Duration>>,
                          i: nat, clock: nat, naps: seq<Nap>): Report<T, E>
    decreases |pulls| - i
  {
    var now := clock + op.duration(i);
    match op.outcome(i)
    case Ok(v) => Report(Ok(v), i + 1, i, naps, now, Succeeded)
    case Err(e) =>
      if budget.Some? && now >= budget.value then
        Report(Err(e), i + 1, i, naps, now, BudgetSpent)
      else if !Allows(cond, e) then
        Report(Err(e), i + 1, i, naps, now, NotRetryable)
      else if i >= |pulls| || pulls[i].None? then
        Report(Err(e), i + 1, i + 1, naps, now, StrategyExhausted)
      else if budget.Some? && Overruns(now, pulls[i].value, budget.value) then
        Report(Err(e), i + 1, i + 1, naps, now, SleepPastBudget)
      else
        Continue(op, cond, budget, sleeper, pulls, i + 1,
                 now + pulls[i].value + sleeper.overshoot(i), naps + [Nap(now, pulls[i].value)])
  }

  /** The whole session of a `Retry`, given the answers of `next()`. */
  function Session<T, E>(r: Retry<T, E>, sleeper: Sleeper, pulls: seq<Option<Duration>>): Report<T, E> {
    Continue(r.operation, r.condition, r.maxDuration, sleeper, pulls, 0, 0, [])
  }

  /**
   * The run from invocation `calls` on, with `elapsed` and `naps` so far, is
   * what the session is for every continuation `p` of the answers so far.
   */
  ghost predicate Resumes<T, E>(r: Retry<T, E>, sleeper: Sleeper, pulls: seq<Option<Duration>>,
                                calls: nat, elapsed: nat, naps: seq<Nap>) {
    forall p :: pulls <= p ==>
      Session(r, sleeper, p) ==
      Continue(r.operation, r.condition, r.maxDuration, sleeper, p, calls, elapsed, naps)
  }

  /** A retried error moves the resumption point one invocation on, to `calls'`, `elapsed'` and `naps'`. */
  lemma ResumesStep<T, E>(r: Retry<T, E>, sleeper: Sleeper, pulls: seq<Option<Duration>>,
                          calls: nat, elapsed: nat, naps: seq<Nap>, now: nat, next: Option<Duration>,
                          pulls': seq<Option<Duration>>, calls': nat, elapsed': nat, naps': seq<Nap>)
    requires Resumes(r, sleeper, pulls, calls, elapsed, naps)
    requires |pulls| == calls && now == elapsed + r.operation.duration(calls)
    requires r.operation.outcome(calls).Err?
    requires r.maxDuration.Some? ==> now < r.maxDuration.value
    requires Allows(r.condition, r.operation.outcome(calls).error)
    requires next.Some?
    requires r.maxDuration.Some? ==> !Overruns(now, next.value, r.maxDuration.value)
    requires pulls' == pulls + [next] && calls' == calls + 1
    requires elapsed' == now + next.value + sleeper.overshoot(calls) && naps' == naps + [Nap(now, next.value)]
    ensures Resumes(r, sleeper, pulls', calls', elapsed', naps')
  {
    forall p | pulls' <= p
      ensures Session(r, sleeper, p) ==
              Continue(r.operation, r.condition, r.maxDuration, sleeper, p, calls', elapsed', naps')
    {
      assert pulls <= p;
      assert p[calls] == next;
    }
  }

  /** The loop stops before asking the strategy: success, budget spent, or a rejected error. */
  lemma ResumesStopsEarly<T, E>(r: Retry<T, E>, sleeper: Sleeper, pulls: seq<Option<Duration>>,
                                calls: nat, elapsed: nat, naps: seq<Nap>)
    requires Resumes(r, sleeper, pulls, calls, elapsed, naps)
    requires |pulls| == calls
    requires var o := r.operation.outcome(calls);
             o.Ok? ||
             (r.maxDuration.Some? && elapsed + r.operation.duration(calls) >= r.maxDuration.value) ||
             !Allows(r.condition, o.error)
    ensures Session(r, sleeper, pulls).result == r.operation.outcome(calls)
    ensures Session(r, sleeper, pulls).pulls == |pulls|
    ensures Session(r, sleeper, pulls).attempts == calls + 1 && Session(r, sleeper, pulls).naps == naps
  {
    assert pulls <= pulls;
  }

  /** The loop stops right after asking: the strategy is exhausted, or the delay would pass the budget. */
  lemma ResumesStopsAfterPull<T, E>(r: Retry<T, E>, sleeper: Sleeper, pulls: seq<Option<Duration>>,
                                    calls: nat, elapsed: nat, naps: seq<Nap>, next: Option<Duration>)
    requires Resumes(r, sleeper, pulls, calls, elapsed, naps)
    requires |pulls| == calls
    requires r.operation.outcome(calls).Err?
    requires r.maxDuration.Some? ==> elapsed + r.operation.duration(calls) < r.maxDuration.value
    requires Allows(r.condition, r.operation.outcome(calls).error)
    requires next.None? ||
             (r.maxDuration.Some? &&
              Overruns(elapsed + r.operation.duration(calls), next.value, r.maxDuration.value))
    ensures Session(r, sleeper, pulls + [next]).result == r.operation.outcome(calls)
    ensures Session(r, sleeper, pulls + [next]).pulls == |pulls| + 1
    ensures Session(r, sleeper, pulls + [next]).attempts == calls + 1 &&
            Session(r, sleeper, pulls + [next]).naps == naps
  {
    assert pulls <= pulls + [next];
    assert (pulls + [next])[calls] == next;
  }

  /**
   * The strategy has given `pulls` so far from its initial state `g0`:
   * answers it may give, its state after that many calls, and that much of
   * its capacity used up.
   */
  ghost predicate Tracks(s: Strategy, g0: Gen, pulls: seq<Option<Duration>>)
    requires WellFormed(s)
    reads Repr(s)
  {
    Admits(g0, pulls) && Model(s) == Iterate(g0, |pulls|) &&
    Capacity(Model(s)).Some? && Capacity(g0).Some? &&
    |pulls| + Capacity(Model(s)).value == Capacity(g0).value
  }

  /**
   * `self.strategy.next()` inside the loop: a delay uses up one unit of
   * capacity; `None` leaves the strategy exhausted after at most its
   * capacity plus one calls.
   */
  method NextDelay(s: Strategy, ghost g0: Gen, ghost pulls: seq<Option<Duration>>)
    returns (next: Option<Duration>)
    requires WellFormed(s) && Tracks(s, g0, pulls)
    modifies Repr(s)
    ensures WellFormed(s)
    ensures next.Some? ==> Tracks(s, g0, pulls + [next])
    ensures next.Some? ==> Capacity(Model(s)).value < Capacity(old(Model(s))).value
    ensures Admits(g0, pulls + [next]) && Model(s) == Iterate(g0, |pulls| + 1)
    ensures |pulls| + 1 <= Capacity(g0).value + 1
  {
    ghost var before := Model(s);
    next := NextOf(s);
    BackoffProofs.CapacityStep(before);
    BackoffProofs.AdmitsExtend(g0, pulls, next);
  }

  /**
   * `into_future(...).await`: runs the loop to completion. The run is the
   * one `Session` describes for the answers `pulls` that the strategy
   * actually gave; those answers are ones the strategy may give, and the
   * strategy is left in the state after exactly that many calls, which are
   * at most one more than the strategy's capacity. The strategy must be
   * bounded, so that the loop ends.
   */
  method Execute<T, E>(r: Retry<T, E>, sleeper: Sleeper)
    returns (result: Result<T, E>, ghost report: Report<T, E>, ghost pulls: seq<Option<Duration>>,
             ghost invocations: nat, ghost sleeps: seq<Nap>)
    requires WellFormed(r.strategy)
    requires Capacity(Model(r.strategy)).Some?
    modifies Repr(r.strategy)
    ensures report == Session(r, sleeper, pulls)
    ensures result == report.result
    ensures |pulls| == report.pulls
    ensures invocations == report.attempts && sleeps == report.naps
    ensures Admits(old(Model(r.strategy)), pulls)
    ensures Model(r.strategy) == Iterate(old(Model(r.strategy)), |pulls|)
    ensures |pulls| <= Capacity(old(Model(r.strategy))).value + 1
  {
    ghost var g0 := old(Model(r.strategy));
    var elapsed: nat := 0;
    var calls: nat := 0;
    ghost var naps: seq<Nap> := [];
    pulls := [];
    while true
      invariant calls == |pulls|
      invariant Resumes(r, sleeper, pulls, calls, elapsed, naps)
      invariant WellFormed(r.strategy) && Tracks(r.strategy, g0, pulls)
      decreases Capacity(Model(r.strategy)).value
    {
      var outcome := r.operation.outcome(calls);
      var now := elapsed + r.operation.duration(calls);
      if outcome.Ok? || (r.maxDuration.Some? && now >= r.maxDuration.value) ||
         (r.condition.When? && !r.condition.retryable(outcome.error)) {
        ResumesStopsEarly(r, sleeper, pulls, calls, elapsed, naps);
        result := outcome;
        invocations, sleeps := calls + 1, naps;
        report := Session(r, sleeper, pulls);
        return;
      }
      var next := NextDelay(r.strategy, g0, pulls);
      if next.None? || (r.maxDuration.Some? && now + next.value > r.maxDuration.value) {
        ResumesStopsAfterPull(r, sleeper, pulls, calls, elapsed, naps, next);
        pulls := pulls + [next];
        result := outcome;
        invocations, sleeps := calls + 1, naps;
        report := Session(r, sleeper, pulls);
        return;
      }
      ghost var pulls0, calls0, elapsed0, naps0 := pulls, calls, elapsed, naps;
      pulls := pulls + [next];
      elapsed := now + next.value + sleeper.overshoot(calls);
      naps := naps + [Nap(now, next.value)];
      calls := calls + 1;
      ResumesStep(r, sleeper, pulls0, calls0, elapsed0, naps0, now, next, pulls, calls, elapsed, naps);
    }
  }
}
