/**
 * What the retry loop guarantees, proved about `Retrying.Continue` (the
 * loop from any invocation on) and specialised to whole sessions.
 */
module RetryProofs {
  import opened Wrappers
  import opened Durations
  import opened BackoffSpec
  import opened Retrying
  import BackoffProofs

  /**
   * The loop returns the outcome of its last invocation, and records one
   * sleep per invocation it retried, after the sleeps it had already made.
   */
  lemma {:induction false} ContinueTrace<T, E>(op: Operation<T, E>, cond: Condition<E>,
                                               budget: Option<Duration>, sleeper: Sleeper,
                                               pulls: seq<Option<Duration>>,
                                               i: nat, clock: nat, naps: seq<Nap>)
    ensures var rep := Continue(op, cond, budget, sleeper, pulls, i, clock, naps);
            i < rep.attempts && rep.result == op.outcome(rep.attempts - 1)
    ensures var rep := Continue(op, cond, budget, sleeper, pulls, i, clock, naps);
            |rep.naps| == |naps| + (rep.attempts - 1 - i) && rep.naps[..|naps|] == naps
    decreases |pulls| - i
  {
    var now := clock + op.duration(i);
    if op.outcome(i).Err? && !(budget.Some? && now >= budget.value) && Allows(cond, op.outcome(i).error) &&
       i < |pulls| && pulls[i].Some? && !(budget.Some? && Overruns(now, pulls[i].value, budget.value)) {
      var naps' := naps + [Nap(now, pulls[i].value)];
      var rep := Continue(op, cond, budget, sleeper, pulls, i + 1,
                          now + pulls[i].value + sleeper.overshoot(i), naps');
      ContinueTrace(op, cond, budget, sleeper, pulls, i + 1, now + pulls[i].value + sleeper.overshoot(i), naps');
      assert rep.naps[..|naps|] == rep.naps[..|naps'|][..|naps|];
    }
  }

  /**
   * Every invocation before the last failed with an error the condition
   * let through, the strategy gave a delay for it, and the sleep recorded
   * for it is of exactly that delay.
   */
  lemma {:induction false} ContinueRetried<T, E>(op: Operation<T, E>, cond: Condition<E>,
                                                 budget: Option<Duration>, sleeper: Sleeper,
                                                 pulls: seq<Option<Duration>>,
                                                 i: nat, clock: nat, naps: seq<Nap>)
    ensures var rep := Continue(op, cond, budget, sleeper, pulls, i, clock, naps);
            i < rep.attempts && |rep.naps| == |naps| + (rep.attempts - 1 - i) &&
            forall j | i <= j < rep.attempts - 1 ::
              op.outcome(j).Err? && Allows(cond, op.outcome(j).error) &&
              j < |pulls| && pulls[j].Some? && rep.naps[|naps| + (j - i)].delay == pulls[j].value
    decreases |pulls| - i
  {
    var rep := Continue(op, cond, budget, sleeper, pulls, i, clock, naps);
    ContinueTrace(op, cond, budget, sleeper, pulls, i, clock, naps);
    var now := clock + op.duration(i);
    if op.outcome(i).Err? && !(budget.Some? && now >= budget.value) && Allows(cond, op.outcome(i).error) &&
       i < |pulls| && pulls[i].Some? && !(budget.Some? && Overruns(now, pulls[i].value, budget.value)) {
      var naps' := naps + [Nap(now, pulls[i].value)];
      var clock' := now + pulls[i].value + sleeper.overshoot(i);
      assert rep == Continue(op, cond, budget, sleeper, pulls, i + 1, clock', naps');
      ContinueRetried(op, cond, budget, sleeper, pulls, i + 1, clock', naps');
      ContinueTrace(op, cond, budget, sleeper, pulls, i + 1, clock', naps');
      forall j | i <= j < rep.attempts - 1
        ensures op.outcome(j).Err? && Allows(cond, op.outcome(j).error) &&
                j < |pulls| && pulls[j].Some? && rep.naps[|naps| + (j - i)].delay == pulls[j].value
      {
        if j == i {
          assert rep.naps[|naps|] == rep.naps[..|naps'|][|naps|] == Nap(now, pulls[i].value);
        } else {
          assert |naps| + (j - i) == |naps'| + (j - (i + 1));
        }
      }
    }
  }

  /**
   * Why the loop stopped, in the order the checks are made, each reason
   * holding exactly when the checks before it passed and it failed. `a` is
   * the last invocation and `now` the time of the checks after it.
   */
  lemma {:induction false} ContinueExit<T, E>(op: Operation<T, E>, cond: Condition<E>,
                                              budget: Option<Duration>, sleeper: Sleeper,
                                              pulls: seq<Option<Duration>>,
                                              i: nat, clock: nat, naps: seq<Nap>)
    ensures var rep := Continue(op, cond, budget, sleeper, pulls, i, clock, naps);
            var a := rep.attempts - 1;
            var spent := budget.Some? && rep.elapsed >= budget.value;
            a >= i &&
            (rep.stop == Succeeded <==> op.outcome(a).Ok?) &&
            (rep.stop == BudgetSpent <==> op.outcome(a).Err? && spent) &&
            (rep.stop == NotRetryable <==> op.outcome(a).Err? && !spent && !Allows(cond, op.outcome(a).error)) &&
            (rep.stop == StrategyExhausted <==>
               op.outcome(a).Err? && !spent && Allows(cond, op.outcome(a).error) &&
               (a >= |pulls| || pulls[a].None?)) &&
            (rep.stop == SleepPastBudget <==>
               op.outcome(a).Err? && !spent && Allows(cond, op.outcome(a).error) &&
               a < |pulls| && pulls[a].Some? && budget.Some? && Overruns(rep.elapsed, pulls[a].value, budget.value))
    ensures var rep := Continue(op, cond, budget, sleeper, pulls, i, clock, naps);
            rep.pulls == if rep.stop == StrategyExhausted || rep.stop == SleepPastBudget
                         then rep.attempts else rep.attempts - 1
    decreases |pulls| - i
  {
    var now := clock + op.duration(i);
    if op.outcome(i).Err? && !(budget.Some? && now >= budget.value) && Allows(cond, op.outcome(i).error) &&
       i < |pulls| && pulls[i].Some? && !(budget.Some? && Overruns(now, pulls[i].value, budget.value)) {
      ContinueExit(op, cond, budget, sleeper, pulls, i + 1,
                   now + pulls[i].value + sleeper.overshoot(i), naps + [Nap(now, pulls[i].value)]);
    }
  }

  /**
   * The time line: sleeps begin no earlier than the session's clock; each
   * one's actual end (its start plus the requested delay plus the timer's
   * overshoot for that sleep) is no later than the next sleep's start and
   * the final check; and with a budget every sleep's requested end (start
   * plus requested delay, without the overshoot) is within it (equality
   * allowed).
   */
  lemma {:induction false} ContinueTimeline<T, E>(op: Operation<T, E>, cond: Condition<E>,
                                                  budget: Option<Duration>, sleeper: Sleeper,
                                                  pulls: seq<Option<Duration>>,
                                                  i: nat, clock: nat, naps: seq<Nap>)
    ensures var rep := Continue(op, cond, budget, sleeper, pulls, i, clock, naps);
            rep.elapsed >= clock &&
            forall k | |naps| <= k < |rep.naps| ::
              clock <= rep.naps[k].start &&
              rep.naps[k].start + rep.naps[k].delay + sleeper.overshoot(i + (k - |naps|)) <= rep.elapsed &&
              (budget.Some? ==> rep.naps[k].start + rep.naps[k].delay <= budget.value) &&
              (k + 1 < |rep.naps| ==>
                 rep.naps[k].start + rep.naps[k].delay + sleeper.overshoot(i + (k - |naps|)) <= rep.naps[k + 1].start)
    decreases |pulls| - i
  {
    var rep := Continue(op, cond, budget, sleeper, pulls, i, clock, naps);
    var now := clock + op.duration(i);
    if op.outcome(i).Err? && !(budget.Some? && now >= budget.value) && Allows(cond, op.outcome(i).error) &&
       i < |pulls| && pulls[i].Some? && !(budget.Some? && Overruns(now, pulls[i].value, budget.value)) {
      var d := pulls[i].value;
      var naps' := naps + [Nap(now, d)];
      var clock' := now + d + sleeper.overshoot(i);
      assert rep == Continue(op, cond, budget, sleeper, pulls, i + 1, clock', naps');
      ContinueTimeline(op, cond, budget, sleeper, pulls, i + 1, clock', naps');
      ContinueTrace(op, cond, budget, sleeper, pulls, i + 1, clock', naps');
      assert rep.naps[|naps|] == rep.naps[..|naps'|][|naps|] == Nap(now, d);
      forall k | |naps| <= k < |rep.naps|
        ensures clock <= rep.naps[k].start
        ensures rep.naps[k].start + rep.naps[k].delay + sleeper.overshoot(i + (k - |naps|)) <= rep.elapsed
        ensures budget.Some? ==> rep.naps[k].start + rep.naps[k].delay <= budget.value
        ensures k + 1 < |rep.naps| ==>
                  rep.naps[k].start + rep.naps[k].delay + sleeper.overshoot(i + (k - |naps|)) <= rep.naps[k + 1].start
      {
        if k == |naps| {
          assert budget.Some? ==> now + d <= budget.value;
        }
      }
    }
  }

  /**
   * The loop depends only on the answers of `next()` it consumed: any
   * continuation of them yields the same run.
   */
  lemma {:induction false} ContinueConsumed<T, E>(op: Operation<T, E>, cond: Condition<E>,
                                                  budget: Option<Duration>, sleeper: Sleeper,
                                                  pulls: seq<Option<Duration>>, more: seq<Option<Duration>>,
                                                  i: nat, clock: nat, naps: seq<Nap>)
    requires pulls <= more
    requires Continue(op, cond, budget, sleeper, pulls, i, clock, naps).pulls <= |pulls|
    ensures Continue(op, cond, budget, sleeper, pulls, i, clock, naps) ==
            Continue(op, cond, budget, sleeper, more, i, clock, naps)
    decreases |pulls| - i
  {
    var now := clock + op.duration(i);
    if i < |pulls| {
      assert more[i] == pulls[i];
      if op.outcome(i).Err? && !(budget.Some? && now >= budget.value) && Allows(cond, op.outcome(i).error) &&
         pulls[i].Some? && !(budget.Some? && Overruns(now, pulls[i].value, budget.value)) {
        ContinueConsumed(op, cond, budget, sleeper, pulls, more, i + 1,
                         now + pulls[i].value + sleeper.overshoot(i), naps + [Nap(now, pulls[i].value)]);
      }
    }
  }

  /**
   * For a strategy without jitter, the run `Execute` reports is the session
   * against the strategy's own outputs, however many of them are looked at.
   */
  lemma DeterministicSession<T, E>(r: Retry<T, E>, sleeper: Sleeper, pulls: seq<Option<Duration>>,
                                   g: Gen, k: nat)
    requires Deterministic(g) && Admits(g, pulls)
    requires |pulls| == Session(r, sleeper, pulls).pulls && |pulls| <= k
    ensures Session(r, sleeper, pulls) == Session(r, sleeper, Outputs(g, k))
  {
    BackoffProofs.DeterministicAdmits(g, pulls);
    BackoffProofs.OutputsPrefix(g, |pulls|, k);
    assert pulls <= Outputs(g, k);
    ContinueConsumed(r.operation, r.condition, r.maxDuration, sleeper, pulls, Outputs(g, k), 0, 0, []);
  }

  /** The default condition behaves exactly as a condition that accepts every error. */
  lemma {:induction false} AlwaysRetryAcceptsAll<T, E>(op: Operation<T, E>, f: E -> bool,
                                                       budget: Option<Duration>, sleeper: Sleeper,
                                                       pulls: seq<Option<Duration>>,
                                                       i: nat, clock: nat, naps: seq<Nap>)
    requires forall e :: f(e)
    ensures Continue(op, AlwaysRetry, budget, sleeper, pulls, i, clock, naps) ==
            Continue(op, When(f), budget, sleeper, pulls, i, clock, naps)
    decreases |pulls| - i
  {
    var now := clock + op.duration(i);
    if op.outcome(i).Err? {
      assert Allows(When(f), op.outcome(i).error);
    }
    if i < |pulls| && pulls[i].Some? {
      AlwaysRetryAcceptsAll(op, f, budget, sleeper, pulls, i + 1,
                            now + pulls[i].value + sleeper.overshoot(i), naps + [Nap(now, pulls[i].value)]);
    }
  }

  /**
   * With no budget, a session whose invocations fail with retryable errors
   * until invocation `k` (from 1) succeeds, against a strategy that gives
   * enough delays, makes exactly `k` invocations, `k - 1` calls of `next()`
   * and `k - 1` sleeps, and returns that success.
   */
  lemma SucceedsOnAttempt<T, E>(r: Retry<T, E>, sleeper: Sleeper, pulls: seq<Option<Duration>>, k: nat)
    requires r.maxDuration.None?
    requires 1 <= k && r.operation.outcome(k - 1).Ok?
    requires forall j | 0 <= j < k - 1 ::
               r.operation.outcome(j).Err? && Allows(r.condition, r.operation.outcome(j).error)
    requires k - 1 <= |pulls| && forall j | 0 <= j < k - 1 :: pulls[j].Some?
    ensures var rep := Session(r, sleeper, pulls);
            rep.attempts == k && rep.result == r.operation.outcome(k - 1) && rep.stop == Succeeded &&
            rep.pulls == k - 1 && |rep.naps| == k - 1
  {
    ContinueRetried(r.operation, r.condition, r.maxDuration, sleeper, pulls, 0, 0, []);
    ContinueTrace(r.operation, r.condition, r.maxDuration, sleeper, pulls, 0, 0, []);
    ContinueExit(r.operation, r.condition, r.maxDuration, sleeper, pulls, 0, 0, []);
  }

  /**
   * With no budget and every error retryable, a strategy that gives delays
   * up to call `n` and is then exhausted ends the loop at invocation `n`.
   */
  lemma {:induction false} ExhaustsFrom<T, E>(op: Operation<T, E>, cond: Condition<E>, sleeper: Sleeper,
                                              pulls: seq<Option<Duration>>,
                                              i: nat, clock: nat, naps: seq<Nap>, n: nat)
    requires i <= n
    requires forall j | i <= j <= n :: op.outcome(j).Err? && Allows(cond, op.outcome(j).error)
    requires n <= |pulls| && forall j | i <= j < n :: pulls[j].Some?
    requires n == |pulls| || pulls[n].None?
    ensures var rep := Continue(op, cond, None, sleeper, pulls, i, clock, naps);
            rep.attempts == n + 1 && rep.result == op.outcome(n) &&
            rep.stop == StrategyExhausted && rep.pulls == n + 1 && |rep.naps| == |naps| + (n - i)
    decreases n - i
  {
    assert op.outcome(i).Err? && Allows(cond, op.outcome(i).error);
    if i < n {
      assert pulls[i].Some?;
      var now := clock + op.duration(i);
      ExhaustsFrom(op, cond, sleeper, pulls, i + 1, now + pulls[i].value + sleeper.overshoot(i),
                   naps + [Nap(now, pulls[i].value)], n);
    }
  }

  /**
   * With no budget and every error retryable, a strategy that gives `n`
   * delays and is then exhausted leads to `n + 1` failed invocations, `n`
   * sleeps and the last error.
   */
  lemma ExhaustsAfter<T, E>(r: Retry<T, E>, sleeper: Sleeper, pulls: seq<Option<Duration>>, n: nat)
    requires r.maxDuration.None?
    requires forall j | 0 <= j <= n ::
               r.operation.outcome(j).Err? && Allows(r.condition, r.operation.outcome(j).error)
    requires n <= |pulls| && forall j | 0 <= j < n :: pulls[j].Some?
    requires n == |pulls| || pulls[n].None?
    ensures var rep := Session(r, sleeper, pulls);
            rep.attempts == n + 1 && rep.result == r.operation.outcome(n) &&
            rep.stop == StrategyExhausted && rep.pulls == n + 1 && |rep.naps| == n
  {
    ExhaustsFrom(r.operation, r.condition, sleeper, pulls, 0, 0, [], n);
  }

  /**
   * A condition that rejects the first error ends the session after one
   * invocation, before the strategy is asked.
   */
  lemma RejectedAtOnce<T, E>(r: Retry<T, E>, sleeper: Sleeper, pulls: seq<Option<Duration>>)
    requires r.operation.outcome(0).Err? && !Allows(r.condition, r.operation.outcome(0).error)
    requires r.maxDuration.Some? ==> r.operation.duration(0) < r.maxDuration.value
    ensures var rep := Session(r, sleeper, pulls);
            rep.attempts == 1 && rep.result == r.operation.outcome(0) && rep.stop == NotRetryable &&
            rep.pulls == 0 && rep.naps == []
  {
    ContinueExit(r.operation, r.condition, r.maxDuration, sleeper, pulls, 0, 0, []);
    ContinueTrace(r.operation, r.condition, r.maxDuration, sleeper, pulls, 0, 0, []);
  }

  /**
   * Against `take(3)` of a fixed delay and an operation that fails its first four invocations,
   * the loop makes four invocations and three sleeps: the fourth call of
   * `next()` is the one that finds the strategy exhausted. `pulls` is any
   * run the strategy admits, of the length the session consumes, as
   * `Execute` guarantees.
   */
  lemma TakeThreeMakesFourAttempts<T, E>(r: Retry<T, E>, sleeper: Sleeper,
                                         pulls: seq<Option<Duration>>, d: Duration)
    requires r.maxDuration.None?
    requires forall j | 0 <= j <= 3 ::
               r.operation.outcome(j).Err? && Allows(r.condition, r.operation.outcome(j).error)
    requires Admits(TakeGen(FixedGen(d), 3), pulls)
    requires |pulls| == Session(r, sleeper, pulls).pulls
    ensures var rep := Session(r, sleeper, pulls);
            rep.attempts == 4 && |rep.naps| == 3 && rep.result == r.operation.outcome(3) &&
            rep.stop == StrategyExhausted
  {
    var g := TakeGen(FixedGen(d), 3);
    BackoffProofs.DeterministicAdmits(g, pulls);
    BackoffProofs.FixedTake(d, 3);
    var all := Outputs(g, 4);
    var n := if |pulls| < 3 then |pulls| else 3;
    if |pulls| > 3 {
      BackoffProofs.OutputsAt(g, |pulls|, 3);
      BackoffProofs.OutputsAt(g, 4, 3);
      assert pulls[3] == all[3] == None;
    }
    forall j | 0 <= j < n ensures pulls[j].Some? {
      BackoffProofs.OutputsAt(g, |pulls|, j);
      BackoffProofs.OutputsAt(g, 4, j);
      assert pulls[j] == all[j];
    }
    ExhaustsAfter(r, sleeper, pulls, n);
  }

  /**
   * A 75 ms budget with 50 ms delays and instantaneous invocations: the
   * first sleep fits, the second would not (or the budget is already spent
   * after an overlong first sleep), so the session makes exactly two
   * invocations, whatever the timer's overshoot.
   */
  lemma BudgetAllowsOneSleep<T, E>(r: Retry<T, E>, sleeper: Sleeper, pulls: seq<Option<Duration>>)
    requires r.maxDuration == Some(Millis(75))
    requires forall j | 0 <= j < 2 ::
               r.operation.outcome(j).Err? && Allows(r.condition, r.operation.outcome(j).error)
    requires forall j | 0 <= j < 2 :: r.operation.duration(j) == 0
    requires |pulls| >= 2 && pulls[0] == Some(Millis(50)) && pulls[1] == Some(Millis(50))
    ensures var rep := Session(r, sleeper, pulls);
            rep.attempts == 2 && |rep.naps| == 1 && rep.naps[0] == Nap(0, Millis(50)) &&
            (rep.stop == BudgetSpent || rep.stop == SleepPastBudget) &&
            (sleeper.overshoot(0) == 0 ==> rep.stop == SleepPastBudget)
  {
    var op, cond, budget := r.operation, r.condition, r.maxDuration;
    var clock1 := Millis(50) + sleeper.overshoot(0);
    assert [] + [Nap(0, Millis(50))] == [Nap(0, Millis(50))];
    assert op.outcome(0).Err? && Allows(cond, op.outcome(0).error) && op.duration(0) == 0;
    assert op.outcome(1).Err? && Allows(cond, op.outcome(1).error) && op.duration(1) == 0;
    assert Session(r, sleeper, pulls) ==
           Continue(op, cond, budget, sleeper, pulls, 1, clock1, [Nap(0, Millis(50))]);
  }

  /**
   * A 100 ms budget with 50 ms delays, instantaneous invocations and an
   * exact timer: a sleep that ends exactly at the budget is taken, so there
   * are three invocations and two sleeps, and the third failure finds the
   * budget spent.
   */
  lemma SleepEndingAtBudgetIsTaken<T, E>(r: Retry<T, E>, sleeper: Sleeper, pulls: seq<Option<Duration>>)
    requires r.maxDuration == Some(Millis(100))
    requires forall j | 0 <= j < 2 ::
               r.operation.outcome(j).Err? && Allows(r.condition, r.operation.outcome(j).error)
    requires r.operation.outcome(2).Err?
    requires forall j | 0 <= j < 3 :: r.operation.duration(j) == 0
    requires sleeper.overshoot(0) == 0 && sleeper.overshoot(1) == 0
    requires |pulls| >= 2 && pulls[0] == Some(Millis(50)) && pulls[1] == Some(Millis(50))
    ensures var rep := Session(r, sleeper, pulls);
            rep.attempts == 3 && rep.naps == [Nap(0, Millis(50)), Nap(Millis(50), Millis(50))] &&
            rep.stop == BudgetSpent && rep.elapsed == Millis(100)
  {
    var op, cond, budget := r.operation, r.condition, r.maxDuration;
    assert op.outcome(0).Err? && Allows(cond, op.outcome(0).error) && op.duration(0) == 0;
    assert op.outcome(1).Err? && Allows(cond, op.outcome(1).error) && op.duration(1) == 0;
    assert op.outcome(2).Err? && op.duration(2) == 0;
    assert sleeper.overshoot(0) == 0 && sleeper.overshoot(1) == 0;
    assert [] + [Nap(0, Millis(50))] == [Nap(0, Millis(50))];
    assert Session(r, sleeper, pulls) ==
           Continue(op, cond, budget, sleeper, pulls, 1, Millis(50), [Nap(0, Millis(50))]);
    assert Continue(op, cond, budget, sleeper, pulls, 1, Millis(50), [Nap(0, Millis(50))]) ==
           Continue(op, cond, budget, sleeper, pulls, 2, Millis(100),
                    [Nap(0, Millis(50)), Nap(Millis(50), Millis(50))]);
  }

  /**
   * The corrected pre-sleep check against the one the source writes: as
   * written the sum `elapsed + delay` is a `Duration` and overflows (a
   * panic in Rust) for the very first delay of `ExponentialBackoff::new(
   * Duration::MAX)` once one nanosecond has elapsed, while the exact
   * comparison just reports that the sleep would pass the budget.
   */
  lemma OverflowingPreSleepCheck()
    ensures Nominal(NewExponential(MAX)) == Some(MAX)
    ensures OverrunsAsWritten(1, MAX, MAX).None?
    ensures Overruns(1, MAX, MAX)
  {
  }

  /**
   * With the corrected check, that same run ends without a panic: one
   * invocation, no sleep, the error returned because the sleep would pass
   * the budget `Duration::MAX`.
   */
  lemma HugeDelayStopsCleanly<T, E>(r: Retry<T, E>, sleeper: Sleeper, pulls: seq<Option<Duration>>)
    requires r.maxDuration == Some(MAX)
    requires r.operation.outcome(0).Err? && Allows(r.condition, r.operation.outcome(0).error)
    requires 1 <= r.operation.duration(0) < MAX
    requires |pulls| >= 1 && pulls[0] == Some(MAX)
    ensures var rep := Session(r, sleeper, pulls);
            rep.attempts == 1 && rep.stop == SleepPastBudget && rep.naps == [] &&
            rep.result == r.operation.outcome(0)
  {
    ContinueExit(r.operation, r.condition, r.maxDuration, sleeper, pulls, 0, 0, []);
  }
}
