/**
 * The integration tests of `tests/integration_test.rs`, replayed through
 * `Retrying.Execute` on real strategy objects. The operation counts its
 * invocations and succeeds, with the count, on invocation `succeedOn`;
 * how long its invocations take and how far the timer overshoots are left
 * free except where a test depends on timing.
 */
module RetryTests {
  import opened Wrappers
  import opened Durations
  import opened BackoffSpec
  import opened Backoff
  import opened Retrying
  import RetryProofs
  import BackoffProofs

  /** The tests' `Op::new(succeed_on, error)`. */
  function CountingOp(succeedOn: nat, error: string, durations: nat -> nat): Operation<nat, string> {
    Operation(i => if i + 1 == succeedOn then Ok(i + 1) else Err(error), durations)
  }

  /** `FixedDelay::new(d).take(n)`, freshly allocated. */
  method FixedTake(d: Duration, n: nat) returns (s: Strategy)
    ensures WellFormed(s) && Model(s) == TakeGen(FixedGen(d), n) && fresh(Repr(s))
  {
    var fixed := new FixedDelay(d);
    var t := new Take(Fixed(fixed), n);
    s := Limited(t);
  }

  /** `test_success_on_first_try`: the first invocation succeeds and nothing is retried. */
  method SuccessOnFirstTry(durations: nat -> nat, sleeper: Sleeper)
    returns (result: Result<nat, string>, ghost attempts: nat)
    ensures result == Ok(1) && attempts == 1
  {
    var s := FixedTake(Millis(10), 5);
    var r := New(s, CountingOp(1, "fail", durations));
    ghost var report, pulls, invocations, taken;
    result, report, pulls, invocations, taken := Execute(r, sleeper);
    ghost var g := TakeGen(FixedGen(Millis(10)), 5);
    RetryProofs.DeterministicSession(r, sleeper, pulls, g, 6);
    BackoffProofs.FixedTakeOutputs(Millis(10), 5, 6);
    RetryProofs.SucceedsOnAttempt(r, sleeper, Outputs(g, 6), 1);
    attempts := invocations;
  }

  /** `test_success_on_third_try`: two failures, two sleeps, then the value 3. */
  method SuccessOnThirdTry(durations: nat -> nat, sleeper: Sleeper)
    returns (result: Result<nat, string>, ghost attempts: nat, ghost sleeps: nat)
    ensures result == Ok(3) && attempts == 3 && sleeps == 2
  {
    var s := FixedTake(Millis(10), 5);
    var r := New(s, CountingOp(3, "fail", durations));
    ghost var report, pulls, invocations, taken;
    result, report, pulls, invocations, taken := Execute(r, sleeper);
    ghost var g := TakeGen(FixedGen(Millis(10)), 5);
    RetryProofs.DeterministicSession(r, sleeper, pulls, g, 6);
    BackoffProofs.FixedTakeOutputs(Millis(10), 5, 6);
    RetryProofs.SucceedsOnAttempt(r, sleeper, Outputs(g, 6), 3);
    attempts, sleeps := invocations, |taken|;
  }

  /**
   * `test_failure_on_max_retries`: `take(3)` gives three sleeps of 10 ms,
   * so the loop makes four invocations (the fourth is the one after which
   * the strategy is found exhausted) and returns the error.
   */
  method FailureOnMaxRetries(durations: nat -> nat, sleeper: Sleeper)
    returns (result: Result<nat, string>, ghost attempts: nat, ghost naps: seq<Nap>)
    ensures result == Err("fail") && attempts == 4
    ensures |naps| == 3 && forall k | 0 <= k < 3 :: naps[k].delay == Millis(10)
  {
    var s := FixedTake(Millis(10), 3);
    var r := New(s, CountingOp(10, "fail", durations));
    ghost var report, pulls, invocations, taken;
    result, report, pulls, invocations, taken := Execute(r, sleeper);
    ghost var g := TakeGen(FixedGen(Millis(10)), 3);
    RetryProofs.DeterministicSession(r, sleeper, pulls, g, 4);
    BackoffProofs.FixedTakeOutputs(Millis(10), 3, 4);
    RetryProofs.ExhaustsAfter(r, sleeper, Outputs(g, 4), 3);
    RetryProofs.ContinueRetried(r.operation, r.condition, r.maxDuration, sleeper, Outputs(g, 4), 0, 0, []);
    attempts, naps := invocations, taken;
    forall k | 0 <= k < 3 ensures naps[k].delay == Millis(10) {
      assert Outputs(g, 4)[k] == Some(Millis(10));
    }
  }

  /**
   * `test_failure_on_max_duration`: 50 ms delays against a 75 ms budget,
   * with instantaneous invocations: one sleep fits, the next does not, so
   * two invocations, whatever the timer's overshoot.
   */
  method FailureOnMaxDuration(sleeper: Sleeper)
    returns (result: Result<nat, string>, ghost attempts: nat)
    ensures result == Err("fail") && attempts == 2
  {
    var s := FixedTake(Millis(50), 10);
    var r := WithMaxDuration(New(s, CountingOp(10, "fail", _ => 0)), Millis(75));
    ghost var report, pulls, invocations, taken;
    result, report, pulls, invocations, taken := Execute(r, sleeper);
    ghost var g := TakeGen(FixedGen(Millis(50)), 10);
    RetryProofs.DeterministicSession(r, sleeper, pulls, g, 11);
    BackoffProofs.FixedTakeOutputs(Millis(50), 10, 11);
    RetryProofs.BudgetAllowsOneSleep(r, sleeper, Outputs(g, 11));
    RetryProofs.ContinueTrace(r.operation, r.condition, r.maxDuration, sleeper, Outputs(g, 11), 0, 0, []);
    attempts := invocations;
  }

  /**
   * `test_failure_on_condition`: the condition rejects "PERMANENT", so the
   * first error is returned and the strategy is never asked.
   */
  method FailureOnCondition(durations: nat -> nat, sleeper: Sleeper)
    returns (result: Result<nat, string>, ghost attempts: nat, ghost pulls: seq<Option<Duration>>)
    ensures result == Err("PERMANENT") && attempts == 1 && pulls == []
  {
    var s := FixedTake(Millis(10), 5);
    var r := WithCondition(New(s, CountingOp(10, "PERMANENT", durations)), e => e != "PERMANENT");
    ghost var report, invocations, taken;
    result, report, pulls, invocations, taken := Execute(r, sleeper);
    RetryProofs.RejectedAtOnce(r, sleeper, pulls);
    attempts := invocations;
  }
}
