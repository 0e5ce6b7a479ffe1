/**
 * The unit tests of `src/backoff.rs`, replayed on real strategy objects:
 * each method builds the strategy the test builds, calls `next()` the same
 * number of times, and its contract states the answers the test expects.
 * The longer ones go through `Collect` and the closed forms proved in
 * module BackoffProofs.
 */
module BackoffTests {
  import opened Wrappers
  import opened Durations
  import opened BackoffSpec
  import opened Backoff
  import BackoffProofs

  /** `k` successive calls of `next()`, as a test makes them one after another. */
  method Collect(s: Strategy, k: nat) returns (outs: seq<Option<Duration>>)
    requires WellFormed(s)
    modifies Repr(s)
    ensures |outs| == k && Admits(old(Model(s)), outs)
    ensures Model(s) == Iterate(old(Model(s)), k)
  {
    ghost var g0 := Model(s);
    outs := [];
    while |outs| < k
      invariant |outs| <= k && Admits(g0, outs) && Model(s) == Iterate(g0, |outs|)
      decreases k - |outs|
    {
      var o := NextOf(s);
      BackoffProofs.AdmitsExtend(g0, outs, o);
      outs := outs + [o];
    }
  }

  /** `FixedDelay::new(1s).take(3)`: three seconds, then `None`. */
  method FixedDelayTakeThree() returns (outs: seq<Option<Duration>>)
    ensures outs == [Some(Secs(1)), Some(Secs(1)), Some(Secs(1)), None]
  {
    var fixed := new FixedDelay(Secs(1));
    var t := new Take(Fixed(fixed), 3);
    var a := t.Next();
    var b := t.Next();
    var c := t.Next();
    var d := t.Next();
    outs := [a, b, c, d];
  }

  /** `ExponentialBackoff::new(100ms).take(4)`: 100, 200, 400, 800 ms, then `None`. */
  method ExponentialTakeFour() returns (outs: seq<Option<Duration>>)
    ensures outs == [Some(Millis(100)), Some(Millis(200)), Some(Millis(400)), Some(Millis(800)), None]
  {
    var e := new ExponentialBackoff(Millis(100));
    var t := new Take(Exponential(e), 4);
    var a := t.Next();
    var b := t.Next();
    var c := t.Next();
    var d := t.Next();
    var z := t.Next();
    outs := [a, b, c, d, z];
  }

  /** The same with `with_max_delay(300ms)`: the third and fourth delays are capped. */
  method ExponentialCappedTakeFour() returns (outs: seq<Option<Duration>>)
    ensures outs == [Some(Millis(100)), Some(Millis(200)), Some(Millis(300)), Some(Millis(300)), None]
  {
    var e := new ExponentialBackoff(Millis(100));
    e.WithMaxDelay(Millis(300));
    var t := new Take(Exponential(e), 4);
    outs := Collect(Limited(t), 5);
    BackoffProofs.DeterministicAdmits(TakeGen(WithMaxDelay(NewExponential(Millis(100)), Millis(300)), 4), outs);
    BackoffProofs.ExponentialCappedTakeFour();
  }

  /** `ExponentialBackoff::new(100ms).with_max_retries(2)`: two delays, then the limit. */
  method ExponentialMaxRetriesTwo() returns (outs: seq<Option<Duration>>)
    ensures outs == [Some(Millis(100)), Some(Millis(200)), None]
  {
    var e := new ExponentialBackoff(Millis(100));
    e.WithMaxRetries(2);
    outs := Collect(Exponential(e), 3);
    BackoffProofs.DeterministicAdmits(WithMaxRetries(NewExponential(Millis(100)), 2), outs);
    BackoffProofs.ExponentialMaxRetriesTwo();
  }

  /** `FibonacciBackoff::new(1s).take(6)`: 1, 1, 2, 3, 5, 8 seconds, then `None`. */
  method FibonacciTakeSix() returns (outs: seq<Option<Duration>>)
    ensures outs == [Some(Secs(1)), Some(Secs(1)), Some(Secs(2)), Some(Secs(3)),
                     Some(Secs(5)), Some(Secs(8)), None]
  {
    var f := new FibonacciBackoff(Secs(1));
    var t := new Take(Fibonacci(f), 6);
    outs := Collect(Limited(t), 7);
    BackoffProofs.DeterministicAdmits(TakeGen(NewFibonacci(Secs(1)), 6), outs);
    BackoffProofs.FibonacciTakeSix();
  }

  /** `FibonacciBackoff::new(1s).with_max_retries(3)`: 1, 1, 2 seconds, then the limit. */
  method FibonacciMaxRetriesThree() returns (outs: seq<Option<Duration>>)
    ensures outs == [Some(Secs(1)), Some(Secs(1)), Some(Secs(2)), None]
  {
    var f := new FibonacciBackoff(Secs(1));
    f.WithMaxRetries(3);
    outs := Collect(Fibonacci(f), 4);
    BackoffProofs.DeterministicAdmits(WithMaxRetries(NewFibonacci(Secs(1)), 3), outs);
    BackoffProofs.FibonacciMaxRetriesThree();
  }

  /**
   * `Jitter::new(FixedDelay::new(1s)).take(10)`: ten delays, each at most
   * one second, then `None`.
   */
  method JitterTakeTen() returns (outs: seq<Option<Duration>>, last: Option<Duration>)
    ensures |outs| == 10
    ensures forall k | 0 <= k < 10 :: outs[k].Some? && outs[k].value <= Secs(1)
    ensures last.None?
  {
    var fixed := new FixedDelay(Secs(1));
    var j := new Jitter(Fixed(fixed));
    var t := new Take(Jittered(j), 10);
    outs := [];
    for k := 0 to 10
      invariant |outs| == k
      invariant Model(Limited(t)) == TakeGen(JitterGen(FixedGen(Secs(1))), 10 - k)
      invariant forall i | 0 <= i < k :: outs[i].Some? && outs[i].value <= Secs(1)
    {
      assert Nominal(Model(Limited(t))) == Some(Secs(1));
      var o := t.Next();
      outs := outs + [o];
    }
    last := t.Next();
  }
}
