/**
 * What the strategies of `src/backoff.rs` promise, proved about the
 * abstract step functions of module BackoffSpec: closed forms, the cap
 * acting on the emitted value only, the retry limit, saturation, the
 * `take(n)` limiter, jitter's bound, and the sequences the unit tests expect.
 */
module BackoffProofs {
  import opened Wrappers
  import opened Durations
  import opened BackoffSpec

  // ---------------------------------------------------------------------
  // The generic interface: capacity, determinism

  /**
   * A strategy is exhausted exactly when its capacity is zero, and every
   * call uses up one unit of capacity (exhaustion being permanent).
   */
  lemma {:induction false} CapacityStep(g: Gen)
    ensures Nominal(g).None? <==> Capacity(g) == Some(0)
    ensures Capacity(Advance(g)) == Consume(Capacity(g))
  {
    match g
    case JitterGen(inner) => CapacityStep(inner);
    case TakeGen(inner, n) => CapacityStep(inner);
    case _ =>
  }

  /** Once exhausted, a strategy stays exhausted. */
  lemma {:induction false} ExhaustedForever(g: Gen, k: nat)
    requires Nominal(g).None?
    ensures Nominal(Iterate(g, k)).None?
  {
    if k > 0 {
      ExhaustedForever(g, k - 1);
      CapacityStep(Iterate(g, k - 1));
      CapacityStep(Iterate(g, k));
    }
  }

  /** Stepping first and then k times is stepping k + 1 times. */
  lemma {:induction false} IterateShift(g: Gen, k: nat)
    ensures Iterate(Advance(g), k) == Iterate(g, k + 1)
  {
    if k > 0 {
      IterateShift(g, k - 1);
    }
  }

  /** The j-th deterministic output is the nominal value after j steps. */
  lemma {:induction false} OutputsAt(g: Gen, k: nat, j: nat)
    requires j < k
    ensures |Outputs(g, k)| == k
    ensures Outputs(g, k)[j] == Nominal(Iterate(g, j))
    decreases j
  {
    if j == 0 {
      OutputsLength(Advance(g), k - 1);
    } else {
      OutputsAt(Advance(g), k - 1, j - 1);
      IterateShift(g, j - 1);
    }
  }

  lemma {:induction false} OutputsLength(g: Gen, k: nat)
    ensures |Outputs(g, k)| == k
    decreases k
  {
    if k > 0 {
      OutputsLength(Advance(g), k - 1);
    }
  }

  /** One more answer that fits the state it was given in. */
  lemma AdmitsExtend(g: Gen, outs: seq<Option<Duration>>, o: Option<Duration>)
    requires Admits(g, outs)
    requires Fits(o, Iterate(g, |outs|))
    ensures Admits(g, outs + [o])
  {
    forall j | 0 <= j < |outs| + 1 ensures Fits((outs + [o])[j], Iterate(g, j)) {
      if j < |outs| {
        assert (outs + [o])[j] == outs[j];
      }
    }
  }

  /** Fewer calls see a prefix of what more calls see. */
  lemma OutputsPrefix(g: Gen, k: nat, m: nat)
    requires k <= m
    ensures |Outputs(g, m)| == m
    ensures Outputs(g, k) == Outputs(g, m)[..k]
  {
    OutputsLength(g, k);
    OutputsLength(g, m);
    forall j | 0 <= j < k ensures Outputs(g, k)[j] == Outputs(g, m)[j] {
      OutputsAt(g, k, j);
      OutputsAt(g, m, j);
    }
  }

  /** Jitter being stateless, determinism is kept by every step. */
  lemma {:induction false} DeterministicStep(g: Gen, k: nat)
    requires Deterministic(g)
    ensures Deterministic(Iterate(g, k))
  {
    if k > 0 {
      DeterministicStep(g, k - 1);
      DeterministicAdvance(Iterate(g, k - 1));
    }
  }

  lemma {:induction false} DeterministicAdvance(g: Gen)
    requires Deterministic(g)
    ensures Deterministic(Advance(g))
  {
    match g
    case TakeGen(inner, n) => if n > 0 { DeterministicAdvance(inner); }
    case _ =>
  }

  /** Without jitter, the answers a strategy may give are exactly its outputs. */
  lemma DeterministicAdmits(g: Gen, outs: seq<Option<Duration>>)
    requires Deterministic(g)
    ensures Admits(g, outs) <==> outs == Outputs(g, |outs|)
  {
    OutputsLength(g, |outs|);
    if Admits(g, outs) {
      forall j | 0 <= j < |outs| ensures outs[j] == Outputs(g, |outs|)[j] {
        DeterministicStep(g, j);
        OutputsAt(g, |outs|, j);
      }
    }
    if outs == Outputs(g, |outs|) {
      forall j | 0 <= j < |outs| ensures Fits(outs[j], Iterate(g, j)) {
        DeterministicStep(g, j);
        OutputsAt(g, |outs|, j);
      }
    }
  }

  // ---------------------------------------------------------------------
  // FixedDelay and take(n)

  /** `FixedDelay::new(d).take(n)`: exactly n copies of d, then `None`. */
  lemma {:induction false} FixedTake(d: Duration, n: nat)
    ensures Outputs(TakeGen(FixedGen(d), n), n + 1) == seq(n, _ => Some(d)) + [None]
  {
    if n > 0 {
      FixedTake(d, n - 1);
      var g := TakeGen(FixedGen(d), n);
      assert Nominal(g) == Some(d);
      assert Advance(g) == TakeGen(FixedGen(d), n - 1);
      assert seq(n, _ => Some(d)) == [Some(d)] + seq(n - 1, _ => Some(d));
      assert Outputs(g, n + 1) == [Nominal(g)] + Outputs(Advance(g), n);
    } else {
      assert Outputs(TakeGen(FixedGen(d), 0), 1) == [None] + Outputs(TakeGen(FixedGen(d), 0), 0);
    }
  }

  /** A fixed delay is unbounded and never changes. */
  lemma {:induction false} FixedForever(d: Duration, k: nat)
    ensures Iterate(FixedGen(d), k) == FixedGen(d)
    ensures Nominal(Iterate(FixedGen(d), k)) == Some(d)
    ensures Capacity(FixedGen(d)).None?
  {
    if k > 0 {
      FixedForever(d, k - 1);
    }
  }

  /** After `j` calls, `FixedDelay::new(d).take(n)` has `n - j` delays left, none once `j >= n`. */
  lemma {:induction false} FixedTakeState(d: Duration, n: nat, j: nat)
    ensures Iterate(TakeGen(FixedGen(d), n), j) == TakeGen(FixedGen(d), if j <= n then n - j else 0)
  {
    if j > 0 {
      FixedTakeState(d, n, j - 1);
      var g := TakeGen(FixedGen(d), n);
      assert Iterate(g, j) == Advance(Iterate(g, j - 1));
      assert Advance(FixedGen(d)) == FixedGen(d);
    }
  }

  /** Any number of calls of `FixedDelay::new(d).take(n)`: `d` for the first `n`, `None` after. */
  lemma FixedTakeOutputs(d: Duration, n: nat, k: nat)
    ensures |Outputs(TakeGen(FixedGen(d), n), k)| == k
    ensures forall j | 0 <= j < k ::
              Outputs(TakeGen(FixedGen(d), n), k)[j] == if j < n then Some(d) else None
  {
    var g := TakeGen(FixedGen(d), n);
    OutputsLength(g, k);
    forall j | 0 <= j < k ensures Outputs(g, k)[j] == if j < n then Some(d) else None {
      OutputsAt(g, k, j);
      FixedTakeState(d, n, j);
    }
  }

  // ---------------------------------------------------------------------
  // ExponentialBackoff

  /** Multiplication by a natural number is monotone. */
  lemma MulMonotone(a: nat, x: nat, y: nat)
    requires x <= y
    ensures a * x <= a * y
  {
    Distribute(a, x, y - x);
  }

  lemma Distribute(a: nat, x: nat, y: nat)
    ensures a * x + a * y == a * (x + y)
  {
  }

  /** a * (2p) == 2 * (a * p), kept apart so the solver sees it as one step. */
  lemma Doubling(a: nat, p: nat)
    ensures a * (2 * p) == 2 * (a * p)
  {
  }

  lemma {:induction false} Pow2Monotone(j: nat, k: nat)
    requires j <= k
    ensures Pow2(j) <= Pow2(k)
  {
    if j < k {
      Pow2Monotone(j, k - 1);
    }
  }

  /**
   * After k successful calls from `ExponentialBackoff::new(base)` (with any
   * cap and limit set by the builders), the internal value is base * 2^k,
   * saturated, whatever the cap: the cap never feeds back into it.
   */
  lemma {:induction false} ExponentialState(base: Duration, maxDelay: Option<Duration>,
                                            maxRetries: Option<nat>, k: nat)
    requires maxRetries.None? || k <= maxRetries.value
    ensures Iterate(ExpGen(base, base, maxDelay, maxRetries, 0), k)
         == ExpGen(Saturate(base * Pow2(k)), base, maxDelay, maxRetries, k)
  {
    if k > 0 {
      ExponentialState(base, maxDelay, maxRetries, k - 1);
      var x := base * Pow2(k - 1);
      assert !LimitReached(maxRetries, k - 1);
      assert Iterate(ExpGen(base, base, maxDelay, maxRetries, 0), k)
          == ExpGen(SaturatingMul(Saturate(x), 2), base, maxDelay, maxRetries, k);
      SaturatedDouble(x);
      Doubling(base, Pow2(k - 1));
    }
  }

  /**
   * The k-th call (within the limit) returns base * 2^(k-1), saturated and
   * then capped: the cap applies to the emitted value only.
   */
  lemma ExponentialClosedForm(base: Duration, maxDelay: Option<Duration>,
                              maxRetries: Option<nat>, k: nat)
    requires k >= 1
    requires maxRetries.None? || k <= maxRetries.value
    ensures Nominal(Iterate(ExpGen(base, base, maxDelay, maxRetries, 0), k - 1))
         == Some(ExponentialDelay(base, maxDelay, k))
    ensures ExponentialDelay(base, maxDelay, k) == Cap(ExponentialDelay(base, None, k), maxDelay)
  {
    ExponentialState(base, maxDelay, maxRetries, k - 1);
  }

  /**
   * With `with_max_retries(m)` the strategy is exhausted from the m-th call
   * on, and an exhausted call changes no field: the state is frozen.
   */
  lemma {:induction false} ExponentialExhausted(base: Duration, maxDelay: Option<Duration>,
                                                m: nat, k: nat)
    requires k >= m
    ensures Iterate(ExpGen(base, base, maxDelay, Some(m), 0), k)
         == Iterate(ExpGen(base, base, maxDelay, Some(m), 0), m)
    ensures Nominal(Iterate(ExpGen(base, base, maxDelay, Some(m), 0), k)).None?
  {
    ExponentialState(base, maxDelay, Some(m), m);
    if k > m {
      ExponentialExhausted(base, maxDelay, m, k - 1);
    }
  }

  /** The retry limit is an invariant: `attempt` never passes it. */
  lemma {:induction false} ExponentialAttemptBounded(base: Duration, maxDelay: Option<Duration>,
                                                     m: nat, k: nat)
    ensures Iterate(ExpGen(base, base, maxDelay, Some(m), 0), k).ExpGen? &&
            Iterate(ExpGen(base, base, maxDelay, Some(m), 0), k).attempt <= m
  {
    if k <= m {
      ExponentialState(base, maxDelay, Some(m), k);
    } else {
      ExponentialExhausted(base, maxDelay, m, k);
      ExponentialState(base, maxDelay, Some(m), m);
    }
  }

  /** The emitted delays never decrease. */
  lemma ExponentialNondecreasing(base: Duration, maxDelay: Option<Duration>, k: nat)
    requires k >= 1
    ensures ExponentialDelay(base, maxDelay, k) <= ExponentialDelay(base, maxDelay, k + 1)
  {
    SaturateMonotone(base * Pow2(k - 1), base * Pow2(k));
  }

  /** Once the internal value saturates at `Duration::MAX`, it stays there. */
  lemma ExponentialSaturationSticky(base: Duration, j: nat, k: nat)
    requires j <= k
    requires Saturate(base * Pow2(j)) == MAX
    ensures Saturate(base * Pow2(k)) == MAX
  {
    Pow2Monotone(j, k);
    MulMonotone(base, Pow2(j), Pow2(k));
  }

  // ---------------------------------------------------------------------
  // FibonacciBackoff

  lemma {:induction false} FibMonotone(j: nat, k: nat)
    requires 1 <= j <= k
    ensures Fib(j) <= Fib(k)
  {
    if j < k {
      FibMonotone(j, k - 1);
    }
  }

  /**
   * After k successful calls from `FibonacciBackoff::new(base)`, the pair
   * (current, next) is (base * Fib(k+1), base * Fib(k+2)), each saturated.
   */
  lemma {:induction false} FibonacciState(base: Duration, maxDelay: Option<Duration>,
                                          maxRetries: Option<nat>, k: nat)
    requires maxRetries.None? || k <= maxRetries.value
    ensures Iterate(FibGen(base, base, maxDelay, maxRetries, 0), k)
         == FibGen(Saturate(base * Fib(k + 1)), Saturate(base * Fib(k + 2)), maxDelay, maxRetries, k)
  {
    if k > 0 {
      FibonacciState(base, maxDelay, maxRetries, k - 1);
      SaturatedSum(base * Fib(k), base * Fib(k + 1));
      assert Fib(k + 2) == Fib(k + 1) + Fib(k);
      Distribute(base, Fib(k), Fib(k + 1));
    }
  }

  /** The k-th call (within the limit) returns base * Fib(k), saturated and then capped. */
  lemma FibonacciClosedForm(base: Duration, maxDelay: Option<Duration>,
                            maxRetries: Option<nat>, k: nat)
    requires k >= 1
    requires maxRetries.None? || k <= maxRetries.value
    ensures Nominal(Iterate(FibGen(base, base, maxDelay, maxRetries, 0), k - 1))
         == Some(FibonacciDelay(base, maxDelay, k))
    ensures FibonacciDelay(base, maxDelay, k) == Cap(FibonacciDelay(base, None, k), maxDelay)
  {
    FibonacciState(base, maxDelay, maxRetries, k - 1);
  }

  /** With `with_max_retries(m)`: exhausted from the m-th call on, state frozen. */
  lemma {:induction false} FibonacciExhausted(base: Duration, maxDelay: Option<Duration>,
                                              m: nat, k: nat)
    requires k >= m
    ensures Iterate(FibGen(base, base, maxDelay, Some(m), 0), k)
         == Iterate(FibGen(base, base, maxDelay, Some(m), 0), m)
    ensures Nominal(Iterate(FibGen(base, base, maxDelay, Some(m), 0), k)).None?
  {
    FibonacciState(base, maxDelay, Some(m), m);
    if k > m {
      FibonacciExhausted(base, maxDelay, m, k - 1);
    }
  }

  /** The retry limit is an invariant of the Fibonacci strategy too. */
  lemma {:induction false} FibonacciAttemptBounded(base: Duration, maxDelay: Option<Duration>,
                                                   m: nat, k: nat)
    ensures Iterate(FibGen(base, base, maxDelay, Some(m), 0), k).FibGen? &&
            Iterate(FibGen(base, base, maxDelay, Some(m), 0), k).attempt <= m
  {
    if k <= m {
      FibonacciState(base, maxDelay, Some(m), k);
    } else {
      FibonacciExhausted(base, maxDelay, m, k);
      FibonacciState(base, maxDelay, Some(m), m);
    }
  }

  /** The emitted Fibonacci delays never decrease. */
  lemma FibonacciNondecreasing(base: Duration, maxDelay: Option<Duration>, k: nat)
    requires k >= 1
    ensures FibonacciDelay(base, maxDelay, k) <= FibonacciDelay(base, maxDelay, k + 1)
  {
    FibMonotone(k, k + 1);
    MulMonotone(base, Fib(k), Fib(k + 1));
    SaturateMonotone(base * Fib(k), base * Fib(k + 1));
  }

  /** Once a Fibonacci value saturates, every later one is saturated too. */
  lemma FibonacciSaturationSticky(base: Duration, j: nat, k: nat)
    requires 1 <= j <= k
    requires Saturate(base * Fib(j)) == MAX
    ensures Saturate(base * Fib(k)) == MAX
  {
    FibMonotone(j, k);
    MulMonotone(base, Fib(j), Fib(k));
  }

  // ---------------------------------------------------------------------
  // Jitter

  /**
   * Full jitter: what is drawn never exceeds the inner delay, and a pick
   * below 2^64 comes out as exactly that many milliseconds (a larger one is
   * first cut to its low 64 bits by the `as u64` cast).
   */
  lemma JitterRange(d: Duration, ms: nat)
    requires ms <= AsMillis(d)
    ensures JitterPick(ms) <= d
    ensures ms < U64_LIMIT ==> JitterPick(ms) == ms * NANOS_PER_MILLI
  {
    assert TruncateToU64(ms) * NANOS_PER_MILLI <= ms * NANOS_PER_MILLI <= AsMillis(d) * NANOS_PER_MILLI;
  }

  /** `Jitter` over `d` taken n times: n values, each at most d, then `None`. */
  lemma JitterFixedTake(d: Duration, n: nat, outs: seq<Option<Duration>>)
    requires |outs| == n + 1
    requires Admits(TakeGen(JitterGen(FixedGen(d)), n), outs)
    ensures forall j | 0 <= j < n :: outs[j].Some? && outs[j].value <= d
    ensures outs[n].None?
  {
    JitterTakeState(d, n, n);
    assert Fits(outs[n], Iterate(TakeGen(JitterGen(FixedGen(d)), n), n));
    forall j | 0 <= j < n ensures outs[j].Some? && outs[j].value <= d {
      JitterTakeState(d, n, j);
      assert Fits(outs[j], Iterate(TakeGen(JitterGen(FixedGen(d)), n), j));
      assert Nominal(JitterGen(FixedGen(d))) == Some(d);
    }
  }

  lemma {:induction false} JitterTakeState(d: Duration, n: nat, j: nat)
    requires j <= n
    ensures Iterate(TakeGen(JitterGen(FixedGen(d)), n), j) == TakeGen(JitterGen(FixedGen(d)), n - j)
  {
    if j > 0 {
      JitterTakeState(d, n, j - 1);
      var g := TakeGen(JitterGen(FixedGen(d)), n - (j - 1));
      assert Iterate(TakeGen(JitterGen(FixedGen(d)), n), j) == Advance(g);
      assert Advance(JitterGen(FixedGen(d))) == JitterGen(FixedGen(d));
    }
  }

  // ---------------------------------------------------------------------
  // The unit tests of src/backoff.rs, as sequences

  /** `ExponentialBackoff::new(100ms).take(4)`: 100, 200, 400, 800 ms, then `None`. */
  lemma ExponentialTakeFour()
    ensures Outputs(TakeGen(NewExponential(Millis(100)), 4), 5)
         == [Some(Millis(100)), Some(Millis(200)), Some(Millis(400)), Some(Millis(800)), None]
  {
    ExponentialTakeSteps(Millis(100), None);
  }

  /** With `with_max_delay(300ms)`: 100, 200, 300, 300 ms, then `None`. */
  lemma ExponentialCappedTakeFour()
    ensures Outputs(TakeGen(WithMaxDelay(NewExponential(Millis(100)), Millis(300)), 4), 5)
         == [Some(Millis(100)), Some(Millis(200)), Some(Millis(300)), Some(Millis(300)), None]
  {
    ExponentialTakeSteps(Millis(100), Some(Millis(300)));
  }

  /** The four steps of a 100 ms exponential backoff under `take(4)`. */
  lemma ExponentialTakeSteps(base: Duration, maxDelay: Option<Duration>)
    requires base == Millis(100)
    ensures Outputs(TakeGen(ExpGen(base, base, maxDelay, None, 0), 4), 5)
         == [Some(Cap(Millis(100), maxDelay)), Some(Cap(Millis(200), maxDelay)),
             Some(Cap(Millis(400), maxDelay)), Some(Cap(Millis(800), maxDelay)), None]
  {
    var g0 := TakeGen(ExpGen(base, base, maxDelay, None, 0), 4);
    var g1 := TakeGen(ExpGen(Millis(200), base, maxDelay, None, 1), 3);
    var g2 := TakeGen(ExpGen(Millis(400), base, maxDelay, None, 2), 2);
    var g3 := TakeGen(ExpGen(Millis(800), base, maxDelay, None, 3), 1);
    var g4 := TakeGen(ExpGen(Millis(1600), base, maxDelay, None, 4), 0);
    assert Advance(g0) == g1 by { assert SaturatingMul(Millis(100), 2) == Millis(200); }
    assert Advance(g1) == g2 by { assert SaturatingMul(Millis(200), 2) == Millis(400); }
    assert Advance(g2) == g3 by { assert SaturatingMul(Millis(400), 2) == Millis(800); }
    assert Advance(g3) == g4 by { assert SaturatingMul(Millis(800), 2) == Millis(1600); }
    assert Outputs(g4, 1) == [None];
    assert Nominal(g3) == Some(Cap(Millis(800), maxDelay));
    assert Outputs(g3, 2) == [Nominal(g3)] + Outputs(g4, 1);
    assert Nominal(g2) == Some(Cap(Millis(400), maxDelay));
    assert Outputs(g2, 3) == [Nominal(g2)] + Outputs(g3, 2);
    assert Nominal(g1) == Some(Cap(Millis(200), maxDelay));
    assert Outputs(g1, 4) == [Nominal(g1)] + Outputs(g2, 3);
    assert Nominal(g0) == Some(Cap(Millis(100), maxDelay));
    assert Outputs(g0, 5) == [Nominal(g0)] + Outputs(g1, 4);
  }

  /** `ExponentialBackoff::new(100ms).with_max_retries(2)`: 100, 200 ms, then `None`. */
  lemma ExponentialMaxRetriesTwo()
    ensures Outputs(WithMaxRetries(NewExponential(Millis(100)), 2), 3)
         == [Some(Millis(100)), Some(Millis(200)), None]
  {
    var g0 := ExpGen(Millis(100), Millis(100), None, Some(2), 0);
    var g1 := ExpGen(Millis(200), Millis(100), None, Some(2), 1);
    var g2 := ExpGen(Millis(400), Millis(100), None, Some(2), 2);
    assert Advance(g0) == g1 && Advance(g1) == g2;
    assert Outputs(g2, 1) == [None];
  }

  /** `FibonacciBackoff::new(1s).take(6)`: 1, 1, 2, 3, 5, 8 s, then `None`. */
  lemma FibonacciTakeSix()
    ensures Outputs(TakeGen(NewFibonacci(Secs(1)), 6), 7)
         == [Some(Secs(1)), Some(Secs(1)), Some(Secs(2)), Some(Secs(3)),
             Some(Secs(5)), Some(Secs(8)), None]
  {
    var b := Secs(1);
    var g0 := TakeGen(FibGen(b, b, None, None, 0), 6);
    var g1 := TakeGen(FibGen(b, Secs(2), None, None, 1), 5);
    var g2 := TakeGen(FibGen(Secs(2), Secs(3), None, None, 2), 4);
    var g3 := TakeGen(FibGen(Secs(3), Secs(5), None, None, 3), 3);
    var g4 := TakeGen(FibGen(Secs(5), Secs(8), None, None, 4), 2);
    var g5 := TakeGen(FibGen(Secs(8), Secs(13), None, None, 5), 1);
    var g6 := TakeGen(FibGen(Secs(13), Secs(21), None, None, 6), 0);
    assert Advance(g0) == g1 && Advance(g1) == g2 && Advance(g2) == g3;
    assert Advance(g3) == g4 && Advance(g4) == g5 && Advance(g5) == g6;
    assert Outputs(g6, 1) == [None];
    assert Outputs(g5, 2) == [Nominal(g5)] + Outputs(g6, 1);
    assert Outputs(g4, 3) == [Nominal(g4)] + Outputs(g5, 2);
    assert Outputs(g3, 4) == [Nominal(g3)] + Outputs(g4, 3);
    assert Outputs(g2, 5) == [Nominal(g2)] + Outputs(g3, 4);
    assert Outputs(g1, 6) == [Nominal(g1)] + Outputs(g2, 5);
  }

  /** `FibonacciBackoff::new(1s).with_max_retries(3)`: 1, 1, 2 s, then `None`. */
  lemma FibonacciMaxRetriesThree()
    ensures Outputs(WithMaxRetries(NewFibonacci(Secs(1)), 3), 4)
         == [Some(Secs(1)), Some(Secs(1)), Some(Secs(2)), None]
  {
    var b := Secs(1);
    var g0 := FibGen(b, b, None, Some(3), 0);
    var g1 := FibGen(b, Secs(2), None, Some(3), 1);
    var g2 := FibGen(Secs(2), Secs(3), None, Some(3), 2);
    var g3 := FibGen(Secs(3), Secs(5), None, Some(3), 3);
    assert Advance(g0) == g1 && Advance(g1) == g2 && Advance(g2) == g3;
    assert Outputs(g3, 1) == [None];
  }
}
