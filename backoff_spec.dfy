/**
 * The abstract state of every backoff strategy, and one step of it.
 *
 * `Gen` is the value a strategy object holds: the fields of the Rust
 * structs `FixedDelay`, `ExponentialBackoff` and `FibonacciBackoff`, the
 * `Jitter` decorator (which has no state of its own) and the standard
 * `Take` adapter (a countdown). `Nominal(g)` is what `next()` returns in
 * state `g` when no jitter is involved, and an upper bound when it is;
 * `Advance(g)` is the state after the call. The classes in module Backoff
 * are proved to implement these two functions, and the lemmas in module
 * BackoffProofs derive the closed forms from them.
 */
module BackoffSpec {
  import opened Wrappers
  import opened Durations

  datatype Gen =
    | FixedGen(duration: Duration)
    | ExpGen(current: Duration, base: Duration, maxDelay: Option<Duration>,
             maxRetries: Option<nat>, attempt: nat)
    | FibGen(current: Duration, next: Duration, maxDelay: Option<Duration>,
             maxRetries: Option<nat>, attempt: nat)
    | JitterGen(inner: Gen)
    | TakeGen(inner: Gen, n: nat)

  /** `Some(delay)` when `max_delay` is set: the emitted value is `delay.min(max_delay)`. */
  function Cap(d: Duration, maxDelay: Option<Duration>): (r: Duration)
    ensures r <= d
    ensures maxDelay.Some? ==> r <= maxDelay.value
    ensures maxDelay.None? ==> r == d
    ensures maxDelay.Some? ==> r == d || r == maxDelay.value
  {
    if maxDelay.Some? then Min(d, maxDelay.value) else d
  }

  /** The retry limit is checked against the counter before the counter moves. */
  predicate LimitReached(maxRetries: Option<nat>, attempt: nat) {
    maxRetries.Some? && attempt >= maxRetries.value
  }

  /** A fresh `ExponentialBackoff::new(base)`. */
  function NewExponential(base: Duration): (g: Gen)
    ensures Nominal(g) == Some(base) && Capacity(g).None? && Deterministic(g)
  {
    ExpGen(base, base, None, None, 0)
  }

  /** A fresh `FibonacciBackoff::new(base)`. */
  function NewFibonacci(base: Duration): (g: Gen)
    ensures Nominal(g) == Some(base) && Capacity(g).None? && Deterministic(g)
  {
    FibGen(base, base, None, None, 0)
  }

  /** `with_max_delay` on either counting strategy; other states are left alone. */
  function WithMaxDelay(g: Gen, d: Duration): (r: Gen)
    ensures (g.ExpGen? || g.FibGen?) ==>
              Capacity(r) == Capacity(g) && Nominal(r).None? == Nominal(g).None? &&
              (Nominal(r).Some? ==> Nominal(r).value <= d)
    ensures !(g.ExpGen? || g.FibGen?) ==> r == g
  {
    if g.ExpGen? || g.FibGen? then g.(maxDelay := Some(d)) else g
  }

  /** `with_max_retries` on either counting strategy. */
  function WithMaxRetries(g: Gen, m: nat): (r: Gen)
    ensures (g.ExpGen? || g.FibGen?) && g.attempt == 0 ==>
              Capacity(r) == Some(m) && (Nominal(r).None? <==> m == 0)
    ensures !(g.ExpGen? || g.FibGen?) ==> r == g
  {
    if g.ExpGen? || g.FibGen? then g.(maxRetries := Some(m)) else g
  }

  /** The value `next()` yields in state `g` (before jitter). */
  function Nominal(g: Gen): Option<Duration> {
    match g
    case FixedGen(d) => Some(d)
    case ExpGen(current, _, maxDelay, maxRetries, attempt) =>
      if LimitReached(maxRetries, attempt) then None else Some(Cap(current, maxDelay))
    case FibGen(current, _, maxDelay, maxRetries, attempt) =>
      if LimitReached(maxRetries, attempt) then None else Some(Cap(current, maxDelay))
    case JitterGen(inner) => Nominal(inner)
    case TakeGen(inner, n) => if n == 0 then None else Nominal(inner)
  }

  /** The state after one call of `next()` in state `g`. */
  function Advance(g: Gen): Gen {
    match g
    case FixedGen(_) => g
    case ExpGen(current, base, maxDelay, maxRetries, attempt) =>
      if LimitReached(maxRetries, attempt) then g
      else ExpGen(SaturatingMul(current, 2), base, maxDelay, maxRetries, attempt + 1)
    case FibGen(current, next, maxDelay, maxRetries, attempt) =>
      if LimitReached(maxRetries, attempt) then g
      else FibGen(next, SaturatingAdd(current, next), maxDelay, maxRetries, attempt + 1)
    case JitterGen(inner) => JitterGen(Advance(inner))
    case TakeGen(inner, n) => if n == 0 then g else TakeGen(Advance(inner), n - 1)
  }

  /** The state after `k` calls of `next()`. */
  function Iterate(g: Gen, k: nat): Gen {
    if k == 0 then g else Advance(Iterate(g, k - 1))
  }

  /** What the first `k` calls yield when no jitter is involved. */
  function Outputs(g: Gen, k: nat): seq<Option<Duration>>
    decreases k
  {
    if k == 0 then [] else [Nominal(g)] + Outputs(Advance(g), k - 1)
  }

  /** How many more values `g` yields before it is exhausted; `None` when unbounded. */
  function Capacity(g: Gen): Option<nat> {
    match g
    case FixedGen(_) => None
    case ExpGen(_, _, _, maxRetries, attempt) =>
      if maxRetries.None? then None
      else Some(if attempt >= maxRetries.value then 0 else maxRetries.value - attempt)
    case FibGen(_, _, _, maxRetries, attempt) =>
      if maxRetries.None? then None
      else Some(if attempt >= maxRetries.value then 0 else maxRetries.value - attempt)
    case JitterGen(inner) => Capacity(inner)
    case TakeGen(inner, n) =>
      var c := Capacity(inner);
      Some(if c.Some? && c.value < n then c.value else n)
  }

  /** One value less, exhaustion staying exhaustion. */
  function Consume(c: Option<nat>): Option<nat> {
    if c.None? then None else Some(if c.value == 0 then 0 else c.value - 1)
  }

  /** No jitter anywhere in the chain: `next()` yields exactly `Nominal`. */
  predicate Deterministic(g: Gen) {
    match g
    case JitterGen(_) => false
    case TakeGen(inner, _) => Deterministic(inner)
    case _ => true
  }

  /**
   * `o` is a value `next()` may return in state `g`: exhausted exactly when
   * the un-jittered chain is, never above the nominal value, and equal to it
   * when no jitter is involved.
   */
  predicate Fits(o: Option<Duration>, g: Gen) {
    (o.None? <==> Nominal(g).None?) &&
    (o.Some? && Nominal(g).Some? ==> o.value <= Nominal(g).value) &&
    (Deterministic(g) ==> o == Nominal(g))
  }

  /** `outs` is a sequence of answers that successive calls of `next()` from `g` may give. */
  predicate Admits(g: Gen, outs: seq<Option<Duration>>) {
    forall j | 0 <= j < |outs| :: Fits(outs[j], Iterate(g, j))
  }

  /** 2^k. */
  function Pow2(k: nat): (r: nat)
    ensures r >= 1
  {
    if k == 0 then 1 else 2 * Pow2(k - 1)
  }

  /** The Fibonacci numbers, Fib(1) == Fib(2) == 1. */
  function Fib(k: nat): nat {
    if k == 0 then 0 else if k == 1 then 1 else Fib(k - 1) + Fib(k - 2)
  }

  /** The k-th delay (k >= 1) of an exponential backoff: base * 2^(k-1), saturated, then capped. */
  function ExponentialDelay(base: Duration, maxDelay: Option<Duration>, k: nat): Duration
    requires k >= 1
  {
    Cap(Saturate(base * Pow2(k - 1)), maxDelay)
  }

  /** The k-th delay (k >= 1) of a Fibonacci backoff: base * Fib(k), saturated, then capped. */
  function FibonacciDelay(base: Duration, maxDelay: Option<Duration>, k: nat): Duration
    requires k >= 1
  {
    Cap(Saturate(base * Fib(k)), maxDelay)
  }

  /** The full-jitter pick: `Duration::from_millis(pick as u64)` for `pick` in `0..=as_millis()`. */
  function JitterPick(pick: nat): (d: Duration)
    ensures d % NANOS_PER_MILLI == 0
  {
    FromMillis(TruncateToU64(pick))
  }
}
