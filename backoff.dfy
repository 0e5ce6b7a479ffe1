/**
 * The backoff strategies of `src/backoff.rs` as objects updated in place.
 *
 * Each Rust struct is a class with the same fields; each `next(&mut self)`
 * is a method `Next` whose contract ties the new state to
 * `BackoffSpec.Advance` of the old state and the result to
 * `BackoffSpec.Nominal`. Rust's `Backoff` trait (any iterator over
 * durations) is the datatype `Strategy` below, one case per kind of
 * generator; `NextOf` dispatches on it. `Take` is the standard
 * `Iterator::take(n)` adapter the tests and documentation rely on.
 *
 * `Jitter` and `Take` own their inner strategy, as in Rust, through a
 * `const` field; each carries a ghost `depth` one above its inner
 * strategy's, which makes the chain finite and acyclic.
 */
module Backoff {
  import opened Wrappers
  import opened Durations
  import opened BackoffSpec
  import BackoffProofs

  /** The generator interface: anything whose `next()` yields `Option<Duration>`. */
  datatype Strategy =
    | Fixed(fixed: FixedDelay)
    | Exponential(exponential: ExponentialBackoff)
    | Fibonacci(fibonacci: FibonacciBackoff)
    | Jittered(jitter: Jitter)
    | Limited(take: Take)

  /** Nesting depth of the chain: 0 for the three base strategies. */
  ghost function Depth(s: Strategy): nat {
    match s
    case Jittered(j) => j.depth
    case Limited(t) => t.depth
    case _ => 0
  }

  /** The objects whose fields `next()` may change. */
  ghost function Repr(s: Strategy): set<object> {
    match s
    case Fixed(_) => {}
    case Exponential(e) => {e}
    case Fibonacci(f) => {f}
    case Jittered(j) => j.footprint
    case Limited(t) => t.footprint
  }

  /**
   * The chain is finite, each decorator's footprint is that of what it
   * wraps, and a `Take` counter is not shared with what it wraps.
   */
  ghost predicate WellFormed(s: Strategy)
    decreases Depth(s)
  {
    match s
    case Jittered(j) =>
      Depth(j.inner) < j.depth && j.footprint == Repr(j.inner) && WellFormed(j.inner)
    case Limited(t) =>
      Depth(t.inner) < t.depth && t.footprint == {t} + Repr(t.inner) && t !in Repr(t.inner) &&
      WellFormed(t.inner)
    case _ => true
  }

  /** The abstract state of the whole chain. */
  ghost function Model(s: Strategy): Gen
    requires WellFormed(s)
    reads Repr(s)
    decreases Depth(s)
  {
    match s
    case Fixed(f) => f.State()
    case Exponential(e) => e.State()
    case Fibonacci(f) => f.State()
    case Jittered(j) => JitterGen(Model(j.inner))
    case Limited(t) => TakeGen(Model(t.inner), t.n)
  }

  /** One call of `next()` on any strategy. */
  method NextOf(s: Strategy) returns (r: Option<Duration>)
    requires WellFormed(s)
    modifies Repr(s)
    ensures Fits(r, old(Model(s)))
    ensures Model(s) == Advance(old(Model(s)))
    decreases Depth(s), 1
  {
    match s
    case Fixed(f) => r := f.Next();
    case Exponential(e) => r := e.Next();
    case Fibonacci(f) => r := f.Next();
    case Jittered(j) => ghost var drawn; r, drawn := j.Next();
    case Limited(t) => r := t.Next();
  }

  /** `FixedDelay`: the same duration forever. */
  class FixedDelay {
    const duration: Duration

    ghost function State(): Gen {
      FixedGen(duration)
    }

    /** `FixedDelay::new`. */
    constructor (duration: Duration)
      ensures this.duration == duration
      ensures State() == FixedGen(duration)
    {
      this.duration := duration;
    }

    /** Always `Some(duration)`; changes nothing. */
    method Next() returns (r: Option<Duration>)
      ensures r == Some(duration)
      ensures r == Nominal(State()) && Advance(State()) == State()
    {
      r := Some(duration);
    }
  }

  /** `ExponentialBackoff`: the internal delay doubles on every successful call. */
  class ExponentialBackoff {
    var current: Duration
    const base: Duration
    var maxDelay: Option<Duration>
    var maxRetries: Option<nat>
    var attempt: nat

    ghost function State(): Gen
      reads this
    {
      ExpGen(current, base, maxDelay, maxRetries, attempt)
    }

    /** `ExponentialBackoff::new(base_delay)`: no cap, no limit, no attempts yet. */
    constructor (baseDelay: Duration)
      ensures State() == NewExponential(baseDelay)
    {
      current := baseDelay;
      base := baseDelay;
      maxDelay := None;
      maxRetries := None;
      attempt := 0;
    }

    /** `with_max_delay`: sets the cap and nothing else. */
    method WithMaxDelay(d: Duration)
      modifies this
      ensures State() == BackoffSpec.WithMaxDelay(old(State()), d)
    {
      maxDelay := Some(d);
    }

    /** `with_max_retries`: sets the limit and nothing else. */
    method WithMaxRetries(m: nat)
      modifies this
      ensures State() == BackoffSpec.WithMaxRetries(old(State()), m)
    {
      maxRetries := Some(m);
    }

    /**
     * `next()`: the limit is checked before `attempt` moves, so an exhausted
     * call changes nothing; otherwise the capped current value is returned
     * and the uncapped one doubles, saturating.
     */
    method Next() returns (r: Option<Duration>)
      modifies this
      ensures r == Nominal(old(State()))
      ensures State() == Advance(old(State()))
      ensures LimitReached(old(maxRetries), old(attempt)) ==> r.None? && unchanged(this)
      ensures !LimitReached(old(maxRetries), old(attempt)) ==>
                r == Some(Cap(old(current), maxDelay)) && attempt == old(attempt) + 1 &&
                current == SaturatingMul(old(current), 2)
    {
      if maxRetries.Some? && attempt >= maxRetries.value {
        return None;
      }
      attempt := attempt + 1;
      var delay := current;
      if maxDelay.Some? {
        delay := Min(delay, maxDelay.value);
      }
      current := SaturatingMul(current, 2);
      r := Some(delay);
    }
  }

  /** `FibonacciBackoff`: the pair (current, next) shifts along the Fibonacci sums. */
  class FibonacciBackoff {
    var current: Duration
    var next: Duration
    var maxDelay: Option<Duration>
    var maxRetries: Option<nat>
    var attempt: nat

    ghost function State(): Gen
      reads this
    {
      FibGen(current, next, maxDelay, maxRetries, attempt)
    }

    /** `FibonacciBackoff::new(base_delay)`: both slots start at the base. */
    constructor (baseDelay: Duration)
      ensures State() == NewFibonacci(baseDelay)
    {
      current := baseDelay;
      next := baseDelay;
      maxDelay := None;
      maxRetries := None;
      attempt := 0;
    }

    /** `with_max_delay`: sets the cap and nothing else. */
    method WithMaxDelay(d: Duration)
      modifies this
      ensures State() == BackoffSpec.WithMaxDelay(old(State()), d)
    {
      maxDelay := Some(d);
    }

    /** `with_max_retries`: sets the limit and nothing else. */
    method WithMaxRetries(m: nat)
      modifies this
      ensures State() == BackoffSpec.WithMaxRetries(old(State()), m)
    {
      maxRetries := Some(m);
    }

    /** `next()`: the same limit check as the exponential strategy, then a saturating shift. */
    method Next() returns (r: Option<Duration>)
      modifies this
      ensures r == Nominal(old(State()))
      ensures State() == Advance(old(State()))
      ensures LimitReached(old(maxRetries), old(attempt)) ==> r.None? && unchanged(this)
      ensures !LimitReached(old(maxRetries), old(attempt)) ==>
                r == Some(Cap(old(current), maxDelay)) && attempt == old(attempt) + 1 &&
                current == old(next) && next == SaturatingAdd(old(current), old(next))
    {
      if maxRetries.Some? && attempt >= maxRetries.value {
        return None;
      }
      attempt := attempt + 1;
      var delay := current;
      if maxDelay.Some? {
        delay := Min(delay, maxDelay.value);
      }
      var newNext := SaturatingAdd(current, next);
      current := next;
      next := newNext;
      r := Some(delay);
    }
  }

  /** `Jitter`: full jitter over any strategy; no state of its own. */
  class Jitter {
    const inner: Strategy
    ghost const depth: nat
    ghost const footprint: set<object>

    /** `Jitter::new(inner)`. */
    constructor (inner: Strategy)
      requires WellFormed(inner)
      ensures this.inner == inner
      ensures WellFormed(Jittered(this)) && Repr(Jittered(this)) == Repr(inner)
      ensures Model(Jittered(this)) == JitterGen(Model(inner))
    {
      this.inner := inner;
      depth := Depth(inner) + 1;
      footprint := Repr(inner);
    }

    /**
     * `next()`: `None` exactly when the inner strategy is exhausted; otherwise
     * a whole number of milliseconds, chosen freely in `0..=d.as_millis()`
     * for the inner delay `d`, so never more than `d`.
     */
    method Next() returns (r: Option<Duration>, ghost drawn: Option<Duration>)
      requires WellFormed(Jittered(this))
      modifies Repr(Jittered(this))
      ensures Fits(drawn, old(Model(inner)))
      ensures r.None? <==> drawn.None?
      ensures r.Some? ==> r.value <= drawn.value && r.value % NANOS_PER_MILLI == 0
      ensures Fits(r, old(Model(Jittered(this))))
      ensures Model(Jittered(this)) == Advance(old(Model(Jittered(this))))
      decreases depth, 0
    {
      var delay := NextOf(inner);
      drawn := delay;
      if delay.None? {
        return None, drawn;
      }
      var d := delay.value;
      var pick :| 0 <= pick <= AsMillis(d);
      BackoffProofs.JitterRange(d, pick);
      r := Some(JitterPick(pick));
    }
  }

  /** `Iterator::take(n)`: the first `n` answers of the inner strategy, then `None`. */
  class Take {
    const inner: Strategy
    var n: nat
    ghost const depth: nat
    ghost const footprint: set<object>

    /** `inner.take(n)`. */
    constructor (inner: Strategy, n: nat)
      requires WellFormed(inner)
      ensures this.inner == inner && this.n == n
      ensures WellFormed(Limited(this)) && Repr(Limited(this)) == {this} + Repr(inner)
      ensures Model(Limited(this)) == TakeGen(Model(inner), n)
    {
      this.inner := inner;
      this.n := n;
      depth := Depth(inner) + 1;
      footprint := {this} + Repr(inner);
    }

    /** `next()`: counts down, then asks the inner strategy; at zero answers `None` without asking. */
    method Next() returns (r: Option<Duration>)
      requires WellFormed(Limited(this))
      modifies Repr(Limited(this))
      ensures old(n) == 0 ==> r.None? && n == 0
      ensures old(n) > 0 ==> n == old(n) - 1
      ensures Fits(r, old(Model(Limited(this))))
      ensures Model(Limited(this)) == Advance(old(Model(Limited(this))))
      decreases depth, 0
    {
      if n == 0 {
        return None;
      }
      n := n - 1;
      r := NextOf(inner);
    }
  }
}
