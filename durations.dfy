/**
 * `std::time::Duration` as a whole number of nanoseconds.
 *
 * A Rust `Duration` is a `u64` count of seconds plus fewer than 10^9
 * nanoseconds, so the largest one is `MAX` below. Every operation the
 * backoff strategies use is written out here: the saturating multiply and
 * add, `min`, and the millisecond conversions that jitter goes through.
 */
module Durations {

  const NANOS_PER_SEC: nat := 1_000_000_000
  const NANOS_PER_MILLI: nat := 1_000_000
  /** 2^64, one past the largest `u64`. */
  const U64_LIMIT: nat := 0x1_0000_0000_0000_0000
  /** `Duration::MAX`: u64::MAX seconds and 999_999_999 nanoseconds. */
  const MAX: nat := (U64_LIMIT - 1) * NANOS_PER_SEC + (NANOS_PER_SEC - 1)

  type Duration = n: nat | n <= MAX

  function Millis(ms: nat): Duration
    requires ms <= 1_000_000
  {
    ms * NANOS_PER_MILLI
  }

  function Secs(s: nat): Duration
    requires s <= 1_000_000
  {
    s * NANOS_PER_SEC
  }

  /** Clamps an exact mathematical result into the representable range. */
  function Saturate(x: nat): (r: Duration)
    ensures r <= x
    ensures r == x || r == MAX
    ensures x >= MAX <==> r == MAX
  {
    if x <= MAX then x else MAX
  }

  /** `Duration::saturating_mul`: the exact product when it fits, `MAX` otherwise. */
  function SaturatingMul(d: Duration, k: nat): (r: Duration)
    ensures d * k <= MAX ==> r == d * k
    ensures d * k > MAX ==> r == MAX
  {
    Saturate(d * k)
  }

  /** `Duration::saturating_add`. */
  function SaturatingAdd(a: Duration, b: Duration): (r: Duration)
    ensures a + b <= MAX ==> r == a + b
    ensures a + b > MAX ==> r == MAX
  {
    Saturate(a + b)
  }

  /** `Ord::min` on durations. */
  function Min(a: Duration, b: Duration): (r: Duration)
    ensures r <= a && r <= b
    ensures r == a || r == b
  {
    if a <= b then a else b
  }

  /** `Duration::as_millis`: whole milliseconds, the remainder truncated. */
  function AsMillis(d: Duration): (ms: nat)
    ensures ms * NANOS_PER_MILLI <= d < (ms + 1) * NANOS_PER_MILLI
  {
    d / NANOS_PER_MILLI
  }

  /** `Duration::from_millis` of a `u64`. */
  function FromMillis(ms: nat): (d: Duration)
    requires ms < U64_LIMIT
    ensures d == ms * NANOS_PER_MILLI
    ensures d % NANOS_PER_MILLI == 0
  {
    ms * NANOS_PER_MILLI
  }

  /** The `as u64` cast of a `u128`: keeps the low 64 bits. */
  function TruncateToU64(x: nat): (r: nat)
    ensures r < U64_LIMIT
    ensures r <= x
    ensures x < U64_LIMIT ==> r == x
  {
    x % U64_LIMIT
  }

  /**
   * Saturating twice is saturating once: doubling a clamped value gives the
   * clamp of the exact double. This is why the exponential strategy's
   * internal value can be described by a closed form.
   */
  lemma SaturatedDouble(x: nat)
    ensures SaturatingMul(Saturate(x), 2) == Saturate(2 * x)
  {
  }

  /** The same for the Fibonacci sum. */
  lemma SaturatedSum(x: nat, y: nat)
    ensures SaturatingAdd(Saturate(x), Saturate(y)) == Saturate(x + y)
  {
  }

  /** Saturation is monotone. */
  lemma SaturateMonotone(x: nat, y: nat)
    requires x <= y
    ensures Saturate(x) <= Saturate(y)
  {
  }
}
