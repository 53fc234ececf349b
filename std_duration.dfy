/** The parts of Rust's integer types and of `std::time::Duration` that the
    conversion facility relies on: the four integer widths, the
    (seconds, nanoseconds) duration value, its four `from_*` constructors,
    `u64::checked_mul` and `Duration::as_millis`.
 */
module StdDuration {

  const U64_MAX: int := 0xFFFF_FFFF_FFFF_FFFF
  const U32_MAX: int := 0xFFFF_FFFF
  const I64_MIN: int := -0x8000_0000_0000_0000
  const I64_MAX: int := 0x7FFF_FFFF_FFFF_FFFF
  const I32_MIN: int := -0x8000_0000
  const I32_MAX: int := 0x7FFF_FFFF

  type uint64 = x: int | 0 <= x <= U64_MAX
  type uint32 = x: int | 0 <= x <= U32_MAX
  type int64 = x: int | I64_MIN <= x <= I64_MAX
  type int32 = x: int | I32_MIN <= x <= I32_MAX

  const NANOS_PER_SEC: nat := 1_000_000_000
  const NANOS_PER_MILLI: nat := 1_000_000
  const NANOS_PER_MICRO: nat := 1_000
  const MILLIS_PER_SEC: nat := 1_000
  const MICROS_PER_SEC: nat := 1_000_000

  /** The sub-second part of a duration, always below one second. */
  type Nanos = n: int | 0 <= n < 1_000_000_000

  /** `std::time::Duration`: whole seconds in a `u64` plus a normalised
      nanosecond remainder. */
  datatype Duration = Duration(secs: uint64, nanos: Nanos)

  /** The largest span a `Duration` can hold, in nanoseconds. */
  const MAX_TOTAL_NANOS: int := U64_MAX * NANOS_PER_SEC + (NANOS_PER_SEC - 1)

  /** The span a duration denotes, counted in nanoseconds. */
  function TotalNanos(d: Duration): (t: nat)
    ensures t <= MAX_TOTAL_NANOS
  {
    d.secs * NANOS_PER_SEC + d.nanos
  }

  /** A duration is determined by the span it denotes. */
  lemma TotalNanosInjective(d: Duration, e: Duration)
    ensures TotalNanos(d) == TotalNanos(e) ==> d == e
  {
  }

  /** `Duration::from_secs`: exactly `s` seconds. */
  function FromSecs(s: uint64): (d: Duration)
    ensures TotalNanos(d) == s * NANOS_PER_SEC
  {
    Duration(s, 0)
  }

  /** `Duration::from_millis`: exactly `ms` milliseconds, split into seconds
      and a nanosecond remainder; no input is out of range. */
  function FromMillis(ms: uint64): (d: Duration)
    ensures TotalNanos(d) == ms * NANOS_PER_MILLI
  {
    Duration(ms / MILLIS_PER_SEC, (ms % MILLIS_PER_SEC) * NANOS_PER_MILLI)
  }

  /** `Duration::from_micros`: exactly `us` microseconds. */
  function FromMicros(us: uint64): (d: Duration)
    ensures TotalNanos(d) == us * NANOS_PER_MICRO
  {
    Duration(us / MICROS_PER_SEC, (us % MICROS_PER_SEC) * NANOS_PER_MICRO)
  }

  /** `Duration::from_nanos`: exactly `ns` nanoseconds. */
  function FromNanos(ns: uint64): (d: Duration)
    ensures TotalNanos(d) == ns
  {
    Duration(ns / NANOS_PER_SEC, ns % NANOS_PER_SEC)
  }

  /** `Duration::as_millis`: the whole milliseconds in a duration (a `u128`
      in Rust, so unbounded here). */
  function AsMillis(d: Duration): (ms: nat)
    ensures ms * NANOS_PER_MILLI <= TotalNanos(d) < (ms + 1) * NANOS_PER_MILLI
  {
    d.secs * MILLIS_PER_SEC + d.nanos / NANOS_PER_MILLI
  }

  /** `u64::checked_mul`: the exact product, or `None` when it does not fit
      in a `u64`; by a non-zero `b` it succeeds exactly up to `u64::MAX / b`. */
  function CheckedMul(a: uint64, b: uint64): (r: Option<uint64>)
    ensures r.Some? ==> r.value == a * b
    ensures b == 0 ==> r == Some(0)
    ensures b > 0 ==> (r.Some? <==> a <= U64_MAX / b)
  {
    if b > 0 then MulFitsThreshold(a, b); if a * b <= U64_MAX then Some(a * b) else None
    else Some(0)
  }

  /** A product by a non-zero `b` fits in a `u64` exactly up to `u64::MAX / b`. */
  lemma MulFitsThreshold(a: uint64, b: uint64)
    requires b > 0
    ensures a * b <= U64_MAX <==> a <= U64_MAX / b
  {
    var q := U64_MAX / b;
    assert U64_MAX == q * b + U64_MAX % b;
    if a <= q {
      MulMonotonic(a, q, b);
    } else {
      MulMonotonic(q + 1, a, b);
      assert (q + 1) * b == q * b + b;
    }
  }

  lemma MulMonotonic(x: int, y: int, k: nat)
    requires x <= y
    ensures x * k <= y * k
  {
    assert y * k - x * k == (y - x) * k;
  }

  datatype Option<+T> = None | Some(value: T)
}
