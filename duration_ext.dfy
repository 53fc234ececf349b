/** The `DurationExt` conversions: an integer count of one of eight time units
    becomes a `Duration`, for the four integer widths `u64`, `u32`, `i64` and
    `i32`. Where the source panics (a negative signed count, a product of
    whole seconds that does not fit in a `u64`) the model returns an error
    naming the unit.
 */
module DurationExt {
  import opened StdDuration

  /** The eight unit-named operations of the extension. */
  datatype Unit =
    | Seconds | Minutes | Hours | Days | Weeks
    | Milliseconds | Microseconds | Nanoseconds
  {
    /** The units whose count is multiplied into seconds with `checked_mul`. */
    predicate Multiplied() {
      Minutes? || Hours? || Days? || Weeks?
    }
  }

  /** The two panics of the source: a negative signed count, and a second
      count that overflows `u64`. */
  datatype Error = Negative(unit: Unit) | Overflow(unit: Unit)

  datatype Result = Ok(value: Duration) | Err(error: Error)

  /** The unit relations the crate documents: an hour is 60 minutes, a day
      is 24 hours, a week is 7 days. */
  const NANOS_PER_MINUTE: nat := 60 * NANOS_PER_SEC
  const NANOS_PER_HOUR: nat := 60 * NANOS_PER_MINUTE
  const NANOS_PER_DAY: nat := 24 * NANOS_PER_HOUR
  const NANOS_PER_WEEK: nat := 7 * NANOS_PER_DAY

  /** Reference table: one unit expressed in nanoseconds, built from the
      relations between units rather than from the multipliers. */
  function NanosPer(u: Unit): (r: nat) {
    match u
    case Seconds => NANOS_PER_SEC
    case Minutes => NANOS_PER_MINUTE
    case Hours => NANOS_PER_HOUR
    case Days => NANOS_PER_DAY
    case Weeks => NANOS_PER_WEEK
    case Milliseconds => NANOS_PER_MILLI
    case Microseconds => NANOS_PER_MICRO
    case Nanoseconds => 1
  }

  /** The seconds-per-unit multiplier shared by every width. */
  function Multiplier(u: Unit): (k: uint64)
    requires u.Multiplied()
    ensures k * NANOS_PER_SEC == NanosPer(u)
  {
    match u
    case Minutes => 60
    case Hours => 3_600
    case Days => 86_400
    case Weeks => 604_800
  }

  /** Rust's `as u64` on a signed integer: two's complement reinterpretation
      (sign extension first for `i32`). */
  function AsU64(n: int64): (r: uint64)
    ensures n >= 0 ==> r == n
    ensures n < 0 ==> r == n + U64_MAX + 1
  {
    n % (U64_MAX + 1)
  }

  /** `impl DurationExt for u64`: succeeds exactly when the requested span
      fits in a `Duration`, and then denotes exactly that span; the only
      failure is an overflow of the unit's second count. */
  function ConvertU64(n: uint64, u: Unit): (r: Result)
    ensures r.Ok? <==> n * NanosPer(u) <= MAX_TOTAL_NANOS
    ensures r.Ok? ==> TotalNanos(r.value) == n * NanosPer(u)
    ensures r.Err? ==> r.error == Overflow(u)
  {
    match u
    case Seconds => Ok(FromSecs(n))
    case Minutes | Hours | Days | Weeks =>
      (match CheckedMul(n, Multiplier(u))
       case None => Err(Overflow(u))
       case Some(secs) => Ok(FromSecs(secs)))
    case Milliseconds => Ok(FromMillis(n))
    case Microseconds => Ok(FromMicros(n))
    case Nanoseconds => Ok(FromNanos(n))
  }

  /** `impl DurationExt for u32`: the count is widened to `u64` first, and
      no 32-bit count overflows any unit. */
  function ConvertU32(n: uint32, u: Unit): (r: Result)
    ensures r.Ok?
    ensures TotalNanos(r.value) == n * NanosPer(u)
  {
    ConvertU64(n, u)
  }

  /** `impl DurationExt for i64`: a negative count is rejected before any
      multiplication; otherwise the count is cast to `u64` and converted. */
  function ConvertI64(n: int64, u: Unit): (r: Result)
    ensures r == Err(Negative(u)) <==> n < 0
    ensures r.Ok? <==> 0 <= n && n * NanosPer(u) <= MAX_TOTAL_NANOS
    ensures r.Ok? ==> TotalNanos(r.value) == n * NanosPer(u)
    ensures r.Err? ==> r.error.unit == u
  {
    if n < 0 then Err(Negative(u)) else ConvertU64(AsU64(n), u)
  }

  /** `impl DurationExt for i32`: a negative count is rejected; every
      non-negative count succeeds. */
  function ConvertI32(n: int32, u: Unit): (r: Result)
    ensures r == Err(Negative(u)) <==> n < 0
    ensures r.Ok? <==> n >= 0
    ensures r.Ok? ==> TotalNanos(r.value) == n * NanosPer(u)
  {
    if n < 0 then Err(Negative(u)) else ConvertU64(AsU64(n), u)
  }

  /** Minutes, hours, days and weeks of a `u64` succeed exactly when the
      product with the multiplier fits in a `u64`, giving that many whole
      seconds and no nanoseconds. */
  lemma MultipliedUnitExact(n: uint64, u: Unit)
    requires u.Multiplied()
    ensures ConvertU64(n, u).Ok? <==> n * Multiplier(u) <= U64_MAX
    ensures ConvertU64(n, u).Ok? ==> ConvertU64(n, u).value == Duration(n * Multiplier(u), 0)
  {
  }

  /** The overflow threshold of a multiplied unit is `u64::MAX / k`. */
  lemma OverflowThreshold(n: uint64, u: Unit)
    requires u.Multiplied()
    ensures ConvertU64(n, u).Ok? <==> n <= U64_MAX / Multiplier(u)
  {
  }

  /** Every `u64` count of `u` up to `t` converts, and every larger one
      overflows. */
  ghost predicate OverflowsAbove(u: Unit, t: uint64) {
    forall n: uint64 :: ConvertU64(n, u).Ok? <==> n <= t
  }

  /** Each multiplied unit has the single overflow threshold
      `u64::MAX / k < u64::MAX`: every count up to it converts and every
      larger count overflows. */
  lemma OverflowThresholdExact(u: Unit)
    requires u.Multiplied()
    ensures U64_MAX / Multiplier(u) < U64_MAX
    ensures OverflowsAbove(u, U64_MAX / Multiplier(u))
  {
    var t := U64_MAX / Multiplier(u);
    forall n: uint64
      ensures ConvertU64(n, u).Ok? <==> n <= t
    {
      OverflowThreshold(n, u);
    }
    assert OverflowsAbove(u, t);
  }

  /** `u64::MAX / k` is the only such threshold: a bound that splits the
      converting counts from the overflowing ones is exactly it. */
  lemma OverflowThresholdUnique(u: Unit, t: uint64)
    requires u.Multiplied() && OverflowsAbove(u, t)
    ensures t == U64_MAX / Multiplier(u)
  {
    OverflowThreshold(t, u);
    OverflowThreshold(U64_MAX / Multiplier(u), u);
  }

  /** `u64::MAX / 60` minutes is the largest count that converts; one more
      overflows, for a `u64` and for an `i64` of the same value alike. */
  lemma MinutesBoundary()
    ensures ConvertU64(U64_MAX / 60, Minutes).Ok?
    ensures ConvertU64(U64_MAX / 60 + 1, Minutes) == Err(Overflow(Minutes))
    ensures ConvertI64(U64_MAX / 60, Minutes).Ok?
    ensures ConvertI64(U64_MAX / 60 + 1, Minutes) == Err(Overflow(Minutes))
  {
  }

  /** Five `u64` minutes are 300 seconds; ten `i64` minutes are 600 seconds. */
  lemma SmallCounts()
    ensures ConvertU64(5, Minutes) == Ok(FromSecs(300))
    ensures ConvertI64(10, Minutes) == Ok(FromSecs(600))
  {
  }

  /** `seconds` on a `u64` or a `u32` never fails and yields exactly `n`
      seconds. */
  lemma SecondsNeverFail(n: uint64)
    ensures ConvertU64(n, Seconds) == Ok(Duration(n, 0))
    ensures n <= U32_MAX ==> ConvertU32(n, Seconds) == Ok(Duration(n, 0))
  {
  }

  /** Every operation on a negative `i64` or `i32` reports the negative-input
      error for that unit, never an overflow. */
  lemma NegativeRejected(n: int64, u: Unit)
    requires n < 0
    ensures ConvertI64(n, u) == Err(Negative(u))
    ensures n >= I32_MIN ==> ConvertI32(n, u) == Err(Negative(u))
  {
  }

  /** An overflow is only ever reported for a non-negative signed count: the
      sign check runs first. */
  lemma SignCheckedFirst(n: int64, u: Unit)
    ensures ConvertI64(n, u) == Err(Overflow(u)) ==> n >= 0
  {
  }

  /** A `u32` count converts like the same `u64` count; a non-negative `i64`
      or `i32` count converts like its `u64` cast. */
  lemma CrossWidthAgree(n: int64, u: Unit)
    requires n >= 0
    ensures n <= U32_MAX ==> ConvertU32(n, u) == ConvertU64(n, u)
    ensures ConvertI64(n, u) == ConvertU64(AsU64(n), u)
    ensures n <= I32_MAX ==> ConvertI32(n, u) == ConvertI64(n, u)
  {
    // Both sides succeed or fail together and then denote the same span,
    // which determines the duration.
    var r := ConvertI64(n, u);
    if r.Ok? {
      TotalNanosInjective(r.value, ConvertU64(n, u).value);
      if n <= U32_MAX {
        TotalNanosInjective(ConvertU32(n, u).value, ConvertU64(n, u).value);
      }
      if n <= I32_MAX {
        TotalNanosInjective(ConvertI32(n, u).value, r.value);
      }
    }
  }

  /** The sub-second units never fail on a `u64`; a count of milliseconds
      reads back as the same count. */
  lemma SubSecondNeverFail(n: uint64)
    ensures ConvertU64(n, Milliseconds).Ok?
    ensures AsMillis(ConvertU64(n, Milliseconds).value) == n
    ensures ConvertU64(n, Microseconds).Ok?
    ensures TotalNanos(ConvertU64(n, Microseconds).value) == n * NANOS_PER_MICRO
    ensures ConvertU64(n, Nanoseconds) == Ok(FromNanos(n))
  {
  }

  /** `u64::MAX` milliseconds converts to a non-zero duration. */
  lemma MaxMillisNonZero()
    ensures ConvertU64(U64_MAX, Milliseconds).Ok?
    ensures AsMillis(ConvertU64(U64_MAX, Milliseconds).value) > 0
  {
  }
}
