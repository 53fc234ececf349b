# duration-extender, modelled in Dafny

`duration-extender` adds unit-named conversions to Rust's integer types: for a
count `n` of type `u64`, `u32`, `i64` or `i32`, `n.seconds()`, `n.minutes()`,
`n.hours()`, `n.days()`, `n.weeks()`, `n.milliseconds()`, `n.microseconds()`
and `n.nanoseconds()` each build a `std::time::Duration`. Signed counts must
not be negative. Minutes, hours, days and weeks multiply the count by a fixed
number of seconds (60, 3600, 86400, 604800) with `u64::checked_mul`, and a
product that does not fit in a `u64` is an error. Both conditions panic in
the source.

The model has two modules:

- `StdDuration` (`std_duration.dfy`) holds what the extension relies on from
  Rust and its standard library. It has the four integer widths as bounded
  subset types of `int` and `Duration` as a `(secs: u64, nanos < 10^9)` value.
  It also has the constructors `from_secs`, `from_millis`, `from_micros` and
  `from_nanos`, plus `checked_mul` and `as_millis`. `TotalNanos` gives the
  span a duration denotes, and each constructor's contract says which span
  it builds.
- `DurationExt` (`duration_ext.dfy`) holds the extension itself. The eight
  trait methods are one function per integer width, with a `Unit` argument.
  A panic becomes a result: `Err(Negative(unit))` or `Err(Overflow(unit))`.
  `Multiplier` is the seconds-per-unit table that every width shares.
  `NanosPer` is a separate reference table: one unit in nanoseconds, built
  from the relations the crate documents (a minute is 60 seconds, an hour 60
  minutes, a day 24 hours at src/lib.rs:34, a week 7 days at src/lib.rs:39).
  The contracts of the conversions are stated against `NanosPer`.

The central contract is the one on `ConvertU64`. A conversion succeeds exactly
when `n · NanosPer(unit)` is at most the largest span a `Duration` holds. When
it succeeds, the result denotes exactly that span. Otherwise the error is the
overflow of that unit. The other widths are stated the same way. A negative
signed count fails with the negative-input error of the unit called.

## Model

| member | source | states |
|---|---|---|
| `DurationExt.ConvertU64` | src/lib.rs:53-93 | succeeds iff `n` units fit in a `Duration`; the result then spans exactly `n` units; the only error is `Overflow(unit)` |
| `DurationExt.ConvertU32` | src/lib.rs:95-135 | every `u32` count converts, for every unit, to exactly `n` units |
| `DurationExt.ConvertI64` | src/lib.rs:137-185 | `Negative(unit)` exactly for negative counts; success iff the count is non-negative and fits; result spans exactly `n` units; errors name the unit called |
| `DurationExt.ConvertI32` | src/lib.rs:187-235 | `Negative(unit)` exactly for negative counts; every non-negative count converts to exactly `n` units |
| `DurationExt.Multiplier` | src/lib.rs:58-80 | the seconds-per-unit constants 60, 3600, 86400, 604800 agree with the documented unit relations (60 s, 60 min, 24 h, 7 days) |
| `DurationExt.AsU64` | src/lib.rs:140 | `as u64` on a signed count keeps a non-negative value and wraps a negative one by 2^64 |
| `StdDuration.FromSecs` | src/lib.rs:54-56 | `Duration::from_secs(s)` spans exactly `s` seconds |
| `StdDuration.FromMillis` | src/lib.rs:82-84 | `Duration::from_millis(ms)` spans exactly `ms` milliseconds, for every `u64` |
| `StdDuration.FromMicros` | src/lib.rs:86-88 | `Duration::from_micros(us)` spans exactly `us` microseconds, for every `u64` |
| `StdDuration.FromNanos` | src/lib.rs:90-92 | `Duration::from_nanos(ns)` spans exactly `ns` nanoseconds, for every `u64` |
| `StdDuration.AsMillis` | src/lib.rs:284-290 | `as_millis` is the number of whole milliseconds in the span, rounded down |
| `StdDuration.CheckedMul` | src/lib.rs:59-60 | `checked_mul` returns the exact product when it succeeds, and by a non-zero `k` succeeds exactly for counts up to `u64::MAX / k` |
| `DurationExt.MultipliedUnitExact` | src/lib.rs:58-80 | a multiplied unit on a `u64` succeeds iff `n·k ≤ u64::MAX`, and then gives `n·k` seconds and zero nanoseconds |
| `DurationExt.OverflowThreshold` | src/lib.rs:58-80 | a multiplied unit on a `u64` succeeds iff `n ≤ u64::MAX / k` |
| `DurationExt.OverflowThresholdExact` | src/lib.rs:58-80 | for minutes, hours, days and weeks, `u64::MAX / k` is below `u64::MAX`, every `u64` count up to it converts and every larger count overflows |
| `DurationExt.OverflowThresholdUnique` | src/lib.rs:243-246 | any bound that splits converting counts from overflowing ones is exactly `u64::MAX / k`, the largest count that fits |
| `DurationExt.MinutesBoundary` | src/lib.rs:244-281 | `u64::MAX / 60` minutes converts and one more overflows, for `u64` and for `i64` alike |
| `DurationExt.SmallCounts` | src/lib.rs:248-267 | 5 `u64` minutes are 300 s; 10 `i64` minutes are 600 s |
| `DurationExt.SecondsNeverFail` | src/lib.rs:54-56 | `seconds` on a `u64` (and on a `u32`, lines 96-98) always gives exactly `n` seconds |
| `DurationExt.NegativeRejected` | src/lib.rs:137-235 | every unit on a negative `i64` or `i32` fails with `Negative(unit)` |
| `DurationExt.SignCheckedFirst` | src/lib.rs:143-147 | an `i64` overflow is only ever reported for a non-negative count |
| `DurationExt.CrossWidthAgree` | src/lib.rs:95-235 | a `u32` count converts like the same `u64`; a non-negative `i64` like its `u64` cast; a non-negative `i32` like the same `i64`; derived from the conversion contracts, since a `Duration` is determined by its span |
| `DurationExt.SubSecondNeverFail` | src/lib.rs:82-92 | milliseconds, microseconds and nanoseconds never fail on a `u64`; `n` milliseconds read back as `n` via `as_millis` |
| `DurationExt.MaxMillisNonZero` | src/lib.rs:284-290 | `u64::MAX` milliseconds converts and its `as_millis` is non-zero |

## Left out

- Panic messages: the `format!` text of the overflow panics and the `assert!` text of the negative-input panics. The model keeps only the error kind and the unit.
- Panics as control flow: a panic unwinds the caller in Rust, and the model returns an `Err` value instead.
- Trait dispatch: the `DurationExt` trait and its four `impl` blocks are four functions, and each takes a `Unit` argument in place of eight methods.
- `Duration` addition, used in the example at src/lib.rs:21. It is a standard-library operator with its own overflow behaviour that this crate does not implement.
- `Duration` beyond its `(secs, nanos)` value and the four constructors and `as_millis` that the crate and its tests call.
- Calling a conversion twice with the same input gives equal results. Every member here is a pure function, so this holds by construction and is not stated separately.
