# ADVClock in Dafny

`advclock/advclock.hpp` is a single C++ header. It wraps a monotonic clock in a
timer handle, `ADVClock`. A handle remembers one start instant (`m_begin`). It
measures time since that instant, or since an epoch: the start instant of one
process-wide handle, `GLOBAL_CLOCK`. A static conversion, `RuntimeCastFromNano`,
turns a nanosecond count into one of ten units. It takes a precision code 0..9
(nanoseconds through years). The result is a cascade of divisions by fixed
constants.

The model has three modules:

- `Units` (`units.dfy`) holds the conversion. `RuntimeCastFromNano` follows the
  header's `switch`. The precision is an `int` code, so the `default:` arm can
  be reached. The result is `real`, with exact division. Next to it stands a
  reference: a `Precision` datatype and `NanosPer`, the length of each unit in
  nanoseconds, built from the same constants. `InUnits` divides a count by
  that length. The lemmas tie the written conversion to the reference.
- `SteadyClock` (`timer.dfy`) is the injected time source. `Clock.Now` returns
  a tick that is never below the previous one. Which tick it returns is left
  open.
- `Timer` (`timer.dfy`) is the handle. `ADVClock` is a class. Its start instant
  is the field `beginTick`, and the epoch is a constant `epoch`. `Valid()`
  says `epoch <= beginTick <= clock.ticks`. `Tare` and the elapsed-time methods
  modify the handle and the clock, and state exactly what the new state is.

Every C++ default argument becomes an explicit parameter. A caller of
`RuntimeCastFromNano(d)` in C++ is `RuntimeCastFromNano(d, 0)` here.

## Model

| member | source | states |
|---|---|---|
| `Units.Code` | advclock/advclock.hpp:26-37 | each unit's enum value lies in 0..9 |
| `Units.FromCode` | advclock/advclock.hpp:26-37 | a code names a unit exactly when it lies in 0..9, and that unit's value is the code |
| `Units.CodeRoundTrip` | advclock/advclock.hpp:26-37 | decoding a unit's value gives the unit back |
| `Units.RuntimeCastFromNano` | advclock/advclock.hpp:54-92 | code 0, and every code outside 0..9, returns the nanosecond count unchanged |
| `Units.RuntimeCast` | advclock/advclock.hpp:49-52 | for every code but Months, the result is the count over the target unit's length (the count itself for codes outside 0..9); for Months it is 144 times smaller than that |
| `Units.NanosPer` | advclock/advclock.hpp:39-44 | every unit is at least one nanosecond long, and every unit but the nanosecond is at least 1000 |
| `Units.NanosPerTable` | advclock/advclock.hpp:39-44 | the constants give exact unit lengths, e.g. 60,000,000,000 ns per minute and 31,556,736,000,000,000 ns per 365.24-day year |
| `Units.SubSecondCascade` | advclock/advclock.hpp:56-76 | micro-, milli- and seconds are each the previous unit divided by 1000, and times 1000 gives the previous unit back |
| `Units.CalendarCascade` | advclock/advclock.hpp:61-88 | minutes = seconds/60, hours = minutes/60, days = hours/24, weeks = days/7, years = days/365.24, months = years/12 |
| `Units.CastKeepsSign` | advclock/advclock.hpp:56-66 | for every code, the result is zero, positive or negative exactly when the count is |
| `Units.OneHour` | advclock/advclock.hpp:58-80 | 3,600,000,000,000 ns is 3600 seconds, 60 minutes and 1 hour |
| `Units.CastMonotone` | advclock/advclock.hpp:56-66 | a longer duration never converts to a smaller value |
| `Units.CastChangesNonZero` | advclock/advclock.hpp:71-88 | for a non-zero count, every code 1..9 gives a value different from the count |
| `Units.IntendedCastFromNano` | advclock/advclock.hpp:66 | the corrected conversion differs from the written one only for Months |
| `Units.IntendedIsUnitRatio` | advclock/advclock.hpp:56-66 | the corrected conversion to a unit equals the count over that unit's length in nanoseconds |
| `Units.IntendedMatchesReference` | advclock/advclock.hpp:54-92 | the corrected conversion equals the reference for every code, including codes outside 0..9 |
| `Units.AsWrittenAgreesExceptMonths` | advclock/advclock.hpp:65-66 | the written conversion equals the reference for every code but Months, where it is 144 times too small |
| `Units.MonthsOfOneYear` | advclock/advclock.hpp:65-66 | one year of nanoseconds converts to 1 year but to 1/12 month as written; corrected, it is 12 months |
| `Timer.ADVClock.constructor` | advclock/advclock.hpp:46-47 | a new handle starts at a fresh clock reading, after the epoch |
| `Timer.ADVClock.BeginDur` | advclock/advclock.hpp:94-96 | the start instant minus the epoch; never negative, and never beyond the latest reading |
| `Timer.ADVClock.Begin` | advclock/advclock.hpp:98-101 | whatever precision is asked for, the result is the start-instant count in nanoseconds |
| `Timer.ADVClock.BeginIn` | advclock/advclock.hpp:98-101 | corrected for the ignored precision only: the start instant in the requested unit for every code but Months, where it keeps the factor of 144 from line 66; non-negative |
| `Timer.ADVClock.IgnoredPrecision` | advclock/advclock.hpp:98-101 | once the start instant is past the epoch, `Begin` and the corrected `BeginIn` differ for every code 1..9 |
| `Timer.ADVClock.NowDur` | advclock/advclock.hpp:103-105 | takes a fresh reading minus the epoch; it is not below the start-instant count; the clock never goes back |
| `Timer.ADVClock.Now` | advclock/advclock.hpp:107-110 | whatever precision is asked for, the result is the fresh reading's count in nanoseconds |
| `Timer.ADVClock.NowIn` | advclock/advclock.hpp:107-110 | corrected for the ignored precision only: the fresh reading through `RuntimeCast` in the requested unit, so Months keeps the factor of 144 from line 66 |
| `Timer.ADVClock.Tare` | advclock/advclock.hpp:129 | the start instant becomes the fresh reading; it never moves back; the epoch does not change |
| `Timer.ADVClock.ElapsedRawNanoDur` | advclock/advclock.hpp:112-116 | the result is the reading minus the old start instant (the epoch cancels) and is never negative; without tare the start instant is unchanged; with tare it becomes a second reading no earlier than the one measured |
| `Timer.ADVClock.ElapsedRawNano` | advclock/advclock.hpp:118-122 | the same result and the same tare behaviour as `ElapsedRawNanoDur`; the tare comes after the read |
| `Timer.ADVClock.Elapsed` | advclock/advclock.hpp:124-127 | the elapsed count converted to the requested unit, non-negative, with the same tare behaviour |
| `SteadyClock.Clock.Now` | advclock/advclock.hpp:104 | a reading is never below the previous one, and the clock remembers it |

## Left out

- The real `steady_clock` and the `ADVCLOCK_STATIC_INSTANCE_TYPE_OVERRIDE` template parameter are library calls. They are replaced by `SteadyClock.Clock`, whose readings only promise never to decrease.
- `double` rounding is not modelled. Results are exact `real` quotients.
- Integer result types (`rtnType` other than `double`) are not modelled. `begin`, `now` and `elapsed` with an integer `rtnType` go through `RuntimeCast<int64_t>`, which calls `RuntimeCastFromNano` with its default `double`, so they divide in `double` and truncate only the final result toward zero. A direct call of `RuntimeCastFromNano<int64_t>` instead uses truncating integer division for the 1000, 60, 24 and 7 steps and `double` for 365.24. `Begin` and `Now` keep their default `int64_t` result with precision 0 and return `int`: the header passes the count through `double`, so it comes back exact only up to 2^53 ns (about 104 days past the epoch); the model returns the exact count, as with all `double` rounding left out above.
- `int64_t` counts are unbounded `int`. Overflow on very long durations is not modelled.
- The `char` range of the `Precision` enum is not modelled. Any `int` code is accepted, and any code outside 0..9 falls to the `default:` arm as in the header.
- `duration_cast<nanoseconds>` in `RuntimeCast` is a library conversion. `RuntimeCast` takes a count that is already in nanoseconds.
- The static initialisation of `GLOBAL_CLOCK` (lines 135 and 138), its order across translation units, and thread safety are not modelled. The epoch is a constant given to each handle, no later than the clock's latest reading.
- The destructor (line 131) does nothing and has no counterpart.
- The commented-out example program (lines 145-177) is console I/O and is not part of the library.
- Default arguments are not modelled. Every parameter is passed explicitly.

## Findings

| source | as written | input that shows it | evidently intended | confidence | as-written member | corrected member |
|---|---|---|---|---|---|---|
| advclock/advclock.hpp:66 | `months` is `years / 12` | 31,556,736,000,000,000 ns (one 365.24-day year) with precision 8 gives 1/12 | `years * 12`, i.e. 12 months | high; not executed | `Units.RuntimeCastFromNano`, shown by `Units.MonthsOfOneYear` and `Units.AsWrittenAgreesExceptMonths` | `Units.IntendedCastFromNano`, proved by `Units.IntendedIsUnitRatio` and `Units.IntendedMatchesReference` |
| advclock/advclock.hpp:98-110 | `begin` and `now` take `precision` but always convert with `Precision::Nanoseconds` | a handle started 1,000,000,000 ns after the epoch, `begin(Seconds)` gives 1,000,000,000 | convert with the given precision, i.e. 1 | medium; not executed | `Timer.ADVClock.Begin` and `Timer.ADVClock.Now`, shown by `Timer.ADVClock.IgnoredPrecision` | `Timer.ADVClock.BeginIn` and `Timer.ADVClock.NowIn` |

The timer's `Elapsed` keeps the header's conversion (line 126 calls `RuntimeCast`). Its contract goes through `Units.RuntimeCast`. That contract gives the reference value for every unit but Months, and states the factor of 144 for Months.
