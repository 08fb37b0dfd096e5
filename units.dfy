/**
 * Unit conversion of nanosecond durations (the static half of ADVClock).
 *
 * `RuntimeCastFromNano` is the conversion as the header writes it: a switch
 * over an integer precision code whose arms are a cascade of divisions by
 * fixed constants. Next to it stands an independent reference: the
 * `Precision` units and the number of nanoseconds in one of each
 * (`NanosPer`). The lemmas connect the two.
 *
 * Results are `real`: the header's default result type is `double`, and the
 * model divides exactly.
 */
module Units {

  datatype Option<T> = None | Some(value: T)

  /** The ten conversion targets, in the order of their codes. */
  datatype Precision =
    | Nanoseconds | Microseconds | Milliseconds | Seconds | Minutes
    | Hours | Days | Weeks | Months | Years

  /** The enum's underlying value. */
  function Code(p: Precision): (c: int)
    ensures 0 <= c <= 9
  {
    match p
    case Nanoseconds => 0
    case Microseconds => 1
    case Milliseconds => 2
    case Seconds => 3
    case Minutes => 4
    case Hours => 5
    case Days => 6
    case Weeks => 7
    case Months => 8
    case Years => 9
  }

  /** The unit a code names, if it names one. */
  function FromCode(c: int): (r: Option<Precision>)
    ensures r.Some? <==> 0 <= c <= 9
    ensures r.Some? ==> Code(r.value) == c
  {
    if c == 0 then Some(Nanoseconds)
    else if c == 1 then Some(Microseconds)
    else if c == 2 then Some(Milliseconds)
    else if c == 3 then Some(Seconds)
    else if c == 4 then Some(Minutes)
    else if c == 5 then Some(Hours)
    else if c == 6 then Some(Days)
    else if c == 7 then Some(Weeks)
    else if c == 8 then Some(Months)
    else if c == 9 then Some(Years)
    else None
  }

  lemma CodeRoundTrip(p: Precision)
    ensures FromCode(Code(p)) == Some(p)
  {
  }

  // The fixed constants of the cascade.
  const SecsInMin: real := 60.0
  const MinsInHour: real := 60.0
  const HoursInDay: real := 24.0
  const DaysInWeek: real := 7.0
  const DaysInYear: real := 365.24
  const MonthsInYear: real := 12.0

  /**
   * The conversion as written: each unit is the previous one divided by its
   * constant; years come from days and months from years (divided by 12).
   * Code 0, and every code outside 0..9, returns the count unchanged.
   */
  function RuntimeCastFromNano(fromNanos: int, precision: int): (r: real)
    ensures (precision < 1 || 9 < precision) ==> r == fromNanos as real
  {
    var nanos := fromNanos as real;
    var micros := nanos / 1000.0;
    var millis := micros / 1000.0;
    var secs := millis / 1000.0;
    var mins := secs / SecsInMin;
    var hours := mins / MinsInHour;
    var days := hours / HoursInDay;
    var weeks := days / DaysInWeek;
    var years := days / DaysInYear;
    var months := years / MonthsInYear;
    if precision == 0 then nanos
    else if precision == 1 then micros
    else if precision == 2 then millis
    else if precision == 3 then secs
    else if precision == 4 then mins
    else if precision == 5 then hours
    else if precision == 6 then days
    else if precision == 7 then weeks
    else if precision == 8 then months
    else if precision == 9 then years
    else nanos
  }

  /**
   * The conversion the header's `months` macro (years / MonthsInYear)
   * evidently intends: identical to `RuntimeCastFromNano` except that
   * months are years times twelve.
   */
  function IntendedCastFromNano(fromNanos: int, precision: int): (r: real)
    ensures precision != 8 ==> r == RuntimeCastFromNano(fromNanos, precision)
  {
    var years := RuntimeCastFromNano(fromNanos, 9);
    if precision == 8 then years * MonthsInYear
    else RuntimeCastFromNano(fromNanos, precision)
  }

  /** `RuntimeCast` with a count that is already in nanoseconds. */
  function RuntimeCast(cast: int, precision: int): (r: real)
    ensures precision != Code(Months) ==> r == InUnits(cast, precision)
    ensures precision == Code(Months) ==> r * 144.0 == InUnits(cast, precision)
  {
    AsWrittenAgreesExceptMonths(cast, precision);
    RuntimeCastFromNano(cast, precision)
  }

  // ---------------------------------------------------------------------
  // The reference: how long each unit is

  /** Depth of a unit in the cascade, for termination of `NanosPer`. */
  function Rank(p: Precision): nat
  {
    match p
    case Nanoseconds => 0
    case Microseconds => 1
    case Milliseconds => 2
    case Seconds => 3
    case Minutes => 4
    case Hours => 5
    case Days => 6
    case Weeks => 7
    case Years => 7
    case Months => 8
  }

  /** Nanoseconds in one `p`; every unit but the nanosecond has at least 1000. */
  function NanosPer(p: Precision): (r: real)
    ensures r >= 1.0
    ensures p != Nanoseconds ==> r >= 1000.0
    decreases Rank(p)
  {
    match p
    case Nanoseconds => 1.0
    case Microseconds => NanosPer(Nanoseconds) * 1000.0
    case Milliseconds => NanosPer(Microseconds) * 1000.0
    case Seconds => NanosPer(Milliseconds) * 1000.0
    case Minutes => NanosPer(Seconds) * SecsInMin
    case Hours => NanosPer(Minutes) * MinsInHour
    case Days => NanosPer(Hours) * HoursInDay
    case Weeks => NanosPer(Days) * DaysInWeek
    case Years => NanosPer(Days) * DaysInYear
    case Months => NanosPer(Years) / MonthsInYear
  }

  /** A count in a unit code: the count over the unit's length; no unit, no change. */
  function InUnits(nanos: int, precision: int): real
  {
    match FromCode(precision)
    case None => nanos as real
    case Some(p) => nanos as real / NanosPer(p)
  }

  /** The unit lengths the constants add up to. */
  lemma NanosPerTable()
    ensures NanosPer(Microseconds) == 1_000.0
    ensures NanosPer(Milliseconds) == 1_000_000.0
    ensures NanosPer(Seconds) == 1_000_000_000.0
    ensures NanosPer(Minutes) == 60_000_000_000.0
    ensures NanosPer(Hours) == 3_600_000_000_000.0
    ensures NanosPer(Days) == 86_400_000_000_000.0
    ensures NanosPer(Weeks) == 604_800_000_000_000.0
    ensures NanosPer(Years) == 31_556_736_000_000_000.0
    ensures NanosPer(Months) == 2_629_728_000_000_000.0
  {
    assert NanosPer(Days) == 86_400_000_000_000.0;
    assert NanosPer(Years) == 31_556_736_000_000_000.0;
  }

  // ---------------------------------------------------------------------
  // Properties of the conversion as written

  /** Nanoseconds, micro-, milli- and seconds differ by exact factors of 1000. */
  lemma SubSecondCascade(d: int)
    ensures RuntimeCastFromNano(d, Code(Microseconds)) == d as real / 1000.0
    ensures RuntimeCastFromNano(d, Code(Microseconds)) * 1000.0 == d as real
    ensures RuntimeCastFromNano(d, Code(Milliseconds)) == RuntimeCastFromNano(d, Code(Microseconds)) / 1000.0
    ensures RuntimeCastFromNano(d, Code(Milliseconds)) * 1000.0 == RuntimeCastFromNano(d, Code(Microseconds))
    ensures RuntimeCastFromNano(d, Code(Seconds)) == RuntimeCastFromNano(d, Code(Milliseconds)) / 1000.0
    ensures RuntimeCastFromNano(d, Code(Seconds)) * 1000.0 == RuntimeCastFromNano(d, Code(Milliseconds))
  {
  }

  /** Minutes, hours, days, weeks, years and months from the calendar constants. */
  lemma CalendarCascade(d: int)
    ensures RuntimeCastFromNano(d, Code(Minutes)) == RuntimeCastFromNano(d, Code(Seconds)) / 60.0
    ensures RuntimeCastFromNano(d, Code(Hours)) == RuntimeCastFromNano(d, Code(Minutes)) / 60.0
    ensures RuntimeCastFromNano(d, Code(Days)) == RuntimeCastFromNano(d, Code(Hours)) / 24.0
    ensures RuntimeCastFromNano(d, Code(Weeks)) == RuntimeCastFromNano(d, Code(Days)) / 7.0
    ensures RuntimeCastFromNano(d, Code(Years)) == RuntimeCastFromNano(d, Code(Days)) / 365.24
    ensures RuntimeCastFromNano(d, Code(Months)) == RuntimeCastFromNano(d, Code(Years)) / 12.0
  {
  }

  /** Every divisor is positive, so a conversion has the sign of its count. */
  lemma CastKeepsSign(d: int, c: int)
    ensures RuntimeCastFromNano(d, c) == 0.0 <==> d == 0
    ensures RuntimeCastFromNano(d, c) > 0.0 <==> d > 0
    ensures RuntimeCastFromNano(d, c) < 0.0 <==> d < 0
  {
  }

  /** One hour of nanoseconds. */
  lemma OneHour()
    ensures RuntimeCastFromNano(3_600_000_000_000, Code(Seconds)) == 3600.0
    ensures RuntimeCastFromNano(3_600_000_000_000, Code(Minutes)) == 60.0
    ensures RuntimeCastFromNano(3_600_000_000_000, Code(Hours)) == 1.0
  {
  }

  /** Conversion keeps the order of durations. */
  lemma CastMonotone(d1: int, d2: int, c: int)
    requires d1 <= d2
    ensures RuntimeCastFromNano(d1, c) <= RuntimeCastFromNano(d2, c)
  {
  }

  // ---------------------------------------------------------------------
  // The intended conversion against the reference, and the discrepancy

  /** Units up to the minute: the count over the unit's length. */
  lemma ShortUnitRatio(d: int, p: Precision)
    requires Rank(p) <= 4
    ensures IntendedCastFromNano(d, Code(p)) == d as real / NanosPer(p)
  {
    NanosPerTable();
  }

  /** Units from the hour up: the count over the unit's length. */
  lemma LongUnitRatio(d: int, p: Precision)
    requires Rank(p) > 4
    ensures IntendedCastFromNano(d, Code(p)) == d as real / NanosPer(p)
  {
    NanosPerTable();
  }

  /** Converting to `p` divides the count by the nanoseconds in one `p`. */
  lemma IntendedIsUnitRatio(d: int, p: Precision)
    ensures IntendedCastFromNano(d, Code(p)) == d as real / NanosPer(p)
  {
    if Rank(p) <= 4 {
      ShortUnitRatio(d, p);
    } else {
      LongUnitRatio(d, p);
    }
  }

  /** The intended conversion is the reference, for every code. */
  lemma IntendedMatchesReference(d: int, c: int)
    ensures IntendedCastFromNano(d, c) == InUnits(d, c)
  {
    match FromCode(c)
    case None =>
    case Some(p) => IntendedIsUnitRatio(d, p);
  }

  /**
   * The written conversion is the reference for every code but Months, where
   * it is 144 (twelve squared) times too small.
   */
  lemma AsWrittenAgreesExceptMonths(d: int, c: int)
    ensures c != Code(Months) ==> RuntimeCastFromNano(d, c) == InUnits(d, c)
    ensures RuntimeCastFromNano(d, Code(Months)) * 144.0 == InUnits(d, Code(Months))
  {
    IntendedMatchesReference(d, c);
    IntendedMatchesReference(d, Code(Months));
  }

  /** One year of nanoseconds comes out as a twelfth of a month. */
  lemma MonthsOfOneYear()
    ensures RuntimeCastFromNano(31_556_736_000_000_000, Code(Years)) == 1.0
    ensures RuntimeCastFromNano(31_556_736_000_000_000, Code(Months)) == 1.0 / 12.0
    ensures IntendedCastFromNano(31_556_736_000_000_000, Code(Months)) == 12.0
  {
  }

  /** Every unit but the nanosecond changes a non-zero count. */
  lemma CastChangesNonZero(d: int, c: int)
    requires d != 0 && 1 <= c <= 9
    ensures RuntimeCastFromNano(d, c) != d as real
  {
    var p := FromCode(c).value;
    IntendedIsUnitRatio(d, p);
    var n := if p == Months then NanosPer(Years) * MonthsInYear else NanosPer(p);
    assert RuntimeCastFromNano(d, c) == d as real / n;
    assert (d as real / n) * n == d as real;
  }
}
