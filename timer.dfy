/**
 * The monotone time source a timer handle reads.
 *
 * `ticks` is the latest reading, in nanoseconds. `Now` returns a reading
 * that is never smaller than the previous one and remembers it; which
 * reading it returns is left open.
 */
module SteadyClock {

  class Clock {
    var ticks: int

    constructor (start: int)
      ensures ticks == start
    {
      ticks := start;
    }

    method Now() returns (t: int)
      modifies this
      ensures old(ticks) <= t
      ensures ticks == t
    {
      t :| t >= ticks;
      ticks := t;
    }
  }
}

/**
 * The timer handle. Its one mutable field is the start instant
 * (`beginTick`); `epoch` is the start instant of the process-wide handle
 * every handle measures against, taken from the same clock earlier.
 */
module Timer {
  import opened Units
  import opened SteadyClock

  class ADVClock {
    const clock: Clock
    const epoch: int
    var beginTick: int

    /** The epoch came first, and the start instant is a past reading. */
    ghost predicate Valid()
      reads this, clock
    {
      epoch <= beginTick <= clock.ticks
    }

    /** A new handle starts at a fresh reading. */
    constructor (clock: Clock, epoch: int)
      requires epoch <= clock.ticks
      modifies clock
      ensures Valid()
      ensures this.clock == clock && this.epoch == epoch
      ensures old(clock.ticks) <= beginTick == clock.ticks
    {
      this.clock := clock;
      this.epoch := epoch;
      new;
      beginTick := clock.Now();
    }

    /** The start instant, measured from the epoch; never negative. */
    function BeginDur(): (d: int)
      requires Valid()
      reads this, clock
      ensures 0 <= d <= clock.ticks - epoch
      ensures epoch + d == beginTick
    {
      beginTick - epoch
    }

    /**
     * `begin(precision)` as written: the precision is ignored and the start
     * instant comes back as a whole nanosecond count.
     */
    function Begin(precision: int): (r: int)
      requires Valid()
      reads this, clock
      ensures r >= 0
      ensures r as real == RuntimeCastFromNano(BeginDur(), Code(Nanoseconds))
    {
      BeginDur()
    }

    /**
     * `begin` with the precision honoured: the start instant through the
     * header's conversion, so Months keeps the factor of 144 from its
     * `months` macro (years / MonthsInYear).
     */
    function BeginIn(precision: int): (r: real)
      requires Valid()
      reads this, clock
      ensures precision != Code(Months) ==> r == InUnits(BeginDur(), precision)
      ensures precision == Code(Months) ==> r * 144.0 == InUnits(BeginDur(), precision)
      ensures r >= 0.0
    {
      CastKeepsSign(BeginDur(), precision);
      RuntimeCast(BeginDur(), precision)
    }

    /** For a handle started after the epoch, `Begin` in any unit but nanoseconds is wrong. */
    lemma IgnoredPrecision(precision: int)
      requires Valid() && BeginDur() != 0 && 1 <= precision <= 9
      ensures Begin(precision) as real != BeginIn(precision)
    {
      CastChangesNonZero(BeginDur(), precision);
    }

    /** A fresh reading, measured from the epoch. */
    method NowDur() returns (d: int)
      requires Valid()
      modifies clock
      ensures Valid()
      ensures old(clock.ticks) <= clock.ticks
      ensures d == clock.ticks - epoch
      ensures d >= BeginDur()
    {
      var t := clock.Now();
      d := t - epoch;
    }

    /**
     * `now(precision)` as written: the precision is ignored and the fresh
     * reading comes back as a whole nanosecond count.
     */
    method Now(precision: int) returns (r: int)
      requires Valid()
      modifies clock
      ensures Valid()
      ensures old(clock.ticks) <= clock.ticks
      ensures r == clock.ticks - epoch
      ensures r as real == RuntimeCastFromNano(clock.ticks - epoch, Code(Nanoseconds))
    {
      r := NowDur();
    }

    /** `now` as evidently intended: the fresh reading in the requested unit. */
    method NowIn(precision: int) returns (r: real)
      requires Valid()
      modifies clock
      ensures Valid()
      ensures old(clock.ticks) <= clock.ticks
      ensures r == RuntimeCast(clock.ticks - epoch, precision)
    {
      var d := NowDur();
      r := RuntimeCast(d, precision);
    }

    /** Restart the handle at a fresh reading. */
    method Tare()
      requires Valid()
      modifies this, clock
      ensures Valid()
      ensures old(clock.ticks) <= clock.ticks
      ensures beginTick == clock.ticks
      ensures old(beginTick) <= beginTick
    {
      beginTick := clock.Now();
    }

    /**
     * Nanoseconds since the start instant, read at `reading`. With
     * `tareClock` the handle then restarts at a second, later reading;
     * without it the start instant stays as it was.
     */
    method ElapsedRawNanoDur(tareClock: bool) returns (r: int, ghost reading: int)
      requires Valid()
      modifies this, clock
      ensures Valid()
      ensures old(clock.ticks) <= reading <= clock.ticks
      ensures r == reading - old(beginTick)
      ensures r >= 0
      ensures !tareClock ==> beginTick == old(beginTick) && clock.ticks == reading
      ensures tareClock ==> reading <= beginTick == clock.ticks
    {
      var n := NowDur();
      reading := n + epoch;
      r := n - BeginDur();
      if tareClock {
        Tare();
      }
    }

    /** The same count as a plain integer; the tare happens after the read. */
    method ElapsedRawNano(tareClock: bool) returns (r: int, ghost reading: int)
      requires Valid()
      modifies this, clock
      ensures Valid()
      ensures old(clock.ticks) <= reading <= clock.ticks
      ensures r == reading - old(beginTick)
      ensures r >= 0
      ensures !tareClock ==> beginTick == old(beginTick) && clock.ticks == reading
      ensures tareClock ==> reading <= beginTick == clock.ticks
    {
      r, reading := ElapsedRawNanoDur(false);
      if tareClock {
        Tare();
      }
    }

    /** The elapsed count converted to `precision`. */
    method Elapsed(precision: int, tareClock: bool) returns (r: real, ghost reading: int)
      requires Valid()
      modifies this, clock
      ensures Valid()
      ensures old(clock.ticks) <= reading <= clock.ticks
      ensures r == RuntimeCast(reading - old(beginTick), precision)
      ensures r >= 0.0
      ensures !tareClock ==> beginTick == old(beginTick) && clock.ticks == reading
      ensures tareClock ==> reading <= beginTick == clock.ticks
    {
      var raw: int;
      raw, reading := ElapsedRawNanoDur(tareClock);
      CastKeepsSign(raw, precision);
      r := RuntimeCast(raw, precision);
    }
  }
}
