/** `java.time.Instant` as the token service uses it: `plus` by a
    `ChronoUnit`, `truncatedTo(MINUTES)`, and the `toEpochMilli` behind
    `Date.from`. An instant is held as its count of nanoseconds since
    1970-01-01T00:00Z, which is `seconds * 10^9 + nanos` of Java's pair. */
module Instants {
  import opened Wrappers
  import opened Errors
  import opened JavaLong

  const NANOS_PER_SECOND := 1_000_000_000
  const NANOS_PER_MILLI := 1_000_000
  const NANOS_PER_MINUTE := 60_000_000_000

  /** The epoch seconds of `Instant.MIN` and `Instant.MAX`. */
  const MIN_SECOND := -31_557_014_167_219_200
  const MAX_SECOND := 31_556_889_864_403_199

  /** `Instant.MIN` and the last nanosecond of `Instant.MAX`, counted in nanoseconds. */
  const MIN_NANOS := -31_557_014_167_219_200_000_000_000
  const MAX_NANOS := 31_556_889_864_403_199_999_999_999

  /** The message of the `DateTimeException` for an instant out of range. */
  const RANGE_EXCEEDED := "Instant exceeds minimum or maximum instant"

  predicate InRange(t: int)
  {
    MIN_NANOS <= t <= MAX_NANOS
  }

  type Instant = t: int | MIN_NANOS <= t <= MAX_NANOS

  datatype ChronoUnit =
    | NANOS | MICROS | MILLIS | SECONDS | MINUTES | HOURS | HALF_DAYS | DAYS
    | WEEKS | MONTHS | YEARS | DECADES | CENTURIES | MILLENNIA | ERAS | FOREVER

  /** `ChronoUnit.toString()`. */
  function UnitText(u: ChronoUnit): string
  {
    match u
    case NANOS => "Nanos" case MICROS => "Micros" case MILLIS => "Millis"
    case SECONDS => "Seconds" case MINUTES => "Minutes" case HOURS => "Hours"
    case HALF_DAYS => "HalfDays" case DAYS => "Days" case WEEKS => "Weeks"
    case MONTHS => "Months" case YEARS => "Years" case DECADES => "Decades"
    case CENTURIES => "Centuries" case MILLENNIA => "Millennia" case ERAS => "Eras"
    case FOREVER => "Forever"
  }

  /** The exact length of the units an `Instant` can be moved by. */
  function UnitNanos(u: ChronoUnit): Option<nat>
  {
    match u
    case NANOS => Some(1)
    case MICROS => Some(1_000)
    case MILLIS => Some(1_000_000)
    case SECONDS => Some(1_000_000_000)
    case MINUTES => Some(60 * 1_000_000_000)
    case HOURS => Some(3_600 * 1_000_000_000)
    case HALF_DAYS => Some(43_200 * 1_000_000_000)
    case DAYS => Some(86_400 * 1_000_000_000)
    case _ => None
  }

  /** The units `plus` first converts to seconds with `Math.multiplyExact`. */
  function UnitSeconds(u: ChronoUnit): Option<nat>
  {
    match u
    case MINUTES => Some(60)
    case HOURS => Some(3_600)
    case HALF_DAYS => Some(43_200)
    case DAYS => Some(86_400)
    case _ => None
  }

  /** The amount survives that conversion to seconds without overflow. */
  predicate SecondsFit(amount: Long, u: ChronoUnit)
  {
    UnitSeconds(u).None? || InLong(amount * UnitSeconds(u).value)
  }

  /** `getEpochSecond()`: the seconds part, rounded down. */
  function EpochSecond(t: Instant): (s: Long)
    ensures MIN_SECOND <= s <= MAX_SECOND
  {
    DivAtLeast(t, 1_000_000_000, -31_557_014_167_219_200);
    DivBelow(t, 1_000_000_000, 31_556_889_864_403_200);
    t / NANOS_PER_SECOND
  }

  /** `getNano()`: the nanoseconds within the second. */
  function NanoOfSecond(t: Instant): int
  {
    t % NANOS_PER_SECOND
  }

  /** `Instant.create`: the range check every new instant passes. */
  function Create(seconds: Long, nanos: int): Try<Instant>
    requires 0 <= nanos < NANOS_PER_SECOND
  {
    if MIN_SECOND <= seconds <= MAX_SECOND then Success(seconds * NANOS_PER_SECOND + nanos)
    else Failure(DateTime(RANGE_EXCEEDED))
  }

  /** `Instant.ofEpochSecond(epochSecond, nanoAdjustment)`: carries whole
      seconds out of the adjustment with `Math.floorDiv`/`floorMod`. */
  function OfEpochSecond(epochSecond: Long, nanoAdjustment: Long): Try<Instant>
  {
    DivAtLeast(nanoAdjustment, 1_000_000_000, -0x8000_0000_0000_0000);
    DivBelow(nanoAdjustment, 1_000_000_000, 0x8000_0000_0000_0000);
    var secs :- AddExact(epochSecond, nanoAdjustment / NANOS_PER_SECOND);
    Create(secs, nanoAdjustment % NANOS_PER_SECOND)
  }

  /** The private `plus(secondsToAdd, nanosToAdd)` every supported unit ends
      in. It is exact whenever it succeeds; it fails exactly when the result
      leaves the range as long as one of the two parts is small, which holds
      for every call `plus(amount, unit)` makes. */
  function PlusParts(t: Instant, secondsToAdd: Long, nanosToAdd: Long): (r: Try<Instant>)
    ensures r.Success? ==> r.value == t + secondsToAdd * NANOS_PER_SECOND + nanosToAdd
    ensures secondsToAdd == 0 || -NANOS_PER_SECOND < nanosToAdd < NANOS_PER_SECOND ==>
      (r.Success? <==> InRange(t + secondsToAdd * NANOS_PER_SECOND + nanosToAdd))
    ensures r.Failure? ==> r.error == Arithmetic(LONG_OVERFLOW) || r.error == DateTime(RANGE_EXCEEDED)
  {
    if secondsToAdd == 0 && nanosToAdd == 0 then Success(t)
    else
      var epochSec :- AddExact(EpochSecond(t), secondsToAdd);
      var epochSec' :- AddExact(epochSec, JavaDiv(nanosToAdd, NANOS_PER_SECOND));
      var nanos := JavaRem(nanosToAdd, NANOS_PER_SECOND);
      OfEpochSecond(epochSec', NanoOfSecond(t) + nanos)
  }

  /** `plusMillis`, and the `MICROS` case, which splits the amount into
      whole seconds and a remainder of nanoseconds. */
  function PlusFraction(t: Instant, amount: Long, perSecond: int, nanosEach: int): (r: Try<Instant>)
    requires (perSecond, nanosEach) in {(1_000, 1_000_000), (1_000_000, 1_000)}
    ensures r.Success? <==> InRange(t + amount * nanosEach)
    ensures r.Success? ==> r.value == t + amount * nanosEach
    ensures r.Failure? ==> r.error == Arithmetic(LONG_OVERFLOW) || r.error == DateTime(RANGE_EXCEEDED)
  {
    var seconds := JavaDiv(amount, perSecond);
    var nanos := JavaRem(amount, perSecond) * nanosEach;
    assert seconds * NANOS_PER_SECOND + nanos == amount * nanosEach;
    PlusParts(t, seconds, nanos)
  }

  /** `plusSeconds(Math.multiplyExact(amount, secondsEach))`, the units of a minute and longer. */
  function PlusWhole(t: Instant, amount: Long, secondsEach: nat): (r: Try<Instant>)
    requires secondsEach in {60, 3_600, 43_200, 86_400}
    ensures r.Success? <==> InLong(amount * secondsEach) && InRange(t + amount * secondsEach * NANOS_PER_SECOND)
    ensures r.Success? ==> r.value == t + amount * secondsEach * NANOS_PER_SECOND
    ensures r.Failure? ==> r.error == Arithmetic(LONG_OVERFLOW) || r.error == DateTime(RANGE_EXCEEDED)
    ensures !InLong(amount * secondsEach) ==> r == Failure(Arithmetic(LONG_OVERFLOW))
  {
    var seconds :- MultiplyExact(amount, secondsEach);
    PlusParts(t, seconds, 0)
  }

  /** `Instant.plus(amount, unit)`: moves the instant by exactly
      `amount` units, or fails with the exception the JDK throws — an
      unsupported unit, a seconds conversion that overflows `long`, or a
      result outside `Instant.MIN` .. `Instant.MAX`. */
  function Plus(t: Instant, amount: Long, unit: ChronoUnit): (r: Try<Instant>)
    ensures UnitNanos(unit).None? ==> r == Failure(UnsupportedTemporalType("Unsupported unit: " + UnitText(unit)))
    ensures UnitNanos(unit).Some? && !SecondsFit(amount, unit) ==> r == Failure(Arithmetic(LONG_OVERFLOW))
    ensures r.Success? <==>
      UnitNanos(unit).Some? && SecondsFit(amount, unit) && InRange(t + amount * UnitNanos(unit).value)
    ensures r.Success? ==> r.value == t + amount * UnitNanos(unit).value
    ensures r.Failure? && UnitNanos(unit).Some? && SecondsFit(amount, unit) ==>
      r.error == Arithmetic(LONG_OVERFLOW) || r.error == DateTime(RANGE_EXCEEDED)
  {
    match unit
    case NANOS | MICROS | MILLIS | SECONDS => PlusBelowMinute(t, amount, unit)
    case MINUTES | HOURS | HALF_DAYS | DAYS => PlusMinutesAndLonger(t, amount, unit)
    case _ => Failure(UnsupportedTemporalType("Unsupported unit: " + UnitText(unit)))
  }

  /** The units below a minute, which never overflow before the range check. */
  function PlusBelowMinute(t: Instant, amount: Long, unit: ChronoUnit): (r: Try<Instant>)
    requires unit in {NANOS, MICROS, MILLIS, SECONDS}
    ensures r.Success? <==> InRange(t + amount * UnitNanos(unit).value)
    ensures r.Success? ==> r.value == t + amount * UnitNanos(unit).value
    ensures r.Failure? ==> r.error == Arithmetic(LONG_OVERFLOW) || r.error == DateTime(RANGE_EXCEEDED)
  {
    match unit
    case NANOS => PlusParts(t, 0, amount)
    case MICROS => PlusFraction(t, amount, 1_000_000, 1_000)
    case MILLIS => PlusFraction(t, amount, 1_000, 1_000_000)
    case SECONDS => PlusParts(t, amount, 0)
  }

  /** The units of a minute and longer, converted to seconds first. */
  function PlusMinutesAndLonger(t: Instant, amount: Long, unit: ChronoUnit): (r: Try<Instant>)
    requires UnitSeconds(unit).Some?
    ensures !SecondsFit(amount, unit) ==> r == Failure(Arithmetic(LONG_OVERFLOW))
    ensures r.Success? <==> SecondsFit(amount, unit) && InRange(t + amount * UnitNanos(unit).value)
    ensures r.Success? ==> r.value == t + amount * UnitNanos(unit).value
    ensures r.Failure? ==> r.error == Arithmetic(LONG_OVERFLOW) || r.error == DateTime(RANGE_EXCEEDED)
  {
    var secondsEach := UnitSeconds(unit).value;
    assert UnitNanos(unit).value == secondsEach * NANOS_PER_SECOND;
    assert amount * UnitNanos(unit).value == amount * secondsEach * NANOS_PER_SECOND;
    PlusWhole(t, amount, secondsEach)
  }

  /** `Instant.truncatedTo(ChronoUnit.MINUTES)`: the start of the minute.
      The JDK computes it from the nanosecond of the day; the result is the
      same instant, and it never leaves the range because `Instant.MIN`
      starts a minute. */
  function TruncatedToMinutes(t: Instant): (r: Instant)
    ensures r <= t < r + NANOS_PER_MINUTE
    ensures r % NANOS_PER_MINUTE == 0
  {
    var r := (t / NANOS_PER_MINUTE) * NANOS_PER_MINUTE;
    DivAtLeast(t, 60_000_000_000, -525_950_236_120_320);
    r
  }

  /** `toEpochMilli()`: the instant in whole milliseconds, rounded down, or
      an `ArithmeticException` when that count does not fit a `long`. */
  function ToEpochMilli(t: Instant): (r: Try<Long>)
    ensures r.Success? <==> InLong(t / NANOS_PER_MILLI)
    ensures r.Success? ==> r.value == t / NANOS_PER_MILLI
    ensures r.Failure? ==> r.error == Arithmetic(LONG_OVERFLOW)
  {
    var seconds := EpochSecond(t);
    var nanos := NanoOfSecond(t);
    assert t / NANOS_PER_MILLI == seconds * 1_000 + nanos / NANOS_PER_MILLI;
    if seconds < 0 && nanos > 0 then
      var millis :- MultiplyExact(seconds + 1, 1_000);
      AddExact(millis, nanos / NANOS_PER_MILLI - 1_000)
    else
      var millis :- MultiplyExact(seconds, 1_000);
      AddExact(millis, nanos / NANOS_PER_MILLI)
  }

  /** `Date.from(instant)`: the epoch milliseconds of the `Date`; an overflow
      is rethrown as an `IllegalArgumentException` with that cause. */
  function DateFrom(t: Instant): (r: Try<Long>)
    ensures r.Success? <==> InLong(t / NANOS_PER_MILLI)
    ensures r.Success? ==> r.value == t / NANOS_PER_MILLI
    ensures r.Failure? ==> r.error == IllegalArgument("java.lang.ArithmeticException: " + LONG_OVERFLOW)
  {
    match ToEpochMilli(t)
    case Success(millis) => Success(millis)
    case Failure(_) => Failure(IllegalArgument("java.lang.ArithmeticException: " + LONG_OVERFLOW))
  }
}
