/** The slice of java.time that the day-of-week time domain relies on, written as integer
    arithmetic on epoch milliseconds (instants are milliseconds since 1970-01-01T00:00Z). */
module JavaTime {
  import opened JavaInt

  const MillisPerSecond := 1000
  const MillisPerMinute := 60_000
  const MillisPerHour := 3_600_000
  const MillisPerDay := 86_400_000

  /** ZoneOffset.ofTotalSeconds accepts offsets of at most 18 hours either way. */
  const MaxOffsetSeconds := 18 * 3600

  /** A fixed offset from UTC, in seconds east of Greenwich. */
  type ZoneOffset = s: int | -MaxOffsetSeconds <= s <= MaxOffsetSeconds

  /** zoneOffsetMinutes is a Java `int`, and `zoneOffsetMinutes * 60` is an `int`
      multiplication, so the seconds handed to ZoneOffset.ofTotalSeconds wrap around; the
      call throws unless the wrapped value is within 18 hours. */
  predicate IsOffsetMinutes(minutes: int) {
    IntMin <= minutes <= IntMax && -MaxOffsetSeconds <= Wrap32(minutes * 60) <= MaxOffsetSeconds
  }

  /** The offset that ZoneOffset.ofTotalSeconds(zoneOffsetMinutes * 60) yields. */
  function OffsetOfMinutes(minutes: int): (z: ZoneOffset)
    requires IsOffsetMinutes(minutes)
    ensures (z - minutes * 60) % 0x1_0000_0000 == 0
    ensures -18 * 60 <= minutes <= 18 * 60 ==> z == minutes * 60 && z / 60 == minutes
  {
    Wrap32(minutes * 60)
  }

  /** Every offset of at most 18 hours, in whole minutes, is accepted. */
  lemma OffsetsWithinRangeAccepted(minutes: int)
    requires -18 * 60 <= minutes <= 18 * 60
    ensures IsOffsetMinutes(minutes) && OffsetOfMinutes(minutes) == minutes * 60
  {
  }

  /** A huge minute count whose product wraps into range is accepted too: 71582789 * 60 is
      2^32 + 44, so the offset is 44 seconds; one minute less wraps to -16 seconds. */
  lemma WrappedOffsetAccepted()
    ensures IsOffsetMinutes(71582789) && OffsetOfMinutes(71582789) == 44
    ensures IsOffsetMinutes(71582788) && OffsetOfMinutes(71582788) == -16
    ensures !IsOffsetMinutes(18 * 60 + 1)
  {
    assert Wrap32(71582789 * 60) == 44;
    assert Wrap32(71582788 * 60) == -16;
  }

  /** java.time.DayOfWeek, numbered as in ISO-8601: Monday is 1, Sunday is 7. */
  datatype DayOfWeek = Monday | Tuesday | Wednesday | Thursday | Friday | Saturday | Sunday {

    function Value(): (n: int)
      ensures 1 <= n <= 7
    {
      match this
      case Monday => 1
      case Tuesday => 2
      case Wednesday => 3
      case Thursday => 4
      case Friday => 5
      case Saturday => 6
      case Sunday => 7
    }

    /** dow.minus(1): the day before, wrapping from Monday back to Sunday. */
    function Previous(): (d: DayOfWeek)
      ensures d.Value() == if Value() == 1 then 7 else Value() - 1
    {
      match this
      case Monday => Sunday
      case Tuesday => Monday
      case Wednesday => Tuesday
      case Thursday => Wednesday
      case Friday => Thursday
      case Saturday => Friday
      case Sunday => Saturday
    }
  }

  /** DayOfWeek.of(n), which throws unless 1 <= n <= 7. */
  function DayOfWeekOf(n: int): (d: DayOfWeek)
    requires 1 <= n <= 7
    ensures d.Value() == n
  {
    if n == 1 then Monday
    else if n == 2 then Tuesday
    else if n == 3 then Wednesday
    else if n == 4 then Thursday
    else if n == 5 then Friday
    else if n == 6 then Saturday
    else Sunday
  }

  lemma {:induction false} DayOfWeekOfValue(d: DayOfWeek)
    ensures DayOfWeekOf(d.Value()) == d
  {
    match d
    case Monday =>
    case Tuesday =>
    case Wednesday =>
    case Thursday =>
    case Friday =>
    case Saturday =>
    case Sunday =>
  }

  /** OffsetTime.of(hour, minute, 0, 0, offset) throws unless the time of day exists. */
  predicate IsTimeOfDay(hour: int, minute: int) {
    0 <= hour <= 23 && 0 <= minute <= 59
  }

  /** A local time of day together with the offset it is expressed in (java.time.OffsetTime
      with zero seconds and nanoseconds). */
  datatype OffsetTime = OffsetTime(hour: int, minute: int, offset: ZoneOffset)

  /** Milliseconds past local midnight of a time of day. */
  function MillisOfDay(hour: int, minute: int): (ms: int)
    requires IsTimeOfDay(hour, minute)
    ensures 0 <= ms < MillisPerDay
    ensures ms % MillisPerMinute == 0
  {
    (hour * 60 + minute) * MillisPerMinute
  }

  /** Duration.ofHours(hours).plusMinutes(minutes), in milliseconds. */
  function DurationOf(hours: int, minutes: int): int {
    (hours * 60 + minutes) * MillisPerMinute
  }

  /** The local date (days since 1970-01-01) of instant `t` seen at `offset`:
      instant.atOffset(offset).toLocalDate(). java.time floors, as Dafny's `/` does. */
  function LocalEpochDay(t: int, offset: ZoneOffset): int {
    (t + offset * MillisPerSecond) / MillisPerDay
  }

  /** The ISO weekday of a local date; 1970-01-01 was a Thursday. */
  function WeekdayOfEpochDay(day: int): DayOfWeek {
    DayOfWeekOf((day + 3) % 7 + 1)
  }

  /** The instant of startTime.atDate(localDate): the time of day on that local date, at the
      OffsetTime's own offset. */
  function AtDate(startTime: OffsetTime, day: int): int
    requires IsTimeOfDay(startTime.hour, startTime.minute)
  {
    day * MillisPerDay + MillisOfDay(startTime.hour, startTime.minute) - startTime.offset * MillisPerSecond
  }

  /** Floor division by a day lands on `day` exactly when the value lies in that day. */
  lemma DivByDay(x: int, day: int)
    requires day * MillisPerDay <= x < (day + 1) * MillisPerDay
    ensures x / MillisPerDay == day
  {
    var q := x / MillisPerDay;
    assert x == q * MillisPerDay + x % MillisPerDay;
  }

  /** The start instant of a time of day on a local date lies on that local date. */
  lemma LocalEpochDayOfAtDate(startTime: OffsetTime, day: int)
    requires IsTimeOfDay(startTime.hour, startTime.minute)
    ensures LocalEpochDay(AtDate(startTime, day), startTime.offset) == day
  {
    DivByDay(AtDate(startTime, day) + startTime.offset * MillisPerSecond, day);
  }

  /** Stepping the local date back by one steps the weekday back by one:
      localDate.minusDays(1).getDayOfWeek() == dow.minus(1). */
  lemma WeekdayOfPreviousDay(day: int)
    ensures WeekdayOfEpochDay(day - 1) == WeekdayOfEpochDay(day).Previous()
  {
    var a := (day + 3) % 7;
    var b := (day - 1 + 3) % 7;
    assert b == if a == 0 then 6 else a - 1;
  }

  /** Weekdays repeat every seven days. */
  lemma WeekdayPeriodic(day: int)
    ensures WeekdayOfEpochDay(day + 7) == WeekdayOfEpochDay(day)
  {
    assert (day + 7 + 3) % 7 == (day + 3) % 7;
  }
}
