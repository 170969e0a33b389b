/** DayOfWeekTimeDomain: a weekly time window — the weekdays on which it opens, a local
    start time, a duration and a fixed zone offset — and the test whether an instant
    falls inside it. */
module DayOfWeekDomain {
  import opened JavaTime

  /** The inclusive interval test of isActiveAtTime: `t` lies between the window's start on
      local date `day` and that start plus the duration, both ends included. */
  predicate InWindow(startTime: OffsetTime, duration: int, day: int, t: int)
    requires IsTimeOfDay(startTime.hour, startTime.minute)
  {
    AtDate(startTime, day) <= t <= AtDate(startTime, day) + duration
  }

  /** isActiveAtTime(t): a window anchored on the query's own local date (when that weekday
      is active) or on the previous local date (when the previous weekday is active, so
      that a window crossing midnight is still seen). */
  function IsActive(activeDays: set<DayOfWeek>, startTime: OffsetTime, duration: int,
                    zoneOffset: ZoneOffset, t: int): (r: bool)
    requires IsTimeOfDay(startTime.hour, startTime.minute)
    ensures r ==> (|| WeekdayOfEpochDay(LocalEpochDay(t, zoneOffset)) in activeDays
                   || WeekdayOfEpochDay(LocalEpochDay(t, zoneOffset)).Previous() in activeDays)
    ensures activeDays == {} ==> !r
  {
    var today := LocalEpochDay(t, zoneOffset);
    var dow := WeekdayOfEpochDay(today);
    if dow in activeDays && InWindow(startTime, duration, today, t) then true
    else if dow.Previous() in activeDays && InWindow(startTime, duration, today - 1, t) then true
    else false
  }

  /** The window that opens on local date `day` contains `t`. */
  ghost predicate CoveredOn(activeDays: set<DayOfWeek>, startTime: OffsetTime, duration: int, day: int, t: int)
    requires IsTimeOfDay(startTime.hour, startTime.minute)
  {
    WeekdayOfEpochDay(day) in activeDays && InWindow(startTime, duration, day, t)
  }

  /** Reference meaning of a weekly window: some occurrence of it, on any active day of
      any week, contains `t`. */
  ghost predicate Covered(activeDays: set<DayOfWeek>, startTime: OffsetTime, duration: int, t: int)
    requires IsTimeOfDay(startTime.hour, startTime.minute)
  {
    exists day :: CoveredOn(activeDays, startTime, duration, day, t)
  }

  /** Every instant the evaluator accepts lies in some occurrence of the window. */
  lemma ActiveOnlyWhenCovered(activeDays: set<DayOfWeek>, startTime: OffsetTime, duration: int,
                              zoneOffset: ZoneOffset, t: int)
    requires IsTimeOfDay(startTime.hour, startTime.minute)
    ensures IsActive(activeDays, startTime, duration, zoneOffset, t) ==> Covered(activeDays, startTime, duration, t)
  {
    var today := LocalEpochDay(t, zoneOffset);
    WeekdayOfPreviousDay(today);
    if IsActive(activeDays, startTime, duration, zoneOffset, t) {
      if CoveredOn(activeDays, startTime, duration, today, t) {
      } else {
        assert CoveredOn(activeDays, startTime, duration, today - 1, t);
      }
    }
  }

  /** For windows of at most one day, expressed at the domain's own offset, looking at
      today's and yesterday's occurrence is enough: every occurrence that contains `t` is
      accepted. */
  lemma CoveredImpliesActive(activeDays: set<DayOfWeek>, startTime: OffsetTime, duration: int,
                             zoneOffset: ZoneOffset, t: int)
    requires IsTimeOfDay(startTime.hour, startTime.minute)
    requires startTime.offset == zoneOffset
    requires duration <= MillisPerDay
    ensures Covered(activeDays, startTime, duration, t) ==> IsActive(activeDays, startTime, duration, zoneOffset, t)
  {
    if Covered(activeDays, startTime, duration, t) {
      var day :| CoveredOn(activeDays, startTime, duration, day, t);
      var local := t + zoneOffset * MillisPerSecond;
      var sod := MillisOfDay(startTime.hour, startTime.minute);
      assert day * MillisPerDay + sod <= local <= day * MillisPerDay + sod + duration;
      var today := LocalEpochDay(t, zoneOffset);
      if local < (day + 1) * MillisPerDay {
        DivByDay(local, day);
        assert today == day;
      } else {
        DivByDay(local, day + 1);
        assert today == day + 1;
        WeekdayOfPreviousDay(today);
      }
    }
  }

  /** With windows of at most one day, the evaluator is exactly the reference meaning. */
  lemma ActiveIffCovered(activeDays: set<DayOfWeek>, startTime: OffsetTime, duration: int,
                         zoneOffset: ZoneOffset, t: int)
    requires IsTimeOfDay(startTime.hour, startTime.minute)
    requires startTime.offset == zoneOffset
    requires duration <= MillisPerDay
    ensures IsActive(activeDays, startTime, duration, zoneOffset, t) <==> Covered(activeDays, startTime, duration, t)
  {
    ActiveOnlyWhenCovered(activeDays, startTime, duration, zoneOffset, t);
    CoveredImpliesActive(activeDays, startTime, duration, zoneOffset, t);
  }

  /** The start of the window on an active weekday is inside it. */
  lemma StartIsInclusive(activeDays: set<DayOfWeek>, startTime: OffsetTime, duration: int,
                         zoneOffset: ZoneOffset, day: int)
    requires IsTimeOfDay(startTime.hour, startTime.minute)
    requires startTime.offset == zoneOffset
    requires 0 <= duration
    requires WeekdayOfEpochDay(day) in activeDays
    ensures IsActive(activeDays, startTime, duration, zoneOffset, AtDate(startTime, day))
  {
    LocalEpochDayOfAtDate(startTime, day);
  }

  /** The end of the window (start plus duration) on an active weekday is inside it too,
      also when it falls on the next local date. */
  lemma EndIsInclusive(activeDays: set<DayOfWeek>, startTime: OffsetTime, duration: int,
                       zoneOffset: ZoneOffset, day: int)
    requires IsTimeOfDay(startTime.hour, startTime.minute)
    requires startTime.offset == zoneOffset
    requires 0 <= duration <= MillisPerDay
    requires WeekdayOfEpochDay(day) in activeDays
    ensures IsActive(activeDays, startTime, duration, zoneOffset, AtDate(startTime, day) + duration)
  {
    var t := AtDate(startTime, day) + duration;
    assert CoveredOn(activeDays, startTime, duration, day, t);
    CoveredImpliesActive(activeDays, startTime, duration, zoneOffset, t);
  }

  /** One millisecond before today's start, the window is inactive unless yesterday's
      occurrence (carried over midnight) still covers that instant. */
  lemma BeforeStartOnlyByCarryOver(activeDays: set<DayOfWeek>, startTime: OffsetTime, duration: int,
                                   zoneOffset: ZoneOffset, day: int)
    requires IsTimeOfDay(startTime.hour, startTime.minute)
    requires startTime.offset == zoneOffset
    requires 0 <= duration <= MillisPerDay
    ensures IsActive(activeDays, startTime, duration, zoneOffset, AtDate(startTime, day) - 1)
        <==> CoveredOn(activeDays, startTime, duration, day - 1, AtDate(startTime, day) - 1)
  {
    var t := AtDate(startTime, day) - 1;
    ActiveIffCovered(activeDays, startTime, duration, zoneOffset, t);
    if Covered(activeDays, startTime, duration, t) {
      var k :| CoveredOn(activeDays, startTime, duration, k, t);
      var sod := MillisOfDay(startTime.hour, startTime.minute);
      assert k * MillisPerDay + sod <= day * MillisPerDay + sod - 1;
      assert day * MillisPerDay + sod - 1 <= k * MillisPerDay + sod + MillisPerDay;
      assert k == day - 1;
    }
  }

  /** A domain whose duration is longer than a day is accepted by the parser (for example
      "h99"), but the evaluator only looks one local date back: a Monday 00:00 window of
      99 hours still covers Wednesday 12:00 (UTC), which isActiveAtTime rejects. */
  lemma LongWindowIsCutShort()
    ensures Covered({Monday}, OffsetTime(0, 0, 0), DurationOf(99, 0), 6 * MillisPerDay + 12 * MillisPerHour)
    ensures !IsActive({Monday}, OffsetTime(0, 0, 0), DurationOf(99, 0), 0, 6 * MillisPerDay + 12 * MillisPerHour)
  {
    // 1970-01-05 (epoch day 4) was a Monday; the query is on epoch day 6, a Wednesday.
    var t := 6 * MillisPerDay + 12 * MillisPerHour;
    assert WeekdayOfEpochDay(4) == Monday;
    assert CoveredOn({Monday}, OffsetTime(0, 0, 0), DurationOf(99, 0), 4, t);
    assert LocalEpochDay(t, 0) == 6;
  }

  /** A Friday 23:00 window of two hours reaches 00:30 on Saturday but not 01:01, and is
      not active on Sunday at 00:30 (UTC; 1970-01-02 was a Friday). */
  lemma FridayLateWindow()
    ensures IsActive({Friday}, OffsetTime(23, 0, 0), DurationOf(2, 0), 0, 2 * MillisPerDay + 30 * MillisPerMinute)
    ensures !IsActive({Friday}, OffsetTime(23, 0, 0), DurationOf(2, 0), 0, 2 * MillisPerDay + 61 * MillisPerMinute)
    ensures !IsActive({Friday}, OffsetTime(23, 0, 0), DurationOf(2, 0), 0, 3 * MillisPerDay + 30 * MillisPerMinute)
  {
    assert LocalEpochDay(2 * MillisPerDay + 30 * MillisPerMinute, 0) == 2;
    assert LocalEpochDay(2 * MillisPerDay + 61 * MillisPerMinute, 0) == 2;
    assert LocalEpochDay(3 * MillisPerDay + 30 * MillisPerMinute, 0) == 3;
    assert WeekdayOfEpochDay(2) == Saturday;
    assert WeekdayOfEpochDay(3) == Sunday;
  }

  /** Weekdays 11:30 for two and a half hours (UTC): active at noon on Wednesday 1970-01-07
      (epoch day 6) and at the closing instant 14:00, not one millisecond later, and not at
      noon on Saturday 1970-01-03 (epoch day 2). */
  lemma WeekdayWindow()
    ensures IsActive({Monday, Tuesday, Wednesday, Thursday, Friday}, OffsetTime(11, 30, 0), DurationOf(2, 30), 0,
                     6 * MillisPerDay + 12 * MillisPerHour)
    ensures IsActive({Monday, Tuesday, Wednesday, Thursday, Friday}, OffsetTime(11, 30, 0), DurationOf(2, 30), 0,
                     6 * MillisPerDay + 14 * MillisPerHour)
    ensures !IsActive({Monday, Tuesday, Wednesday, Thursday, Friday}, OffsetTime(11, 30, 0), DurationOf(2, 30), 0,
                      6 * MillisPerDay + 14 * MillisPerHour + 1)
    ensures !IsActive({Monday, Tuesday, Wednesday, Thursday, Friday}, OffsetTime(11, 30, 0), DurationOf(2, 30), 0,
                      2 * MillisPerDay + 12 * MillisPerHour)
  {
    assert LocalEpochDay(6 * MillisPerDay + 12 * MillisPerHour, 0) == 6;
    assert LocalEpochDay(6 * MillisPerDay + 14 * MillisPerHour, 0) == 6;
    assert LocalEpochDay(6 * MillisPerDay + 14 * MillisPerHour + 1, 0) == 6;
    assert LocalEpochDay(2 * MillisPerDay + 12 * MillisPerHour, 0) == 2;
    assert WeekdayOfEpochDay(6) == Wednesday;
    assert WeekdayOfEpochDay(2) == Saturday;
  }

  /** The values of every field of a DayOfWeekTimeDomain. */
  datatype Snapshot = Snapshot(
    activeDays: set<DayOfWeek>,
    startTime: OffsetTime,
    duration: int,
    zoneOffset: ZoneOffset,
    startHour: int,
    startMinute: int,
    durationHour: int,
    durationMinute: int)

  /** The fields that the six-argument constructor sets. */
  function Constructed(activeDays: set<DayOfWeek>, startHour: int, startMinute: int,
                       durationHour: int, durationMinute: int, zoneOffsetMinutes: int): (s: Snapshot)
    requires IsTimeOfDay(startHour, startMinute) && IsOffsetMinutes(zoneOffsetMinutes)
    ensures s.startTime.offset == s.zoneOffset == OffsetOfMinutes(zoneOffsetMinutes)
    ensures -18 * 60 <= zoneOffsetMinutes <= 18 * 60 ==> s.zoneOffset == zoneOffsetMinutes * 60
    ensures s.startTime.hour == s.startHour == startHour && s.startTime.minute == s.startMinute == startMinute
    ensures s.duration == (durationHour * 60 + durationMinute) * MillisPerMinute
  {
    var zoneOffset := OffsetOfMinutes(zoneOffsetMinutes);
    Snapshot(activeDays, OffsetTime(startHour, startMinute, zoneOffset),
             DurationOf(durationHour, durationMinute), zoneOffset,
             startHour, startMinute, durationHour, durationMinute)
  }

  class DayOfWeekTimeDomain {
    var activeDays: set<DayOfWeek>
    var startTime: OffsetTime
    var duration: int
    var zoneOffset: ZoneOffset

    var startHour: int
    var startMinute: int
    var durationHour: int
    var durationMinute: int

    function State(): Snapshot
      reads this
    {
      Snapshot(activeDays, startTime, duration, zoneOffset,
               startHour, startMinute, durationHour, durationMinute)
    }

    /** The derived fields agree with the integers they were computed from. */
    ghost predicate Valid()
      reads this
    {
      && IsTimeOfDay(startHour, startMinute)
      && startTime == OffsetTime(startHour, startMinute, zoneOffset)
      && duration == DurationOf(durationHour, durationMinute)
    }

    /** The five-argument constructor: zone offset 0. */
    constructor (activeDays: set<DayOfWeek>, startHour: int, startMinute: int,
                 durationHour: int, durationMinute: int)
      requires IsTimeOfDay(startHour, startMinute)
      ensures Valid()
      ensures State() == Constructed(activeDays, startHour, startMinute, durationHour, durationMinute, 0)
    {
      this.activeDays := activeDays;
      this.zoneOffset := 0;
      this.startTime := OffsetTime(startHour, startMinute, 0);
      this.duration := DurationOf(durationHour, durationMinute);
      this.startHour := startHour;
      this.startMinute := startMinute;
      this.durationMinute := durationMinute;
      this.durationHour := durationHour;
    }

    constructor WithOffset(activeDays: set<DayOfWeek>, startHour: int, startMinute: int,
                           durationHour: int, durationMinute: int, zoneOffsetMinutes: int)
      requires IsTimeOfDay(startHour, startMinute)
      requires IsOffsetMinutes(zoneOffsetMinutes)
      ensures Valid()
      ensures State() == Constructed(activeDays, startHour, startMinute, durationHour, durationMinute, zoneOffsetMinutes)
    {
      this.activeDays := activeDays;
      var offset := OffsetOfMinutes(zoneOffsetMinutes);
      this.zoneOffset := offset;
      this.startTime := OffsetTime(startHour, startMinute, offset);
      this.duration := DurationOf(durationHour, durationMinute);
      this.startHour := startHour;
      this.startMinute := startMinute;
      this.durationMinute := durationMinute;
      this.durationHour := durationHour;
    }

    /** Re-expresses the domain at another offset; the weekdays, start hour and minute and
        the duration stay, and the result is what the constructor gives with that offset. */
    method SetZoneOffsetMinutes(zoneOffsetMinutes: int)
      requires Valid()
      requires IsOffsetMinutes(zoneOffsetMinutes)
      modifies this`zoneOffset, this`startTime, this`duration
      ensures Valid()
      ensures State() == Constructed(activeDays, startHour, startMinute, durationHour, durationMinute, zoneOffsetMinutes)
      ensures activeDays == old(activeDays) && startHour == old(startHour) && startMinute == old(startMinute)
      ensures durationHour == old(durationHour) && durationMinute == old(durationMinute)
      ensures duration == old(duration)
    {
      var offset := OffsetOfMinutes(zoneOffsetMinutes);
      this.zoneOffset := offset;
      this.startTime := OffsetTime(startHour, startMinute, offset);
      this.duration := DurationOf(durationHour, durationMinute);
    }

    /** isActiveAtTime(t): only instants inside some weekly occurrence are accepted, and
        for windows of at most one day every such instant is. */
    function IsActiveAtTime(t: int): (r: bool)
      requires Valid()
      reads this
      ensures r ==> Covered(activeDays, startTime, duration, t)
      ensures duration <= MillisPerDay && startTime.offset == zoneOffset ==>
                (r <==> Covered(activeDays, startTime, duration, t))
      ensures activeDays == {} ==> !r
    {
      ActiveOnlyWhenCovered(activeDays, startTime, duration, zoneOffset, t);
      if duration <= MillisPerDay && startTime.offset == zoneOffset then
        ActiveIffCovered(activeDays, startTime, duration, zoneOffset, t);
        IsActive(activeDays, startTime, duration, zoneOffset, t)
      else
        IsActive(activeDays, startTime, duration, zoneOffset, t)
    }

    /** getActiveDays(): the weekdays the evaluator tests; with none, the domain is never
        active. */
    function GetActiveDays(): (r: set<DayOfWeek>)
      reads this
      ensures r == activeDays
      ensures Valid() && r == {} ==> forall t :: !IsActiveAtTime(t)
    {
      activeDays
    }
  }
}
