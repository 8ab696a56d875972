/** What the two day fields of a cron expression mean, told by the occurrences of simpler expressions. */
module CronRules {
  import opened Prelude
  import opened Calendar
  import opened CronScan
  import opened CronZone

  /** The hour, minute and month fields name the whole minute `t`. */
  predicate ClockNamed(cron: Cron, t: int) {
    && t % MINUTE_MS == 0 && DateOfDay(DayOf(t)).month in cron.months
    && HourOf(t) in cron.hours && MinuteOf(t) in cron.minutes
  }

  /** With one day field wild the other governs alone, with both wild neither does. */
  lemma OneDayFieldGoverns(cron: Cron, t: int)
    requires cron.domWild || cron.dowWild
    ensures Occurs(cron, t) <==>
              && ClockNamed(cron, t)
              && (cron.domWild || DateOfDay(DayOf(t)).day in cron.daysOfMonth)
              && (cron.dowWild || WeekdayOf(DayOf(t)) in cron.daysOfWeek)
  {
    hide DateOfDay, WeekdayOf, HourOf, MinuteOf, DayOf;
  }

  /** The expression with the weekday field, or the day-of-month field, opened to "*". */
  function ByDate(cron: Cron): Cron {
    cron.(dowWild := true)
  }

  function ByWeekday(cron: Cron): Cron {
    cron.(domWild := true)
  }

  /** With both day fields restricted a minute occurs exactly when one of the single-field expressions names it. */
  lemma EitherDayFieldSuffices(cron: Cron, t: int)
    requires !cron.domWild && !cron.dowWild
    ensures Occurs(cron, t) <==> Occurs(ByDate(cron), t) || Occurs(ByWeekday(cron), t)
  {
    hide DateOfDay, WeekdayOf, HourOf, MinuteOf, DayOf;
  }

  /** Its first occurrence after any instant is the earlier of the two first occurrences. */
  lemma FirstIsEarlier(cron: Cron, after: int, t: int)
    requires !cron.domWild && !cron.dowWild
    ensures FirstAfter(cron, after, t) <==>
              || (FirstAfter(ByDate(cron), after, t) && NoneBetween(ByWeekday(cron), after, t))
              || (FirstAfter(ByWeekday(cron), after, t) && NoneBetween(ByDate(cron), after, t))
  {
    hide Occurs;
    EitherDayFieldSuffices(cron, t);
    forall u ensures Occurs(cron, u) <==> Occurs(ByDate(cron), u) || Occurs(ByWeekday(cron), u) {
      EitherDayFieldSuffices(cron, u);
    }
  }

  /** The earlier of two scan results; a failure is later than everything. */
  function Earlier(a: Result<int, ScanError>, b: Result<int, ScanError>): Result<int, ScanError> {
    if a.Err? then b else if b.Err? then a else Ok(if a.value <= b.value then a.value else b.value)
  }

  lemma OneScanError(a: Result<int, ScanError>, b: Result<int, ScanError>)
    ensures a.Err? && b.Err? ==> a == b
  {
    if a.Err? && b.Err? {
      assert a.error == NoOccurrence && b.error == NoOccurrence;
    }
  }

  /** The UTC scan of an expression with both day fields restricted answers the earlier of the single-field scans. */
  lemma UtcTakesEarlier(cron: Cron, after: int, both: Result<int, ScanError>, byDate: Result<int, ScanError>,
          byWeekday: Result<int, ScanError>)
    requires !cron.domWild && !cron.dowWild
    requires UtcResult(cron, after, both) && UtcResult(ByDate(cron), after, byDate)
    requires UtcResult(ByWeekday(cron), after, byWeekday)
    ensures both == Earlier(byDate, byWeekday)
  {
    hide Occurs, NextMinute;
    if both.Ok? { EitherDayFieldSuffices(cron, both.value); }
    if byDate.Ok? { EitherDayFieldSuffices(cron, byDate.value); }
    if byWeekday.Ok? { EitherDayFieldSuffices(cron, byWeekday.value); }
    OneScanError(both, Earlier(byDate, byWeekday));
  }

  lemma EitherAt(cron: Cron, offset: int, t: int)
    requires !cron.domWild && !cron.dowWild
    ensures OccursAt(cron, offset, t) <==> OccursAt(ByDate(cron), offset, t) || OccursAt(ByWeekday(cron), offset, t)
  {
    EitherDayFieldSuffices(cron, t + offset);
  }

  /** And so does the scan over the wall time of a zone. */
  lemma ZoneTakesEarlier(cron: Cron, offset: int, after: int, both: Result<int, ScanError>,
          byDate: Result<int, ScanError>, byWeekday: Result<int, ScanError>)
    requires !cron.domWild && !cron.dowWild
    requires ZoneResult(cron, offset, after, both) && ZoneResult(ByDate(cron), offset, after, byDate)
    requires ZoneResult(ByWeekday(cron), offset, after, byWeekday)
    ensures both == Earlier(byDate, byWeekday)
  {
    hide OccursAt;
    if both.Ok? { EitherAt(cron, offset, both.value); }
    if byDate.Ok? { EitherAt(cron, offset, byDate.value); }
    if byWeekday.Ok? { EitherAt(cron, offset, byWeekday.value); }
    OneScanError(both, Earlier(byDate, byWeekday));
  }

  // ---- weekdays ----

  /**
   * Zeller's congruence for the Gregorian calendar, with Sunday as 0:
   * January and February count to the year before.
   */
  function Zeller(date: Date): int {
    var winter := date.month <= 2;
    var m, y := if winter then date.month + 12 else date.month, if winter then date.year - 1 else date.year;
    (date.day + 13 * (m + 1) / 5 + y + y / 4 - y / 100 + y / 400 + 6) % 7
  }

  /** The weekday of every day is the one of its date. */
  lemma WeekdayOfDate(n: int)
    ensures WeekdayOf(n) == Zeller(DateOfDay(n))
  {
    hide DateOfDay, DayFromYear, DaysBeforeMonth, LeapYear;
    var date := DateOfDay(n);
    var y, m := date.year, date.month;
    YearTerm(y);
    YearTerm(y - 1);
    YearStep(y);
    DaysBeforeMonthInYears(y, m);
    MonthTerm(m);
    if m <= 2 {
      SevensDropOut(date.day + 13 * (m + 13) / 5 + (y - 1) + LeapDays(y - 1) + 6, 52 * (y - 1) + MonthSevens(m));
    } else {
      SevensDropOut(date.day + 13 * (m + 1) / 5 + y + LeapDays(y) + 6, 52 * y + MonthSevens(m));
    }
  }

  function LeapDays(y: int): int {
    y / 4 - y / 100 + y / 400
  }

  lemma SevensDropOut(z: int, q: int)
    ensures (z + 7 * q) % 7 == z % 7
  {
  }

  /** The days before a year, counted in the terms of the congruence. */
  lemma YearTerm(y: int)
    ensures DayFromYear(y + 1) == 365 * y + LeapDays(y) - 719162
  {
    QuarterShift(y);
    CenturyShift(y);
    CycleShift(y);
  }

  lemma QuarterShift(y: int)
    ensures (y - 1968) / 4 == y / 4 - 492
  {
  }

  lemma CenturyShift(y: int)
    ensures (y - 1900) / 100 == y / 100 - 19
  {
  }

  lemma CycleShift(y: int)
    ensures (y - 1600) / 400 == y / 400 - 4
  {
  }

  /** What the months contribute beyond the congruence, in weeks. */
  function MonthSevens(m: int): int {
    4 * m - if m <= 2 then 102747 else 102795
  }

  /** The days before a month, counted in the terms of the congruence. */
  lemma MonthTerm(m: int)
    requires 1 <= m <= 12
    ensures m <= 2 ==> DaysBeforeMonth(2001, m) == 13 * (m + 13) / 5 + 7 * MonthSevens(m) + 719162 + 3
    ensures m > 2 ==> DaysBeforeMonth(2001, m) == 13 * (m + 1) / 5 + 7 * MonthSevens(m) + 719162 + 365 + 3
  {
  }

  lemma FirstDays()
    ensures DayNumber(Date(1970, 1, 1)) == 0 && DayNumber(Date(1970, 1, 2)) == 1
  {
    assert DaysBeforeMonth(1970, 1) == 0 && DayFromYear(1970) == 0;
  }

  /** Day 0 is the first of January 1970. */
  lemma EpochDay()
    ensures DateOfDay(0) == Date(1970, 1, 1) && DateOfDay(1) == Date(1970, 1, 2)
  {
    hide DateOfDay, DayNumber;
    FirstDays();
    DateOfDayNumber(Date(1970, 1, 1));
    DateOfDayNumber(Date(1970, 1, 2));
  }

  const MIDNIGHTS: Cron := Cron({0}, {0}, {13}, {1, 2, 3, 4, 5, 6, 7, 8, 9, 10, 11, 12}, {5}, false, false)

  lemma NoMidnightBefore(u: int)
    requires 0 < u < DAY_MS
    ensures !(u % MINUTE_MS == 0 && HourOf(u) == 0 && MinuteOf(u) == 0)
  {
    hide HourOf, MinuteOf;
    PartsAtTime(u);
    assert DayOf(u) == 0;
  }

  lemma FridayTheSecond()
    ensures Occurs(MIDNIGHTS, DAY_MS)
  {
    hide DateOfDay, HourOf, MinuteOf, DayOf, AtTime;
    EpochDay();
    AtTimeParts(1, 0, 0, 0);
    OneDay();
  }

  lemma OneDay()
    ensures AtTime(1, 0, 0) == DAY_MS
  {
  }

  /** "0 0 13 * 5": every thirteenth and every Friday; after the epoch the Friday comes first. */
  lemma ThirteenthOrFriday()
    ensures FirstAfter(MIDNIGHTS, 0, DAY_MS)
  {
    hide DateMatches, HourOf, MinuteOf, DayOf;
    FridayTheSecond();
    forall u | 0 < u < DAY_MS ensures !Occurs(MIDNIGHTS, u) {
      NoMidnightBefore(u);
    }
  }
}
