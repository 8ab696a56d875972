/**
 * Next occurrence of a parsed cron expression: the UTC skip scan, and the day-by-day scan over the wall
 * time of a zone at a constant whole-minute offset.
 */
module CronScan {
  import opened Prelude
  import opened Calendar

  /** Next occurrences are searched for over this span only. */
  const SCAN_CAP: int := 5 * 366 * DAY_MS

  datatype Cron = Cron(
    minutes: set<int>, hours: set<int>, daysOfMonth: set<int>, months: set<int>, daysOfWeek: set<int>,
    domWild: bool, dowWild: bool)

  datatype ScanError = NoOccurrence

  /** What the parser guarantees: each field set holds values of its own range. */
  predicate ValidCron(cron: Cron) {
    && (forall v :: v in cron.minutes ==> 0 <= v < 60)
    && (forall v :: v in cron.hours ==> 0 <= v < 24)
    && (forall v :: v in cron.daysOfMonth ==> 1 <= v <= 31)
    && (forall v :: v in cron.months ==> 1 <= v <= 12)
    && (forall v :: v in cron.daysOfWeek ==> 0 <= v < 7)
  }

  /** Day-of-month and day-of-week: when both are restricted either one suffices (the Vixie rule). */
  predicate DayMatches(cron: Cron, dom: int, dow: int) {
    if cron.domWild && cron.dowWild then true
    else if cron.domWild then dow in cron.daysOfWeek
    else if cron.dowWild then dom in cron.daysOfMonth
    else dom in cron.daysOfMonth || dow in cron.daysOfWeek
  }

  predicate DateMatches(cron: Cron, day: int) {
    var date := DateOfDay(day);
    date.month in cron.months && DayMatches(cron, date.day, WeekdayOf(day))
  }

  /** Wall time `t` is a whole minute the expression names. */
  predicate Occurs(cron: Cron, t: int) {
    && t % MINUTE_MS == 0
    && DateMatches(cron, DayOf(t))
    && HourOf(t) in cron.hours
    && MinuteOf(t) in cron.minutes
  }

  /** `t` is the first occurrence strictly after `after`. */
  ghost predicate FirstAfter(cron: Cron, after: int, t: int) {
    after < t && Occurs(cron, t) && NoneBetween(cron, after, t)
  }

  ghost predicate NoneBetween(cron: Cron, after: int, until: int) {
    forall u :: after < u < until ==> !Occurs(cron, u)
  }

  /** `Math.ceil((t + 1) / MINUTE_MS) * MINUTE_MS`: the next whole minute strictly after `t`. */
  function NextMinute(t: int): int {
    (t + MINUTE_MS) / MINUTE_MS * MINUTE_MS
  }

  function NextHour(t: int): int {
    (t + HOUR_MS) / HOUR_MS * HOUR_MS
  }

  function NextMidnight(t: int): int {
    (t + DAY_MS) / DAY_MS * DAY_MS
  }

  lemma NextMinuteBounds(t: int)
    ensures t < NextMinute(t) <= t + MINUTE_MS && NextMinute(t) % MINUTE_MS == 0
  {
  }

  lemma NextHourBounds(t: int)
    ensures t < NextHour(t) <= t + HOUR_MS && NextHour(t) % MINUTE_MS == 0
  {
    assert NextHour(t) == MINUTE_MS * (60 * ((t + HOUR_MS) / HOUR_MS));
  }

  lemma NextMidnightBounds(t: int)
    ensures t < NextMidnight(t) <= t + DAY_MS && NextMidnight(t) % MINUTE_MS == 0
  {
    assert NextMidnight(t) == MINUTE_MS * (1440 * ((t + DAY_MS) / DAY_MS));
  }

  /** Between two whole minutes nothing can occur. */
  lemma SkipMinute(cron: Cron, after: int)
    ensures NoneBetween(cron, after, NextMinute(after))
  {
    hide DateMatches;
    forall u | after < u < NextMinute(after) ensures u % MINUTE_MS != 0 {
      SameMinute(after, u);
    }
  }

  /** Instants after another one and before the next minute are inside its minute, and no whole minutes. */
  lemma SameMinute(t: int, u: int)
    requires t < u < NextMinute(t)
    ensures u / MINUTE_MS == t / MINUTE_MS && u % MINUTE_MS > t % MINUTE_MS
  {
    var q, r := t / MINUTE_MS, t % MINUTE_MS;
    assert t == q * MINUTE_MS + r;
    assert NextMinute(t) == (q + 1) * MINUTE_MS;
    MinuteQuotient(q, u - q * MINUTE_MS);
  }

  /** A day that does not match has no occurrence at all. */
  lemma SkipDay(cron: Cron, t: int)
    requires !DateMatches(cron, DayOf(t))
    ensures NoneBetween(cron, t - 1, NextMidnight(t))
  {
    hide DateMatches, NextMidnight, DayOf;
    forall u | t - 1 < u < NextMidnight(t) ensures DayOf(u) == DayOf(t) {
      SameDay(t, u);
    }
  }

  lemma SameDay(t: int, u: int)
    requires t <= u < NextMidnight(t)
    ensures DayOf(u) == DayOf(t)
  {
    assert u / DAY_MS == t / DAY_MS;
  }

  lemma SameHour(t: int, u: int)
    requires t <= u < NextHour(t)
    ensures HourOf(u) == HourOf(t)
  {
    assert u / HOUR_MS == t / HOUR_MS;
  }

  /** An hour that does not match has no occurrence. */
  lemma SkipHour(cron: Cron, t: int)
    requires HourOf(t) !in cron.hours
    ensures NoneBetween(cron, t - 1, NextHour(t))
  {
    hide DateMatches, NextHour;
    forall u | t - 1 < u < NextHour(t) ensures HourOf(u) == HourOf(t) {
      SameHour(t, u);
    }
  }

  lemma SkipOneMinute(cron: Cron, t: int)
    requires t % MINUTE_MS == 0 && !Occurs(cron, t)
    ensures NoneBetween(cron, t - 1, t + MINUTE_MS)
  {
    forall u | t < u < t + MINUTE_MS ensures !Occurs(cron, u) {
      BetweenMinutes(t, u);
    }
  }

  lemma BetweenMinutes(t: int, u: int)
    requires t % MINUTE_MS == 0 && t < u < t + MINUTE_MS
    ensures u % MINUTE_MS != 0
  {
  }

  /** The UTC skip scan. */
  method NextCronArithmetic(cron: Cron, after: int) returns (r: Result<int, ScanError>)
    ensures r.Ok? ==> FirstAfter(cron, after, r.value) && r.value < NextMinute(after) + SCAN_CAP
    ensures r.Err? ==> NoneBetween(cron, after, NextMinute(after) + SCAN_CAP)
  {
    hide DateOfDay, DayMatches, NextMinute, NextHour, NextMidnight, DayOf, HourOf, MinuteOf, WeekdayOf;
    var t := NextMinute(after);
    var cap := t + SCAN_CAP;
    NextMinuteBounds(after);
    SkipMinute(cron, after);
    while t < cap
      invariant after < t && t % MINUTE_MS == 0
      invariant NoneBetween(cron, after, t)
      decreases cap - t
    {
      var date := DateOfDay(DayOf(t));
      var dayOk := date.month in cron.months && DayMatches(cron, date.day, WeekdayOf(DayOf(t)));
      if dayOk && HourOf(t) in cron.hours && MinuteOf(t) in cron.minutes {
        return Ok(t);
      }
      assert !Occurs(cron, t);
      if !dayOk {
        SkipDay(cron, t);
        NextMidnightBounds(t);
        t := NextMidnight(t);
      } else if HourOf(t) !in cron.hours {
        SkipHour(cron, t);
        NextHourBounds(t);
        t := NextHour(t);
      } else {
        SkipOneMinute(cron, t);
        t := t + MINUTE_MS;
      }
    }
    return Err(NoOccurrence);
  }
}
