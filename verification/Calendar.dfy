/** The proleptic Gregorian calendar over day numbers (day 0 is 1970-01-01) and epoch milliseconds. */
module Calendar {

  const MINUTE_MS: int := 60_000
  const HOUR_MS: int := 3_600_000
  const DAY_MS: int := 86_400_000

  datatype Date = Date(year: int, month: int, day: int)

  predicate LeapYear(y: int) {
    y % 4 == 0 && (y % 100 != 0 || y % 400 == 0)
  }

  function DaysInMonth(y: int, m: int): int {
    if m == 2 then (if LeapYear(y) then 29 else 28)
    else if m == 4 || m == 6 || m == 9 || m == 11 then 30
    else 31
  }

  predicate ValidDate(date: Date) {
    1 <= date.month <= 12 && 1 <= date.day <= DaysInMonth(date.year, date.month)
  }

  /** Day number of January 1st. */
  function DayFromYear(y: int): int {
    365 * (y - 1970) + (y - 1969) / 4 - (y - 1901) / 100 + (y - 1601) / 400
  }

  function DaysBeforeMonth(y: int, m: int): int
    requires 1 <= m <= 13
    decreases m
  {
    if m == 1 then 0 else DaysBeforeMonth(y, m - 1) + DaysInMonth(y, m - 1)
  }

  /** The day number `Date.UTC` gives a date; a day past the end of its month runs into the next. */
  function DayNumber(date: Date): int
    requires 1 <= date.month <= 12
  {
    DayFromYear(date.year) + DaysBeforeMonth(date.year, date.month) + date.day - 1
  }

  lemma QuarterStep(x: int)
    ensures (x + 1) / 4 - x / 4 == if (x + 1) % 4 == 0 then 1 else 0
  {
  }

  lemma CenturyStep(x: int)
    ensures (x + 1) / 100 - x / 100 == if (x + 1) % 100 == 0 then 1 else 0
  {
  }

  lemma CycleStep(x: int)
    ensures (x + 1) / 400 - x / 400 == if (x + 1) % 400 == 0 then 1 else 0
  {
  }

  lemma CenturyIsQuarter(y: int)
    ensures (y - 1968) % 4 == 0 <==> y % 4 == 0
    ensures y % 100 == 0 ==> y % 4 == 0
  {
    assert y % 100 == 0 ==> y == 4 * (25 * (y / 100));
  }

  lemma CycleIsCentury(y: int)
    ensures (y - 1900) % 100 == 0 <==> y % 100 == 0
    ensures y % 400 == 0 ==> y % 100 == 0
  {
    assert y % 400 == 0 ==> y == 100 * (4 * (y / 400));
  }

  lemma CycleOrigin(y: int)
    ensures (y - 1600) % 400 == 0 <==> y % 400 == 0
  {
  }

  lemma YearStep(y: int)
    ensures DayFromYear(y + 1) == DayFromYear(y) + (if LeapYear(y) then 366 else 365)
  {
    QuarterStep(y - 1969);
    CenturyStep(y - 1901);
    CycleStep(y - 1601);
    CenturyIsQuarter(y);
    CycleIsCentury(y);
    CycleOrigin(y);
  }

  lemma MonthsOfYear(y: int)
    ensures DaysBeforeMonth(y, 13) == 337 + DaysInMonth(y, 2)
  {
    hide LeapYear;
    assert DaysBeforeMonth(y, 3) == 31 + DaysInMonth(y, 2);
    assert DaysBeforeMonth(y, 5) == DaysBeforeMonth(y, 3) + 31 + 30;
    assert DaysBeforeMonth(y, 7) == DaysBeforeMonth(y, 5) + 31 + 30;
    assert DaysBeforeMonth(y, 9) == DaysBeforeMonth(y, 7) + 31 + 31;
    assert DaysBeforeMonth(y, 11) == DaysBeforeMonth(y, 9) + 30 + 31;
    assert DaysBeforeMonth(y, 13) == DaysBeforeMonth(y, 11) + 30 + 31;
  }

  lemma YearLength(y: int)
    ensures DayFromYear(y + 1) == DayFromYear(y) + (if LeapYear(y) then 366 else 365)
    ensures DaysBeforeMonth(y, 13) == (if LeapYear(y) then 366 else 365)
  {
    hide DayFromYear, DaysBeforeMonth;
    YearStep(y);
    MonthsOfYear(y);
  }

  lemma YearEstimate(n: int)
    ensures var g := 1970 + n * 400 / 146097; DayFromYear(g - 1) <= n < DayFromYear(g + 2)
  {
    var k := n * 400 / 146097;
    var g := 1970 + k;
    assert 146097 * k <= n * 400 < 146097 * k + 146097;
  }

  function YearOfDay(n: int): (y: int)
    ensures DayFromYear(y) <= n < DayFromYear(y + 1)
  {
    var g := 1970 + n * 400 / 146097;
    YearEstimate(n);
    if n < DayFromYear(g) then g - 1
    else if DayFromYear(g + 1) <= n then g + 1
    else g
  }

  function MonthFrom(y: int, m: int, offset: int): (r: int)
    requires 1 <= m <= 12
    requires DaysBeforeMonth(y, m) <= offset < DaysBeforeMonth(y, 13)
    ensures m <= r <= 12 && DaysBeforeMonth(y, r) <= offset < DaysBeforeMonth(y, r + 1)
    decreases 12 - m
  {
    if offset < DaysBeforeMonth(y, m + 1) then m else MonthFrom(y, m + 1, offset)
  }

  /** The date of a day number (`getUTCFullYear`, `getUTCMonth`, `getUTCDate`). */
  function DateOfDay(n: int): (date: Date)
    ensures ValidDate(date) && DayNumber(date) == n
  {
    var y := YearOfDay(n);
    var offset := n - DayFromYear(y);
    YearLength(y);
    var m := MonthFrom(y, 1, offset);
    Date(y, m, offset - DaysBeforeMonth(y, m) + 1)
  }

  lemma {:induction false} DayFromYearMonotone(y: int, z: int)
    requires y <= z
    ensures DayFromYear(y) + 365 * (z - y) <= DayFromYear(z)
    decreases z - y
  {
    if y < z {
      YearLength(y);
      DayFromYearMonotone(y + 1, z);
    }
  }

  lemma {:induction false} DaysBeforeMonthMonotone(y: int, m: int, k: int)
    requires 1 <= m <= k <= 13
    ensures DaysBeforeMonth(y, m) + 28 * (k - m) <= DaysBeforeMonth(y, k)
    decreases k
  {
    if m < k {
      DaysBeforeMonthMonotone(y, m, k - 1);
    }
  }

  lemma DayInsideYear(date: Date)
    requires ValidDate(date)
    ensures DayFromYear(date.year) <= DayNumber(date) < DayFromYear(date.year + 1)
  {
    YearLength(date.year);
    DaysBeforeMonthMonotone(date.year, 1, date.month);
    DaysBeforeMonthMonotone(date.year, date.month + 1, 13);
  }

  lemma SameYear(a: Date, b: Date)
    requires ValidDate(a) && ValidDate(b) && DayNumber(a) == DayNumber(b)
    ensures a.year == b.year
  {
    hide DayFromYear, DaysBeforeMonth, DayNumber;
    DayInsideYear(a);
    DayInsideYear(b);
    if a.year < b.year {
      DayFromYearMonotone(a.year + 1, b.year);
    } else if b.year < a.year {
      DayFromYearMonotone(b.year + 1, a.year);
    }
  }

  /** A day number has one date only, so dates and day numbers undo each other. */
  lemma DateUnique(a: Date, b: Date)
    requires ValidDate(a) && ValidDate(b) && DayNumber(a) == DayNumber(b)
    ensures a == b
  {
    hide DayFromYear;
    SameYear(a, b);
    if a.month < b.month {
      DaysBeforeMonthMonotone(a.year, a.month + 1, b.month);
    } else if b.month < a.month {
      DaysBeforeMonthMonotone(a.year, b.month + 1, a.month);
    }
  }

  lemma DateOfDayNumber(date: Date)
    requires ValidDate(date)
    ensures DateOfDay(DayNumber(date)) == date
  {
    DateUnique(DateOfDay(DayNumber(date)), date);
  }

  /** The date after a date in calendar order. */
  function Following(date: Date): Date {
    if date.day < DaysInMonth(date.year, date.month) then date.(day := date.day + 1)
    else if date.month < 12 then Date(date.year, date.month + 1, 1)
    else Date(date.year + 1, 1, 1)
  }

  lemma FollowingIsNext(date: Date)
    requires ValidDate(date)
    ensures ValidDate(Following(date)) && DayNumber(Following(date)) == DayNumber(date) + 1
  {
    hide DayFromYear;
    YearLength(date.year);
    assert DaysBeforeMonth(date.year, date.month + 1)
      == DaysBeforeMonth(date.year, date.month) + DaysInMonth(date.year, date.month);
    assert DaysBeforeMonth(date.year + 1, 1) == 0;
  }

  /** The day after a date is the next day of its month, or the first of the following month. */
  lemma NextDay(n: int)
    ensures var next := DateOfDay(n).(day := DateOfDay(n).day + 1);
            && DayNumber(next) == n + 1
            && (DateOfDay(n + 1).day == 1 <==> !ValidDate(next))
  {
    hide DayFromYear, DaysBeforeMonth, DateOfDay;
    var date := DateOfDay(n);
    FollowingIsNext(date);
    DateOfDayNumber(Following(date));
  }

  lemma DaysBeforeMonthInYears(y: int, m: int)
    requires 1 <= m <= 12
    ensures DaysBeforeMonth(y, m) == DaysBeforeMonth(2001, m) + if m > 2 && LeapYear(y) then 1 else 0
    decreases m
  {
    if m > 1 {
      DaysBeforeMonthInYears(y, m - 1);
    }
  }

  /** The first of a month a year before, and the same weekday in that month, one or two days after it. */
  lemma YearBefore(n: int)
    requires DateOfDay(n).day == 1
    ensures var date := DateOfDay(n);
            var first := date.(year := date.year - 1);
            && n - 366 <= DayNumber(first) <= n - 365 && DateOfDay(DayNumber(first)) == first
            && DateOfDay(n - 364).month == date.month
  {
    hide DateOfDay, DayFromYear, DaysBeforeMonth;
    var date := DateOfDay(n);
    var first := date.(year := date.year - 1);
    YearStep(date.year - 1);
    DaysBeforeMonthInYears(date.year, date.month);
    DaysBeforeMonthInYears(date.year - 1, date.month);
    DateOfDayNumber(first);
    var same := first.(day := n - 364 - DayNumber(first) + 1);
    DateOfDayNumber(same);
  }

  // ---- times of day ----

  function DayOf(t: int): int { t / DAY_MS }

  function HourOf(t: int): int { t / HOUR_MS % 24 }

  function MinuteOf(t: int): int { t / MINUTE_MS % 60 }

  /** 0 is Sunday; day 0 was a Thursday. */
  function WeekdayOf(day: int): int { (day + 4) % 7 }

  /** Epoch milliseconds of a wall time of a day. */
  function AtTime(day: int, hour: int, minute: int): int {
    day * DAY_MS + hour * HOUR_MS + minute * MINUTE_MS
  }

  lemma AtTimeParts(day: int, hour: int, minute: int, rest: int)
    requires 0 <= hour < 24 && 0 <= minute < 60 && 0 <= rest < MINUTE_MS
    ensures var t := AtTime(day, hour, minute) + rest;
            DayOf(t) == day && HourOf(t) == hour && MinuteOf(t) == minute && t % MINUTE_MS == rest
  {
    DayQuotient(day, hour * HOUR_MS + minute * MINUTE_MS + rest);
    HourQuotient(24 * day + hour, minute * MINUTE_MS + rest);
    MinuteQuotient(60 * (24 * day + hour) + minute, rest);
    ClockMinute(24 * day + hour, minute);
    ClockHour(day, hour);
  }

  lemma ClockMinute(hours: int, minute: int)
    requires 0 <= minute < 60
    ensures (60 * hours + minute) % 60 == minute
  {
  }

  lemma ClockHour(day: int, hour: int)
    requires 0 <= hour < 24
    ensures (24 * day + hour) % 24 == hour
  {
  }

  lemma DayQuotient(q: int, r: int)
    requires 0 <= r < DAY_MS
    ensures (q * DAY_MS + r) / DAY_MS == q
  {
  }

  lemma HourQuotient(q: int, r: int)
    requires 0 <= r < HOUR_MS
    ensures (q * HOUR_MS + r) / HOUR_MS == q
  {
  }

  lemma MinuteQuotient(q: int, r: int)
    requires 0 <= r < MINUTE_MS
    ensures (q * MINUTE_MS + r) / MINUTE_MS == q && (q * MINUTE_MS + r) % MINUTE_MS == r
  {
  }

  lemma PartsAtTime(t: int)
    ensures t == AtTime(DayOf(t), HourOf(t), MinuteOf(t)) + t % MINUTE_MS
    ensures 0 <= HourOf(t) < 24 && 0 <= MinuteOf(t) < 60
  {
    assert t / MINUTE_MS / 60 == t / HOUR_MS;
    assert t / HOUR_MS / 24 == t / DAY_MS;
  }
}
