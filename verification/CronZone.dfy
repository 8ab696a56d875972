/**
 * The day-by-day scan over the wall time of a zone whose offset from UTC is constant and a whole number
 * of minutes, and its agreement with the UTC scan.
 */
module CronZone {
  import opened Prelude
  import opened Calendar
  import opened CronScan
  import Strings

  datatype Parts = Parts(date: Date, hour: int, minute: int)

  /** The wall-clock fields of an instant; seconds and milliseconds are dropped. */
  function PartsAt(epoch: int, offset: int): Parts {
    var wall := epoch + offset;
    Parts(DateOfDay(DayOf(wall)), HourOf(wall), MinuteOf(wall))
  }

  /** The offset the source measures: off by the milliseconds the fields dropped. */
  function OffsetAt(epoch: int, offset: int): int {
    var p := PartsAt(epoch, offset);
    AtTime(DayNumber(p.date), p.hour, p.minute) - epoch
  }

  /** The host's `%`: the remainder has the sign of the dividend. */
  function Remainder(a: int, b: int): int
    requires b > 0
  {
    if a >= 0 then a % b else -(-a % b)
  }

  lemma WholeMinutes(epoch: int, offset: int)
    requires offset % MINUTE_MS == 0
    ensures (epoch + offset) % MINUTE_MS == epoch % MINUTE_MS
  {
    assert epoch + offset == MINUTE_MS * (epoch / MINUTE_MS + offset / MINUTE_MS) + epoch % MINUTE_MS;
  }

  lemma MeasuredOffset(epoch: int, offset: int)
    requires offset % MINUTE_MS == 0
    ensures OffsetAt(epoch, offset) == offset - epoch % MINUTE_MS
  {
    hide DateOfDay, DayNumber, DayOf, HourOf, MinuteOf, AtTime;
    PartsAtTime(epoch + offset);
    WholeMinutes(epoch, offset);
  }

  /** Where a wall time is put before snapping: the seed's milliseconds ride along. */
  function RawEpoch(date: Date, hour: int, minute: int, offset: int, seed: int): int
    requires 1 <= date.month <= 12
  {
    AtTime(DayNumber(date), hour, minute) - offset + seed % MINUTE_MS
  }

  lemma RawEpochParts(date: Date, hour: int, minute: int, offset: int, seed: int)
    requires 1 <= date.month <= 12 && 0 <= hour < 24 && 0 <= minute < 60 && offset % MINUTE_MS == 0
    ensures var raw := RawEpoch(date, hour, minute, offset, seed);
            && (PartsAt(raw, offset) == Parts(date, hour, minute) <==> ValidDate(date))
            && OffsetAt(raw, offset) == offset - seed % MINUTE_MS
  {
    hide DateOfDay, DayNumber, DayOf, HourOf, MinuteOf, OffsetAt, AtTime;
    var raw := RawEpoch(date, hour, minute, offset, seed);
    AtTimeParts(DayNumber(date), hour, minute, seed % MINUTE_MS);
    if ValidDate(date) {
      DateOfDayNumber(date);
    }
    MeasuredOffset(raw, offset);
    WholeMinutes(raw, offset);
  }

  /**
   * The instant of a wall time. A day past the end of its month never reads back as asked for, so the
   * probe gives up and the last guess is returned without snapping to the minute.
   */
  method WallToEpoch(date: Date, hour: int, minute: int, offset: int, seed: int) returns (epoch: int)
    requires 1 <= date.month <= 12 && 0 <= hour < 24 && 0 <= minute < 60
    requires offset % MINUTE_MS == 0
    ensures var raw := RawEpoch(date, hour, minute, offset, seed);
            epoch == if ValidDate(date) then raw - Remainder(raw, MINUTE_MS) else raw
  {
    hide PartsAt, OffsetAt, DayNumber, AtTime, ValidDate;
    var target := AtTime(DayNumber(date), hour, minute);
    var guess := target - OffsetAt(seed, offset);
    MeasuredOffset(seed, offset);
    RawEpochParts(date, hour, minute, offset, seed);
    for i := 0 to 3
      invariant guess == RawEpoch(date, hour, minute, offset, seed)
      invariant ValidDate(date) ==> i == 0
    {
      if PartsAt(guess, offset) == Parts(date, hour, minute) {
        return guess - Remainder(guess, MINUTE_MS);
      }
      guess := target - OffsetAt(guess, offset);
    }
    return guess;
  }

  lemma SnapExact(target: int, residue: int)
    requires target % MINUTE_MS == 0 && 0 <= residue < MINUTE_MS
    requires target >= 0 || residue == 0
    ensures target + residue - Remainder(target + residue, MINUTE_MS) == target
  {
  }

  // ---- sorted field values ----

  function ValuesFrom(s: set<int>, low: int): (r: seq<int>)
    ensures forall v :: v in r <==> v in s && low <= v < 60
    ensures forall i, j :: 0 <= i < j < |r| ==> r[i] < r[j]
    decreases 60 - low
  {
    if low >= 60 then []
    else
      var rest := ValuesFrom(s, low + 1);
      assert forall v :: v in [low] + rest <==> v == low || v in rest;
      assert forall j :: 0 <= j < |rest| ==> rest[j] in rest;
      if low in s then [low] + rest else rest
  }

  /** `[...set].sort((a, b) => a - b)` for hours and minutes, which are all below 60. */
  function SortedValues(s: set<int>): (r: seq<int>)
    ensures forall v :: v in r <==> v in s && 0 <= v < 60
    ensures forall i, j :: 0 <= i < j < |r| ==> r[i] < r[j]
  {
    ValuesFrom(s, 0)
  }

  // ---- the scan ----

  /** Instant `t` shows an occurrence on the wall clock of the zone. */
  ghost predicate OccursAt(cron: Cron, offset: int, t: int) {
    Occurs(cron, t + offset)
  }

  /** Local midnight of the first of a month: the instant at which a scanned day starts a millisecond late. */
  predicate MonthStart(wall: int) {
    wall % DAY_MS == 0 && DateOfDay(DayOf(wall)).day == 1
  }

  /** The one instant inside the window that the scan of days stops short of. */
  predicate OutOfReach(after: int, offset: int, t: int) {
    t == after + SCAN_CAP - 1 && MonthStart(t + offset)
  }

  lemma OccurrenceOfDay(cron: Cron, u: int)
    requires Occurs(cron, u)
    ensures DateMatches(cron, DayOf(u))
    ensures HourOf(u) in cron.hours && MinuteOf(u) in cron.minutes
    ensures 0 <= HourOf(u) < 24 && 0 <= MinuteOf(u) < 60
    ensures u == AtTime(DayOf(u), HourOf(u), MinuteOf(u))
  {
    hide DateMatches;
    PartsAtTime(u);
  }

  lemma OccurrenceAtTime(cron: Cron, day: int, hour: int, minute: int)
    requires DateMatches(cron, day) && hour in cron.hours && minute in cron.minutes && 0 <= hour < 24
    requires 0 <= minute < 60
    ensures Occurs(cron, AtTime(day, hour, minute))
  {
    hide DateMatches, AtTime, DayOf, HourOf, MinuteOf;
    AtTimeParts(day, hour, minute, 0);
  }

  lemma EarlierTime(day: int, h: int, m: int, k: int, n: int)
    requires 0 <= m < 60 && 0 <= n < 60 && AtTime(day, h, m) < AtTime(day, k, n)
    ensures h < k || (h == k && m < n)
  {
  }

  /** No wall time of the day named by the hours `hs` and the minutes `ms` lies strictly between the bounds. */
  ghost predicate DayClear(day: int, hs: seq<int>, ms: seq<int>, low: int, high: int) {
    forall h, m :: h in hs && m in ms ==> !(low < AtTime(day, h, m) < high)
  }

  lemma ClearMinute(day: int, h: int, ms: seq<int>, j: nat, low: int, high: int)
    requires j < |ms| && DayClear(day, [h], ms[..j], low, high)
    requires !(low < AtTime(day, h, ms[j]) < high)
    ensures DayClear(day, [h], ms[..j + 1], low, high)
  {
    hide AtTime;
    assert ms[..j + 1] == ms[..j] + [ms[j]];
  }

  lemma ClearHour(day: int, hs: seq<int>, i: nat, ms: seq<int>, low: int, high: int)
    requires i < |hs| && DayClear(day, hs[..i], ms, low, high) && DayClear(day, [hs[i]], ms, low, high)
    ensures DayClear(day, hs[..i + 1], ms, low, high)
  {
    hide AtTime;
    assert hs[..i + 1] == hs[..i] + [hs[i]];
  }

  /** `r` is the first occurrence on a day strictly between two instants, if there is one. */
  ghost predicate FirstOnDay(cron: Cron, offset: int, after: int, cap: int, day: int, r: Option<int>) {
    && (r.Some? ==> after < r.value < cap && OccursAt(cron, offset, r.value) && DayOf(r.value + offset) == day)
    && (forall u :: OccursAt(cron, offset, u) && after < u < cap && DayOf(u + offset) == day ==>
          r.Some? && r.value <= u)
  }

  /** In the order of the loops, every wall time before the current one is clear. */
  lemma EarlierIsClear(hs: seq<int>, ms: seq<int>, i: nat, j: nat, h: int, m: int)
    requires i < |hs| && j < |ms| && h in hs && m in ms
    requires forall k, n :: 0 <= k < n < |hs| ==> hs[k] < hs[n]
    requires forall k, n :: 0 <= k < n < |ms| ==> ms[k] < ms[n]
    requires h < hs[i] || (h == hs[i] && m < ms[j])
    ensures h in hs[..i] || (h == hs[i] && m in ms[..j])
  {
    Strings.PrefixMembers(hs, i);
    Strings.PrefixMembers(ms, j);
    var k :| 0 <= k < |hs| && hs[k] == h;
    var n :| 0 <= n < |ms| && ms[n] == m;
  }

  lemma FirstCandidate(cron: Cron, day: int, hs: seq<int>, ms: seq<int>, i: nat, j: nat, low: int, high: int, u: int)
    requires ValidCron(cron) && hs == SortedValues(cron.hours) && ms == SortedValues(cron.minutes)
    requires i < |hs| && j < |ms|
    requires DayClear(day, hs[..i], ms, low, high) && DayClear(day, [hs[i]], ms[..j], low, high)
    requires Occurs(cron, u) && low < u < high && DayOf(u) == day
    ensures AtTime(day, hs[i], ms[j]) <= u
  {
    hide DateMatches, AtTime, DayOf, HourOf, MinuteOf, SortedValues;
    OccurrenceOfDay(cron, u);
    assert ms[j] in ms;
    if u < AtTime(day, hs[i], ms[j]) {
      EarlierTime(day, HourOf(u), MinuteOf(u), hs[i], ms[j]);
      EarlierIsClear(hs, ms, i, j, HourOf(u), MinuteOf(u));
    }
  }

  lemma FoundFirst(cron: Cron, offset: int, after: int, cap: int, day: int, hs: seq<int>, ms: seq<int>, i: nat, j: nat)
    requires ValidCron(cron) && hs == SortedValues(cron.hours) && ms == SortedValues(cron.minutes)
    requires DateMatches(cron, day) && i < |hs| && j < |ms|
    requires DayClear(day, hs[..i], ms, after + offset, cap + offset)
    requires DayClear(day, [hs[i]], ms[..j], after + offset, cap + offset)
    requires after < AtTime(day, hs[i], ms[j]) - offset < cap
    ensures FirstOnDay(cron, offset, after, cap, day, Some(AtTime(day, hs[i], ms[j]) - offset))
  {
    hide DateMatches, AtTime, DayOf, HourOf, MinuteOf, DayClear, Occurs, SortedValues;
    assert hs[i] in hs && ms[j] in ms;
    OccurrenceAtTime(cron, day, hs[i], ms[j]);
    AtTimeParts(day, hs[i], ms[j], 0);
    forall u | OccursAt(cron, offset, u) && after < u < cap && DayOf(u + offset) == day
      ensures AtTime(day, hs[i], ms[j]) - offset <= u
    {
      FirstCandidate(cron, day, hs, ms, i, j, after + offset, cap + offset, u + offset);
    }
  }

  lemma FoundNone(cron: Cron, offset: int, after: int, cap: int, day: int)
    requires DayClear(day, SortedValues(cron.hours), SortedValues(cron.minutes), after + offset, cap + offset)
    ensures FirstOnDay(cron, offset, after, cap, day, None)
  {
    hide DateMatches, AtTime, DayOf, HourOf, MinuteOf, Occurs, SortedValues;
    forall u | OccursAt(cron, offset, u) && DayOf(u + offset) == day ensures !(after < u < cap) {
      OccurrenceOfDay(cron, u + offset);
    }
  }

  lemma CandidateExact(day: int, date: Date, hour: int, minute: int, offset: int, dayStart: int)
    requires ValidDate(date) && DayNumber(date) == day && offset % MINUTE_MS == 0
    requires 0 <= hour < 24 && 0 <= minute < 60
    requires dayStart % MINUTE_MS == 0 || day * DAY_MS - offset >= 0
    ensures var raw := RawEpoch(date, hour, minute, offset, dayStart);
            raw - Remainder(raw, MINUTE_MS) == AtTime(day, hour, minute) - offset
  {
    hide DayNumber, Remainder;
    var target := AtTime(day, hour, minute) - offset;
    assert target == MINUTE_MS * (1440 * day + 60 * hour + minute - offset / MINUTE_MS);
    SnapExact(target, dayStart % MINUTE_MS);
  }

  lemma DayOfParts(dayStart: int, offset: int)
    ensures var date := PartsAt(dayStart, offset).date;
            ValidDate(date) && 1 <= date.month <= 12 && DayNumber(date) == DayOf(dayStart + offset)
  {
    hide DateOfDay, DayNumber;
  }

  lemma ValueRanges(cron: Cron, i: nat, j: nat)
    requires ValidCron(cron) && i < |SortedValues(cron.hours)| && j < |SortedValues(cron.minutes)|
    ensures 0 <= SortedValues(cron.hours)[i] < 24 && 0 <= SortedValues(cron.minutes)[j] < 60
  {
    assert SortedValues(cron.hours)[i] in SortedValues(cron.hours);
    assert SortedValues(cron.minutes)[j] in SortedValues(cron.minutes);
  }

  /** Hours and minutes of one matching day, in order. */
  method ScanDay(cron: Cron, offset: int, after: int, cap: int, dayStart: int, ghost day: int) returns (r: Option<int>)
    requires ValidCron(cron) && offset % MINUTE_MS == 0
    requires DayOf(dayStart + offset) == day && DateMatches(cron, day)
    requires dayStart % MINUTE_MS == 0 || day * DAY_MS - offset >= 0
    ensures FirstOnDay(cron, offset, after, cap, day, r)
  {
    hide *;
    var date := PartsAt(dayStart, offset).date;
    DayOfParts(dayStart, offset);
    var hs, ms := SortedValues(cron.hours), SortedValues(cron.minutes);
    ghost var low, high := after + offset, cap + offset;
    DayClearEmpty(day, hs[..0], ms, low, high);
    for i := 0 to |hs|
      invariant DayClear(day, hs[..i], ms, low, high)
    {
      DayClearEmpty(day, [hs[i]], ms[..0], low, high);
      for j := 0 to |ms|
        invariant DayClear(day, [hs[i]], ms[..j], low, high)
      {
        ValueRanges(cron, i, j);
        var candidate := WallToEpoch(date, hs[i], ms[j], offset, dayStart);
        CandidateExact(day, date, hs[i], ms[j], offset, dayStart);
        if after < candidate < cap {
          FoundFirst(cron, offset, after, cap, day, hs, ms, i, j);
          return Some(candidate);
        }
        ClearMinute(day, hs[i], ms, j, low, high);
      }
      assert ms[..|ms|] == ms;
      ClearHour(day, hs, i, ms, low, high);
    }
    assert hs[..|hs|] == hs;
    FoundNone(cron, offset, after, cap, day);
    return None;
  }

  lemma DayClearEmpty(day: int, hs: seq<int>, ms: seq<int>, low: int, high: int)
    requires hs == [] || ms == []
    ensures DayClear(day, hs, ms, low, high)
  {
  }

  // ---- the day-by-day scan ----

  /** The wall times of earlier days, inside the window, hold no occurrence. */
  ghost predicate DaysClear(cron: Cron, offset: int, after: int, day: int) {
    forall u :: after < u < after + SCAN_CAP && DayOf(u + offset) < day ==> !OccursAt(cron, offset, u)
  }

  /**
   * Where the scan stands: at local midnight of `day`, plus a millisecond on the first of a month, or
   * plus a minute on the very first day when local midnight precedes the epoch.
   */
  ghost predicate DayStartAt(offset: int, after: int, firstDay: int, day: int, dayStart: int) {
    var slip := dayStart - (day * DAY_MS - offset);
    && firstDay == DayOf(after + 1 + offset) <= day
    && (slip == 0 || slip == 1 || slip == MINUTE_MS)
    && (slip == MINUTE_MS ==> day == firstDay)
    && (slip == 1 ==> day > firstDay)
    && (day > firstDay ==> (slip == 1 <==> DateOfDay(day).day == 1))
  }

  lemma DayStartDay(offset: int, after: int, firstDay: int, day: int, dayStart: int)
    requires offset % MINUTE_MS == 0 && after >= 0 && DayStartAt(offset, after, firstDay, day, dayStart)
    ensures DayOf(dayStart + offset) == day
    ensures day > firstDay ==> day * DAY_MS - offset > after
    ensures dayStart % MINUTE_MS == (if dayStart == day * DAY_MS - offset + 1 then 1 else 0)
    ensures dayStart % MINUTE_MS == 0 || day * DAY_MS - offset >= 0
    ensures dayStart <= after + MINUTE_MS + (day - firstDay) * DAY_MS + 1
    ensures after + 1 + (day - firstDay - 1) * DAY_MS < dayStart
  {
    hide DateOfDay;
    var slip := dayStart - (day * DAY_MS - offset);
    DayQuotient(day, slip);
    assert dayStart + offset == day * DAY_MS + slip;
    SlippedMinute(1440 * day - offset / MINUTE_MS, slip);
    assert dayStart == MINUTE_MS * (1440 * day - offset / MINUTE_MS) + slip;
    DayBounds(after + 1 + offset, firstDay, day);
  }

  lemma SlippedMinute(minute: int, slip: int)
    requires slip == 0 || slip == 1 || slip == MINUTE_MS
    ensures (MINUTE_MS * minute + slip) % MINUTE_MS == (if slip == 1 then 1 else 0)
  {
  }

  /** Where the midnight of a later day lies, counted from an instant of the first. */
  lemma DayBounds(t: int, firstDay: int, day: int)
    requires DayOf(t) == firstDay <= day
    ensures day > firstDay ==> t < day * DAY_MS
    ensures day * DAY_MS <= t + (day - firstDay) * DAY_MS
    ensures t + (day - firstDay - 1) * DAY_MS < day * DAY_MS
  {
  }

  /** Local midnight of the day of `after + 1`. */
  lemma FirstDayStart(offset: int, after: int, dayStart: int)
    requires offset % MINUTE_MS == 0 && after >= 0
    requires var first := DateOfDay(DayOf(after + 1 + offset));
             var raw := RawEpoch(first, 0, 0, offset, after + 1);
             dayStart == raw - Remainder(raw, MINUTE_MS)
    ensures DayStartAt(offset, after, DayOf(after + 1 + offset), DayOf(after + 1 + offset), dayStart)
  {
    hide DateOfDay;
    var day := DayOf(after + 1 + offset);
    var midnight := day * DAY_MS - offset;
    var rest := (after + 1) % MINUTE_MS;
    assert midnight == MINUTE_MS * (1440 * day - offset / MINUTE_MS);
    SnapEarly(midnight, rest);
  }

  lemma SnapEarly(target: int, rest: int)
    requires target % MINUTE_MS == 0 && 0 <= rest < MINUTE_MS
    ensures var snapped := target + rest - Remainder(target + rest, MINUTE_MS);
            snapped == target || snapped == target + MINUTE_MS
  {
  }

  /** One wall day forward: exact inside a month, a millisecond late on the first of the next. */
  lemma NextDayStart(offset: int, after: int, firstDay: int, day: int, dayStart: int, next: int)
    requires offset % MINUTE_MS == 0 && after >= 0 && DayStartAt(offset, after, firstDay, day, dayStart)
    requires var tomorrow := DateOfDay(day).(day := DateOfDay(day).day + 1);
             var raw := RawEpoch(tomorrow, 0, 0, offset, dayStart + 1);
             next == if ValidDate(tomorrow) then raw - Remainder(raw, MINUTE_MS) else raw
    ensures DayStartAt(offset, after, firstDay, day + 1, next)
  {
    hide DateOfDay, ValidDate, DayNumber;
    NextDay(day);
    DayStartDay(offset, after, firstDay, day, dayStart);
    var tomorrow := DateOfDay(day).(day := DateOfDay(day).day + 1);
    var midnight := (day + 1) * DAY_MS - offset;
    assert midnight == MINUTE_MS * (1440 * (day + 1) - offset / MINUTE_MS);
    if DateOfDay(day).day == 1 {
      AfterMonthStart(day);
    }
    if ValidDate(tomorrow) {
      SnapExact(midnight, (dayStart + 1) % MINUTE_MS);
    }
  }

  /** The second of a month is never itself the first of one. */
  lemma AfterMonthStart(day: int)
    requires DateOfDay(day).day == 1
    ensures DateOfDay(day + 1).day != 1
  {
    NextDay(day);
  }

  /** What the zone scan computes: the first occurrence strictly inside the window, or that there is none. */
  ghost predicate ZoneResult(cron: Cron, offset: int, after: int, r: Result<int, ScanError>) {
    match r
    case Ok(t) => after < t < after + SCAN_CAP && OccursAt(cron, offset, t)
      && (forall u :: after < u < t ==> !OccursAt(cron, offset, u))
    case Err(_) => forall u :: after < u < after + SCAN_CAP ==> !OccursAt(cron, offset, u)
  }

  /**
   * A day that matches on the first of a month has a match within the same month a year before: by date or by
   * weekday.
   */
  lemma YearEarlierMatches(cron: Cron, day: int) returns (earlier: int)
    requires DateOfDay(day).day == 1 && DateMatches(cron, day)
    ensures day - 366 <= earlier < day && DateMatches(cron, earlier)
  {
    hide DateOfDay, DayNumber;
    YearBefore(day);
    var first := DateOfDay(day).(year := DateOfDay(day).year - 1);
    if DayMatches(cron, 1, WeekdayOf(DayNumber(first))) {
      earlier := DayNumber(first);
    } else {
      earlier := day - 364;
      assert WeekdayOf(earlier) == WeekdayOf(day);
    }
  }

  /** The instant the scan stops short of is never the only occurrence in the window, so nothing is lost by it. */
  lemma NothingOutOfReach(cron: Cron, offset: int, after: int, t: int) returns (u: int)
    requires OutOfReach(after, offset, t) && OccursAt(cron, offset, t)
    ensures after < u < t && OccursAt(cron, offset, u)
  {
    hide DateMatches, DateOfDay, Occurs, HourOf, MinuteOf;
    var wall := t + offset;
    var day := DayOf(wall);
    OccurrenceOfDay(cron, wall);
    var earlier := YearEarlierMatches(cron, day);
    assert wall == AtTime(day, 0, 0) + 0;
    AtTimeParts(day, 0, 0, 0);
    OccurrenceAtTime(cron, earlier, 0, 0);
    u := AtTime(earlier, 0, 0) - offset;
  }

  lemma FoundOnDay(cron: Cron, offset: int, after: int, firstDay: int, day: int, dayStart: int, t: int)
    requires offset % MINUTE_MS == 0 && after >= 0
    requires DayStartAt(offset, after, firstDay, day, dayStart) && dayStart < after + SCAN_CAP
    requires DaysClear(cron, offset, after, day)
    requires FirstOnDay(cron, offset, after, after + SCAN_CAP, day, Some(t))
    ensures ZoneResult(cron, offset, after, Ok(t))
  {
    hide OccursAt, DateOfDay;
    forall u | after < u < t ensures !OccursAt(cron, offset, u) {
      assert DayOf(u + offset) <= day;
    }
  }

  lemma Exhausted(cron: Cron, offset: int, after: int, firstDay: int, day: int, dayStart: int)
    requires offset % MINUTE_MS == 0 && after >= 0
    requires DayStartAt(offset, after, firstDay, day, dayStart) && dayStart >= after + SCAN_CAP
    requires DaysClear(cron, offset, after, day)
    ensures ZoneResult(cron, offset, after, Err(NoOccurrence))
  {
    hide OccursAt, DateOfDay, OutOfReach;
    forall u | after < u < after + SCAN_CAP ensures !OccursAt(cron, offset, u) {
      if OccursAt(cron, offset, u) {
        LastMidnight(cron, offset, after, firstDay, day, dayStart, u);
        var v := NothingOutOfReach(cron, offset, after, u);
        LastMidnight(cron, offset, after, firstDay, day, dayStart, v);
        assert false;
      }
    }
  }

  /** Inside the window and beyond the scanned days lies one midnight only. */
  lemma LastMidnight(cron: Cron, offset: int, after: int, firstDay: int, day: int, dayStart: int, u: int)
    requires offset % MINUTE_MS == 0 && after >= 0
    requires DayStartAt(offset, after, firstDay, day, dayStart) && dayStart >= after + SCAN_CAP
    requires DaysClear(cron, offset, after, day) && after < u < after + SCAN_CAP && OccursAt(cron, offset, u)
    ensures OutOfReach(after, offset, u) && u == after + SCAN_CAP - 1
  {
    hide OccursAt, DateOfDay;
    assert DayOf(u + offset) >= day;
    assert u == day * DAY_MS - offset;
  }

  lemma DayDone(cron: Cron, offset: int, after: int, day: int)
    requires DaysClear(cron, offset, after, day)
    requires DateMatches(cron, day) ==> FirstOnDay(cron, offset, after, after + SCAN_CAP, day, None)
    ensures DaysClear(cron, offset, after, day + 1)
  {
    hide DateMatches, HourOf, MinuteOf, DayOf;
  }

  lemma FirstDayClear(cron: Cron, offset: int, after: int)
    ensures DaysClear(cron, offset, after, DayOf(after + 1 + offset))
  {
    hide OccursAt;
    forall u | OccursAt(cron, offset, u) && after < u ensures DayOf(u + offset) >= DayOf(after + 1 + offset) {
    }
  }

  /** The zone scan: day by day over wall time, then hours and minutes of a matching day. */
  method NextCronInTimezone(cron: Cron, offset: int, after: int) returns (r: Result<int, ScanError>)
    requires ValidCron(cron) && offset % MINUTE_MS == 0 && after >= 0
    ensures ZoneResult(cron, offset, after, r)
  {
    hide *;
    var cap := after + SCAN_CAP;
    var first := PartsAt(after + 1, offset).date;
    DayOfParts(after + 1, offset);
    var dayStart := WallToEpoch(first, 0, 0, offset, after + 1);
    ghost var firstDay := DayOf(after + 1 + offset);
    ghost var day := firstDay;
    StartOfScan(offset, after, first, dayStart);
    FirstDayClear(cron, offset, after);
    var guard := 0;
    while dayStart < cap && guard < 1900
      invariant DayStartAt(offset, after, firstDay, day, dayStart)
      invariant DaysClear(cron, offset, after, day)
      invariant guard == day - firstDay
      decreases 1900 - guard
    {
      guard := guard + 1;
      var date := PartsAt(dayStart, offset).date;
      DayOfParts(dayStart, offset);
      DayStartDay(offset, after, firstDay, day, dayStart);
      DateMatchesParts(cron, dayStart, offset);
      if date.month in cron.months && DayMatches(cron, date.day, WeekdayOf(DayNumber(date))) {
        var found := ScanDay(cron, offset, after, cap, dayStart, day);
        if found.Some? {
          FoundOnDay(cron, offset, after, firstDay, day, dayStart, found.value);
          return Ok(found.value);
        }
      }
      DayDone(cron, offset, after, day);
      var next := WallToEpoch(date.(day := date.day + 1), 0, 0, offset, dayStart + 1);
      DayAdvance(offset, after, firstDay, day, dayStart, date, next);
      dayStart := next;
      day := day + 1;
    }
    GuardNeverBinds(offset, after, firstDay, day, dayStart);
    Exhausted(cron, offset, after, firstDay, day, dayStart);
    return Err(NoOccurrence);
  }

  lemma StartOfScan(offset: int, after: int, first: Date, dayStart: int)
    requires offset % MINUTE_MS == 0 && after >= 0 && first == PartsAt(after + 1, offset).date
    requires 1 <= first.month <= 12
    requires var raw := RawEpoch(first, 0, 0, offset, after + 1);
             dayStart == if ValidDate(first) then raw - Remainder(raw, MINUTE_MS) else raw
    ensures DayStartAt(offset, after, DayOf(after + 1 + offset), DayOf(after + 1 + offset), dayStart)
  {
    hide DateOfDay, RawEpoch, Remainder, DayNumber, ValidDate, DayStartAt;
    DayOfParts(after + 1, offset);
    FirstDayStart(offset, after, dayStart);
  }

  lemma DateMatchesParts(cron: Cron, dayStart: int, offset: int)
    ensures var date := PartsAt(dayStart, offset).date;
            && 1 <= date.month <= 12
            && (DateMatches(cron, DayOf(dayStart + offset)) <==>
                date.month in cron.months && DayMatches(cron, date.day, WeekdayOf(DayNumber(date))))
  {
    hide DateOfDay, DayNumber, DayMatches;
    DayOfParts(dayStart, offset);
  }

  lemma DayAdvance(offset: int, after: int, firstDay: int, day: int, dayStart: int, date: Date, next: int)
    requires offset % MINUTE_MS == 0 && after >= 0 && DayStartAt(offset, after, firstDay, day, dayStart)
    requires date == PartsAt(dayStart, offset).date && 1 <= date.month <= 12
    requires var tomorrow := date.(day := date.day + 1);
             var raw := RawEpoch(tomorrow, 0, 0, offset, dayStart + 1);
             next == if ValidDate(tomorrow) then raw - Remainder(raw, MINUTE_MS) else raw
    ensures DayStartAt(offset, after, firstDay, day + 1, next)
  {
    hide DateOfDay, RawEpoch, Remainder, DayNumber, ValidDate, DayStartAt;
    DayStartDay(offset, after, firstDay, day, dayStart);
    NextDayStart(offset, after, firstDay, day, dayStart, next);
  }

  /** 1900 days are more than the scan window, so only the window ends the scan. */
  lemma GuardNeverBinds(offset: int, after: int, firstDay: int, day: int, dayStart: int)
    requires offset % MINUTE_MS == 0 && after >= 0 && DayStartAt(offset, after, firstDay, day, dayStart)
    requires !(dayStart < after + SCAN_CAP && day - firstDay < 1900)
    ensures dayStart >= after + SCAN_CAP
  {
    hide DayStartAt;
    DayStartDay(offset, after, firstDay, day, dayStart);
  }

  // ---- agreement of the two scans ----

  /** What the UTC scan computes: `NextCronArithmetic` ensures it. */
  ghost predicate UtcResult(cron: Cron, after: int, r: Result<int, ScanError>) {
    match r
    case Ok(t) => FirstAfter(cron, after, t) && t < NextMinute(after) + SCAN_CAP
    case Err(_) => NoneBetween(cron, after, NextMinute(after) + SCAN_CAP)
  }

  /**
   * The zone scan is the UTC scan shifted by the offset, exactly when the next occurrence is inside the zone
   * window.
   */
  lemma ZoneAgreesWithUtc(cron: Cron, offset: int, after: int, zone: Result<int, ScanError>,
          utc: Result<int, ScanError>)
    requires ZoneResult(cron, offset, after, zone) && UtcResult(cron, after + offset, utc)
    ensures zone.Ok? <==> utc.Ok? && utc.value - offset < after + SCAN_CAP
    ensures zone.Ok? ==> utc == Ok(zone.value + offset)
  {
    hide Occurs, MonthStart;
    NextMinuteBounds(after + offset);
    if utc.Ok? {
      var t := utc.value - offset;
      assert OccursAt(cron, offset, t);
      forall u | after < u < t ensures !OccursAt(cron, offset, u) {
        assert after + offset < u + offset < utc.value;
      }
    }
    if zone.Ok? {
      var t := zone.value;
      forall u | after + offset < u < t + offset ensures !Occurs(cron, u) {
        assert !OccursAt(cron, offset, u - offset);
      }
    }
  }

  /** In particular the scans agree whenever the next occurrence is at least a day inside the window. */
  lemma ZoneAgreesADayInside(cron: Cron, offset: int, after: int, zone: Result<int, ScanError>,
          utc: Result<int, ScanError>)
    requires ZoneResult(cron, offset, after, zone) && UtcResult(cron, after + offset, utc)
    requires utc.Ok? && utc.value - offset <= after + SCAN_CAP - DAY_MS
    ensures zone == Ok(utc.value - offset)
  {
    hide Occurs, MonthStart, ZoneResult, UtcResult;
    ZoneAgreesWithUtc(cron, offset, after, zone, utc);
  }
}
