/** The ISO 8601 form of an instant, as the room memory file writes and reads it. */
module IsoTime {
  import opened Prelude
  import opened Calendar
  import Strings

  /** `n` in decimal with leading zeros, its last `width` digits. */
  function Pad(n: nat, width: nat): (r: string)
    ensures |r| == width && forall i :: 0 <= i < |r| ==> Strings.IsDigit(r[i])
  {
    if width == 0 then "" else Pad(n / 10, width - 1) + [(48 + n % 10) as char]
  }

  function Power10(k: nat): nat {
    if k == 0 then 1 else 10 * Power10(k - 1)
  }

  lemma {:induction false} PadValue(n: nat, width: nat)
    requires n < Power10(width)
    ensures Strings.DigitsValue(Pad(n, width)) == n
  {
    if width > 0 {
      PadValue(n / 10, width - 1);
      var r := Pad(n, width);
      assert r[..width - 1] == Pad(n / 10, width - 1) && r[width - 1] == (48 + n % 10) as char;
    }
  }

  /** Instants in the years 0 to 9999: the ones with a four-digit year. */
  predicate InRange(ts: int) {
    0 <= DateOfDay(DayOf(ts)).year <= 9999
  }

  /** `new Date(ts).toISOString()` */
  function FormatTime(ts: int): (r: string)
    requires InRange(ts)
    ensures |r| == 24 && Strings.IsDigit(r[0])
  {
    PartsAtTime(ts);
    IsoText(DateOfDay(DayOf(ts)), HourOf(ts), MinuteOf(ts), ts % MINUTE_MS / 1000, ts % 1000)
  }

  function IsoText(date: Date, hour: nat, minute: nat, second: nat, milli: nat): (r: string)
    requires ValidDate(date) && date.year >= 0
    ensures |r| == 24 && Strings.IsDigit(r[0])
  {
    Pad(date.year, 4) + "-" + Pad(date.month, 2) + "-" + Pad(date.day, 2) + "T"
    + Pad(hour, 2) + ":" + Pad(minute, 2) + ":" + Pad(second, 2) + "." + Pad(milli, 3) + "Z"
  }

  predicate AllDigits(s: string) {
    forall i :: 0 <= i < |s| ==> Strings.IsDigit(s[i])
  }

  predicate IsoShape(s: string) {
    && |s| == 24 && s[4] == '-' && s[7] == '-' && s[10] == 'T' && s[13] == ':' && s[16] == ':' && s[19] == '.'
       && s[23] == 'Z'
    && AllDigits(s[..4]) && AllDigits(s[5..7]) && AllDigits(s[8..10]) && AllDigits(s[11..13])
    && AllDigits(s[14..16]) && AllDigits(s[17..19]) && AllDigits(s[20..23])
  }

  /** `Date.parse` on the ISO form of a real instant. */
  function ParseIso(s: string): Option<int>
    requires IsoShape(s)
  {
    var date := Date(Strings.DigitsValue(s[..4]), Strings.DigitsValue(s[5..7]), Strings.DigitsValue(s[8..10]));
    var hour, minute := Strings.DigitsValue(s[11..13]), Strings.DigitsValue(s[14..16]);
    var second, milli := Strings.DigitsValue(s[17..19]), Strings.DigitsValue(s[20..23]);
    if ValidDate(date) && hour < 24 && minute < 60 && second < 60 then
      Some(AtTime(DayNumber(date), hour, minute) + second * 1000 + milli)
    else None
  }

  lemma Slices(y: string, m: string, d: string, h: string, n: string, s: string, z: string)
    requires |y| == 4 && |m| == 2 && |d| == 2 && |h| == 2 && |n| == 2 && |s| == 2 && |z| == 3
    ensures var t := y + "-" + m + "-" + d + "T" + h + ":" + n + ":" + s + "." + z + "Z";
            && |t| == 24 && t[..4] == y && t[5..7] == m && t[8..10] == d && t[11..13] == h && t[14..16] == n
               && t[17..19] == s
            && t[20..23] == z && t[4] == '-' && t[7] == '-' && t[10] == 'T' && t[13] == ':' && t[16] == ':'
               && t[19] == '.' && t[23] == 'Z'
  {
  }

  /** Reading back what was written gives the same instant, to the millisecond. */
  lemma TimeRoundTrip(ts: int)
    requires InRange(ts)
    ensures IsoShape(FormatTime(ts)) && ParseIso(FormatTime(ts)) == Some(ts)
  {
    hide DateOfDay, DayNumber, HourOf, MinuteOf, DayOf, AtTime, IsoText, IsoShape, FormatTime, ParseIso, InRange;
    SplitMilliseconds(ts);
    var date := DateOfDay(DayOf(ts));
    TextRoundTrip(date, HourOf(ts), MinuteOf(ts), ts % MINUTE_MS / 1000, ts % 1000);
  }

  lemma SplitMilliseconds(ts: int)
    requires InRange(ts)
    ensures var date, second, milli := DateOfDay(DayOf(ts)), ts % MINUTE_MS / 1000, ts % 1000;
            && ValidDate(date) && 0 <= date.year <= 9999 && 1 <= date.month <= 12
            && 0 <= HourOf(ts) < 24 && 0 <= MinuteOf(ts) < 60 && 0 <= second < 60 && 0 <= milli < 1000
            && ts == AtTime(DayNumber(date), HourOf(ts), MinuteOf(ts)) + second * 1000 + milli
            && FormatTime(ts) == IsoText(date, HourOf(ts), MinuteOf(ts), second, milli)
  {
    hide DateOfDay, DayNumber, HourOf, MinuteOf, DayOf, Pad, AtTime;
    PartsAtTime(ts);
    var rest := ts % MINUTE_MS;
    assert ts % 1000 == rest % 1000 by { assert ts == ts / MINUTE_MS * 60 * 1000 + rest; }
  }

  lemma TextRoundTrip(date: Date, hour: nat, minute: nat, second: nat, milli: nat)
    requires ValidDate(date) && 0 <= date.year <= 9999 && hour < 24 && minute < 60 && second < 60 && milli < 1000
    ensures var t := IsoText(date, hour, minute, second, milli);
            IsoShape(t) && ParseIso(t) == Some(AtTime(DayNumber(date), hour, minute) + second * 1000 + milli)
  {
    hide Pad, Strings.DigitsValue, AtTime, DayNumber, Power10;
    MonthAndDay(date);
    Slices(Pad(date.year, 4), Pad(date.month, 2), Pad(date.day, 2), Pad(hour, 2), Pad(minute, 2), Pad(second, 2),
           Pad(milli, 3));
    Powers();
    PadValue(date.year, 4); PadValue(date.month, 2); PadValue(date.day, 2);
    PadValue(hour, 2); PadValue(minute, 2); PadValue(second, 2); PadValue(milli, 3);
  }

  lemma Powers()
    ensures Power10(2) == 100 && Power10(3) == 1000 && Power10(4) == 10000
  {
  }

  lemma MonthAndDay(date: Date)
    requires ValidDate(date)
    ensures 1 <= date.month <= 12 && 1 <= date.day <= 31
  {
  }
}
