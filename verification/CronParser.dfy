/** The 5-field cron parser. */
module CronParser {
  import opened Prelude
  import opened Strings
  import opened CronScan

  datatype CronError =
    | FieldCount(count: int)
    | EmptySegment
    | InvalidStep(text: string)
    | ReversedRange(text: string)
    | NameOutOfRange(text: string)
    | NotANumber(text: string)
    | ValueOutOfRange(value: int)

  const MONTH_NAMES: map<string, int> := map[
    "jan" := 1, "feb" := 2, "mar" := 3, "apr" := 4, "may" := 5, "jun" := 6,
    "jul" := 7, "aug" := 8, "sep" := 9, "oct" := 10, "nov" := 11, "dec" := 12]

  const DAY_NAMES: map<string, int> := map[
    "sun" := 0, "mon" := 1, "tue" := 2, "wed" := 3, "thu" := 4, "fri" := 5, "sat" := 6]

  function LowerCase(s: string): string {
    seq(|s|, i requires 0 <= i < |s| => if 'A' <= s[i] <= 'Z' then (s[i] as int + 32) as char else s[i])
  }

  /** One value: a name, or an integer prefix within the range. */
  function ParseValue(text: string, names: map<string, int>, min: int, max: int): (r: Result<int, CronError>)
    ensures r.Ok? ==> min <= r.value <= max
  {
    var lowered := LowerCase(text);
    if lowered in names then
      if names[lowered] < min || names[lowered] > max then Err(NameOutOfRange(text)) else Ok(names[lowered])
    else
      match ParseInt(text)
      case None => Err(NotANumber(text))
      case Some(v) => if v < min || v > max then Err(ValueOutOfRange(v)) else Ok(v)
  }

  /** A stepped range: every `step`-th value from `lo` to `hi`. */
  datatype Segment = Segment(lo: int, hi: int, step: int)

  ghost predicate InSegment(seg: Segment, v: int)
    requires seg.step > 0
  {
    seg.lo <= v <= seg.hi && (v - seg.lo) % seg.step == 0
  }

  function ParseSegment(raw: string, min: int, max: int, names: map<string, int>): (r: Result<Segment, CronError>)
    requires min <= max
    ensures r.Ok? ==> min <= r.value.lo <= r.value.hi <= max && r.value.step > 0
  {
    var text := Trim(raw);
    if text == "" then Err(EmptySegment)
    else
      match IndexOf(text, '/')
      case None => ParseRange(text, 1, min, max, names)
      case Some(slash) =>
        var stepText := Trim(text[slash + 1..]);
        match ParseInt(stepText)
        case None => Err(InvalidStep(stepText))
        case Some(step) =>
          if step < 1 then Err(InvalidStep(stepText)) else ParseRange(Trim(text[..slash]), step, min, max, names)
  }

  function ParseRange(base: string, step: int, min: int, max: int,
          names: map<string, int>): (r: Result<Segment, CronError>)
    requires min <= max && step > 0
    ensures r.Ok? ==> min <= r.value.lo <= r.value.hi <= max && r.value.step == step
  {
    match IndexOf(base, '-')
    case Some(dash) =>
      var lo :- ParseValue(Trim(base[..dash]), names, min, max);
      var hi :- ParseValue(Trim(base[dash + 1..]), names, min, max);
      if lo > hi then Err(ReversedRange(base)) else Ok(Segment(lo, hi, step))
    case None =>
      if base == "*" then Ok(Segment(min, max, step))
      else
        var v :- ParseValue(base, names, min, max);
        Ok(Segment(v, v, step))
  }

  predicate SegmentIn(seg: Segment, min: int, max: int) {
    min <= seg.lo <= seg.hi <= max && seg.step > 0
  }

  /** The segments of a field, or the first error. */
  function ParseSegments(pieces: seq<string>, min: int, max: int,
          names: map<string, int>): (r: Result<seq<Segment>, CronError>)
    requires min <= max
    ensures r.Ok? ==> |r.value| == |pieces|
    ensures r.Ok? ==> forall seg :: seg in r.value ==> SegmentIn(seg, min, max)
  {
    if pieces == [] then Ok([])
    else
      var n := |pieces| - 1;
      var init :- ParseSegments(pieces[..n], min, max, names);
      var last :- ParseSegment(pieces[n], min, max, names);
      Ok(init + [last])
  }

  /** What a field denotes: the union of its stepped ranges. */
  ghost predicate Denotes(values: set<int>, segments: seq<Segment>)
    requires forall seg :: seg in segments ==> seg.step > 0
  {
    forall v :: v in values <==> exists seg :: seg in segments && InSegment(seg, v)
  }

  /** The stepped range of one segment, added value by value. */
  method AddSegment(before: set<int>, seg: Segment) returns (values: set<int>)
    requires seg.step > 0
    ensures forall v :: v in values <==> v in before || InSegment(seg, v)
  {
    values := before;
    var value := seg.lo;
    assert seg.lo - seg.lo == 0;
    while value <= seg.hi
      invariant seg.lo <= value && (value - seg.lo) % seg.step == 0
      invariant forall v :: v in values <==> v in before || (InSegment(seg, v) && v < value)
      decreases seg.hi - value
    {
      values := values + {value};
      StepValues(seg, value);
      value := value + seg.step;
    }
  }

  /** One field; its result is the union of the stepped ranges its segments denote, or the first error. */
  method ParseField(field: string, min: int, max: int, names: map<string, int>) returns (r: Result<set<int>, CronError>)
    requires min <= max
    ensures var segments := ParseSegments(Split(field, ','), min, max, names);
            && (segments.Err? ==> r == Err(segments.error))
            && (segments.Ok? ==> r.Ok? && Denotes(r.value, segments.value))
  {
    hide ParseSegment, ParseSegments, Split, InSegment, Denotes;
    var values: set<int> := {};
    var pieces := Split(field, ',');
    ghost var segments: seq<Segment> := [];
    NoSegments(pieces[..0], min, max, names);
    for i := 0 to |pieces|
      invariant ParseSegments(pieces[..i], min, max, names) == Ok(segments)
      invariant forall seg :: seg in segments ==> seg.step > 0
      invariant Denotes(values, segments)
    {
      var parsed := ParseSegment(pieces[i], min, max, names);
      ParseSegmentsStep(pieces, i, min, max, names);
      if parsed.Err? {
        return Err(parsed.error);
      }
      ghost var before := values;
      values := AddSegment(values, parsed.value);
      DenotesStep(before, segments, parsed.value, values);
      segments := segments + [parsed.value];
    }
    assert pieces[..|pieces|] == pieces;
    return Ok(values);
  }

  lemma NoSegments(pieces: seq<string>, min: int, max: int, names: map<string, int>)
    requires min <= max && pieces == []
    ensures ParseSegments(pieces, min, max, names) == Ok([])
    ensures Denotes({}, [])
  {
  }

  lemma StepValues(seg: Segment, value: int)
    requires seg.step > 0 && seg.lo <= value && (value - seg.lo) % seg.step == 0
    ensures (value + seg.step - seg.lo) % seg.step == 0
    ensures forall v :: InSegment(seg, v) && v < value + seg.step ==> v <= value
  {
    NextMultiple(value - seg.lo, seg.step);
    forall v | InSegment(seg, v) && v < value + seg.step ensures v <= value {
      NoMultipleBetween(value - seg.lo, v - seg.lo, seg.step);
    }
  }

  lemma NextMultiple(x: int, step: int)
    requires step > 0 && x % step == 0
    ensures (x + step) % step == 0
  {
    var q := x / step;
    assert x + step == (q + 1) * step;
    MultipleRemainder(q + 1, step);
  }

  lemma MultipleRemainder(k: int, step: int)
    requires step > 0
    ensures k * step % step == 0
  {
    var q, m := k * step / step, k * step % step;
    assert (k - q) * step == m;
    assert k - q >= 1 ==> (k - q) * step >= step;
    assert k - q <= -1 ==> (k - q) * step <= -step;
  }

  lemma ProductGrows(a: int, b: int, step: int)
    requires a <= b && step > 0
    ensures a * step <= b * step
  {
    assert b * step == a * step + (b - a) * step;
  }

  lemma NoMultipleBetween(x: int, y: int, step: int)
    requires step > 0 && x % step == 0 && y % step == 0 && y < x + step
    ensures y <= x
  {
    var p, q := x / step, y / step;
    assert x == p * step && y == q * step;
    assert (p + 1) * step == x + step;
    if q >= p + 1 {
      ProductGrows(p + 1, q, step);
    } else {
      ProductGrows(q, p, step);
    }
  }

  lemma DenotesStep(before: set<int>, segments: seq<Segment>, seg: Segment, after: set<int>)
    requires seg.step > 0 && forall s :: s in segments ==> s.step > 0
    requires Denotes(before, segments)
    requires forall v :: v in after <==> v in before || InSegment(seg, v)
    ensures forall s :: s in segments + [seg] ==> s.step > 0
    ensures Denotes(after, segments + [seg])
  {
    forall v ensures v in after <==> exists s :: s in segments + [seg] && InSegment(s, v) {
      if v in after && v !in before {
        assert seg in segments + [seg];
      } else if v in after {
        var s :| s in segments && InSegment(s, v);
        assert s in segments + [seg];
      }
    }
  }

  lemma ParseSegmentsStep(pieces: seq<string>, i: nat, min: int, max: int, names: map<string, int>)
    requires min <= max && i < |pieces| && ParseSegments(pieces[..i], min, max, names).Ok?
    ensures var parsed := ParseSegment(pieces[i], min, max, names);
            && (parsed.Ok? ==> ParseSegments(pieces[..i + 1], min, max, names)
                                == Ok(ParseSegments(pieces[..i], min, max, names).value + [parsed.value]))
            && (parsed.Err? ==> ParseSegments(pieces, min, max, names) == Err(parsed.error))
  {
    hide ParseSegment;
    assert pieces[..i + 1][..i] == pieces[..i];
    if ParseSegment(pieces[i], min, max, names).Err? {
      FirstErrorStays(pieces, i + 1, min, max, names);
    }
  }

  lemma {:induction false} FirstErrorStays(pieces: seq<string>, i: nat, min: int, max: int, names: map<string, int>)
    requires min <= max && i <= |pieces| && ParseSegments(pieces[..i], min, max, names).Err?
    ensures ParseSegments(pieces, min, max, names) == Err(ParseSegments(pieces[..i], min, max, names).error)
  {
    hide ParseSegment;
    if i == |pieces| {
      assert pieces[..i] == pieces;
    } else {
      assert pieces[..|pieces| - 1][..i] == pieces[..i];
      FirstErrorStays(pieces[..|pieces| - 1], i, min, max, names);
    }
  }

  /** An accepted field is a non-empty set of values of its range. */
  lemma FieldInRange(values: set<int>, pieces: seq<string>, min: int, max: int, names: map<string, int>)
    requires min <= max && |pieces| > 0 && ParseSegments(pieces, min, max, names).Ok?
    requires Denotes(values, ParseSegments(pieces, min, max, names).value)
    ensures values != {} && forall v :: v in values ==> min <= v <= max
  {
    hide ParseSegments, ParseSegment;
    var segments := ParseSegments(pieces, min, max, names).value;
    assert segments[0] in segments;
    MultipleRemainder(0, segments[0].step);
    assert InSegment(segments[0], segments[0].lo);
    assert segments[0].lo in values;
  }

  // ---- whole expressions ----

  ghost predicate FieldDenotes(values: set<int>, field: string, min: int, max: int, names: map<string, int>)
    requires min <= max
  {
    var segments := ParseSegments(Split(field, ','), min, max, names);
    segments.Ok? && Denotes(values, segments.value)
  }

  /** `expression.trim().split(/\s+/)` */
  function Fields(expression: string): seq<string> {
    Words(Trim(expression))
  }

  ghost predicate Accepted(expression: string) {
    var fields := Fields(expression);
    && |fields| == 5
    && ParseSegments(Split(fields[0], ','), 0, 59, map[]).Ok?
    && ParseSegments(Split(fields[1], ','), 0, 23, map[]).Ok?
    && ParseSegments(Split(fields[2], ','), 1, 31, map[]).Ok?
    && ParseSegments(Split(fields[3], ','), 1, 12, MONTH_NAMES).Ok?
    && ParseSegments(Split(fields[4], ','), 0, 7, DAY_NAMES).Ok?
  }

  /** The sets of a parsed expression are what its five fields denote; day-of-week 7 is Sunday. */
  ghost predicate ParsedFrom(cron: Cron, fields: seq<string>) {
    && |fields| == 5
    && FieldDenotes(cron.minutes, fields[0], 0, 59, map[])
    && FieldDenotes(cron.hours, fields[1], 0, 23, map[])
    && FieldDenotes(cron.daysOfMonth, fields[2], 1, 31, map[])
    && FieldDenotes(cron.months, fields[3], 1, 12, MONTH_NAMES)
    && (exists raw: set<int> :: FieldDenotes(raw, fields[4], 0, 7, DAY_NAMES) && Folded(cron.daysOfWeek, raw))
    && (cron.domWild <==> Trim(fields[2]) == "*")
    && (cron.dowWild <==> Trim(fields[4]) == "*")
  }

  ghost predicate Folded(days: set<int>, raw: set<int>) {
    forall d :: d in days <==> (d in raw && d != 7) || (d == 0 && 7 in raw)
  }

  predicate NonEmptyFields(cron: Cron) {
    && cron.minutes != {} && cron.hours != {} && cron.daysOfMonth != {} && cron.months != {} && cron.daysOfWeek != {}
  }

  /** Accepts exactly the expressions whose five fields parse; what it returns is what they denote. */
  method ParseExpression(expression: string) returns (r: Result<Cron, CronError>)
    ensures r.Ok? <==> Accepted(expression)
    ensures r.Ok? ==> ParsedFrom(r.value, Fields(expression)) && ValidCron(r.value)
    ensures r.Ok? ==> NonEmptyFields(r.value)
  {
    hide Fields, Trim, Split, ParseSegments, Denotes;
    var fields := Fields(expression);
    if |fields| != 5 {
      return Err(FieldCount(|fields|));
    }
    var minutes := ParseField(fields[0], 0, 59, map[]);
    if minutes.Err? { return Err(minutes.error); }
    var hours := ParseField(fields[1], 0, 23, map[]);
    if hours.Err? { return Err(hours.error); }
    var daysOfMonth := ParseField(fields[2], 1, 31, map[]);
    if daysOfMonth.Err? { return Err(daysOfMonth.error); }
    var months := ParseField(fields[3], 1, 12, MONTH_NAMES);
    if months.Err? { return Err(months.error); }
    var raw := ParseField(fields[4], 0, 7, DAY_NAMES);
    if raw.Err? { return Err(raw.error); }
    var daysOfWeek := FoldSunday(raw.value);
    var cron := Cron(minutes.value, hours.value, daysOfMonth.value, months.value, daysOfWeek,
                     Trim(fields[2]) == "*", Trim(fields[4]) == "*");
    FieldInRange(minutes.value, Split(fields[0], ','), 0, 59, map[]);
    FieldInRange(hours.value, Split(fields[1], ','), 0, 23, map[]);
    FieldInRange(daysOfMonth.value, Split(fields[2], ','), 1, 31, map[]);
    FieldInRange(months.value, Split(fields[3], ','), 1, 12, MONTH_NAMES);
    FieldInRange(raw.value, Split(fields[4], ','), 0, 7, DAY_NAMES);
    assert FieldDenotes(raw.value, fields[4], 0, 7, DAY_NAMES);
    FoldedInRange(daysOfWeek, raw.value);
    return Ok(cron);
  }

  lemma FoldedInRange(days: set<int>, raw: set<int>)
    requires Folded(days, raw) && raw != {} && forall v :: v in raw ==> 0 <= v <= 7
    ensures days != {} && forall d :: d in days ==> 0 <= d < 7
  {
    HasMember(raw);
    var v :| v in raw;
    assert (if v == 7 then 0 else v) in days;
  }

  /** `for (const value of raw) days.add(value === 7 ? 0 : value)` */
  method FoldSunday(raw: set<int>) returns (days: set<int>)
    ensures Folded(days, raw)
  {
    days := {};
    var rest := raw;
    while rest != {}
      invariant rest <= raw
      invariant forall d :: d in days <==> (d in raw - rest && d != 7) || (d == 0 && 7 in raw - rest)
      decreases |rest|
    {
      HasMember(rest);
      var value :| value in rest;
      days := days + {if value == 7 then 0 else value};
      rest := rest - {value};
    }
  }
}
