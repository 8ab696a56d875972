/** The cron fields as people write them: what each written form denotes. */
module CronWriting {
  import opened Prelude
  import opened Strings
  import opened CronParser

  /** "*", one value, or a span. */
  datatype Base = Star | One(value: nat) | Span(lo: nat, hi: nat)

  /** A base with an optional step. */
  datatype Piece = Piece(base: Base, step: Option<nat>)

  function BaseText(base: Base): string {
    match base
    case Star => "*"
    case One(value) => Decimal(value)
    case Span(lo, hi) => Decimal(lo) + "-" + Decimal(hi)
  }

  function PieceText(piece: Piece): string {
    match piece.step
    case None => BaseText(piece.base)
    case Some(step) => BaseText(piece.base) + "/" + Decimal(step)
  }

  function FieldText(pieces: seq<Piece>): string {
    Join(seq(|pieces|, i requires 0 <= i < |pieces| => PieceText(pieces[i])), ',')
  }

  predicate Fits(piece: Piece, min: int, max: int) {
    && (match piece.base
        case Star => true
        case One(value) => min <= value <= max
        case Span(lo, hi) => min <= lo <= hi <= max)
    && (piece.step.Some? ==> piece.step.value >= 1)
  }

  /** The values a written piece stands for. */
  predicate Covers(piece: Piece, min: int, max: int, v: int) {
    match piece.base
    case Star => min <= v <= max && (piece.step.Some? && piece.step.value >= 1 ==> (v - min) % piece.step.value == 0)
    case One(value) => v == value
    case Span(lo, hi) =>
      lo <= v <= hi && (piece.step.Some? && piece.step.value >= 1 ==> (v - lo) % piece.step.value == 0)
  }

  /** Names never begin with a digit. */
  predicate Worded(names: map<string, int>) {
    forall name :: name in names ==> name != "" && !IsDigit(name[0])
  }

  // ---- numbers ----

  predicate Digits(s: string) {
    s != "" && forall i :: 0 <= i < |s| ==> IsDigit(s[i])
  }

  lemma {:induction false} DigitsRun(s: string)
    requires forall i :: 0 <= i < |s| ==> IsDigit(s[i])
    ensures DigitsPrefix(s) == |s|
  {
    if s != "" {
      DigitsRun(s[1..]);
    }
  }

  lemma NumberReads(n: nat)
    ensures ParseInt(Decimal(n)) == Some(n)
  {
    hide Decimal, DigitsPrefix, DigitsValue;
    var s := Decimal(n);
    assert IsDigit(s[0]) && TrimStart(s) == s;
    DigitsRun(s);
    DecimalValue(n);
    assert s[..|s|] == s;
  }

  lemma DigitsAreTrimmed(s: string)
    requires Digits(s)
    ensures Trim(s) == s
  {
    assert IsDigit(s[0]) && IsDigit(s[|s| - 1]);
  }

  lemma ValueReads(n: nat, names: map<string, int>, min: int, max: int)
    requires min <= n <= max && Worded(names)
    ensures ParseValue(Decimal(n), names, min, max) == Ok(n)
  {
    hide ParseInt;
    var s := Decimal(n);
    NumberReads(n);
    assert IsDigit(s[0]) && LowerCase(s)[0] == s[0];
  }

  // ---- pieces ----

  lemma BaseIsTrimmed(base: Base)
    ensures BaseText(base) != "" && Trim(BaseText(base)) == BaseText(base)
    ensures '/' !in BaseText(base) && ',' !in BaseText(base)
  {
    hide Decimal, Trim;
    var s := BaseText(base);
    match base {
      case Star =>
      case One(value) => assert IsDigit(s[0]) && IsDigit(s[|s| - 1]);
      case Span(lo, hi) => assert s[0] == Decimal(lo)[0] && s[|s| - 1] == Decimal(hi)[|Decimal(hi)| - 1];
    }
    InkedEnds(s);
  }

  lemma BaseReads(base: Base, step: nat, min: int, max: int, names: map<string, int>)
    requires Fits(Piece(base, None), min, max) && min <= max && step >= 1 && Worded(names)
    ensures ParseRange(BaseText(base), step, min, max, names)
              == Ok(match base
                    case Star => Segment(min, max, step)
                    case One(value) => Segment(value, value, step)
                    case Span(lo, hi) => Segment(lo, hi, step))
  {
    hide ParseValue, Trim;
    match base {
      case Star =>
      case One(value) =>
        ValueReads(value, names, min, max);
        assert IsDigit(Decimal(value)[0]);
      case Span(lo, hi) =>
        var s := Decimal(lo) + "-" + Decimal(hi);
        assert s[..|Decimal(lo)|] == Decimal(lo) && s[|Decimal(lo)| + 1..] == Decimal(hi);
        FirstIndex(s, '-', |Decimal(lo)|);
        DigitsAreTrimmed(Decimal(lo));
        DigitsAreTrimmed(Decimal(hi));
        ValueReads(lo, names, min, max);
        ValueReads(hi, names, min, max);
    }
  }

  /** A written piece reads as the stepped range it says. */
  lemma PieceReads(piece: Piece, min: int, max: int, names: map<string, int>)
    requires Fits(piece, min, max) && min <= max && Worded(names)
    ensures ParseSegment(PieceText(piece), min, max, names)
              == ParseRange(BaseText(piece.base), Or(piece.step, 1), min, max, names)
    ensures ',' !in PieceText(piece)
  {
    hide ParseRange, BaseText, Trim, ParseInt;
    var base := BaseText(piece.base);
    BaseIsTrimmed(piece.base);
    if piece.step.Some? {
      var s, step := base + "/" + Decimal(piece.step.value), Decimal(piece.step.value);
      SteppedIsTrimmed(piece.base, piece.step.value);
      assert s[..|base|] == base && s[|base| + 1..] == step;
      FirstIndex(s, '/', |base|);
      DigitsAreTrimmed(step);
      NumberReads(piece.step.value);
    }
  }

  lemma SteppedIsTrimmed(base: Base, step: nat)
    ensures var s := BaseText(base) + "/" + Decimal(step); s != "" && Trim(s) == s && ',' !in s
  {
    hide BaseText, Trim;
    BaseIsTrimmed(base);
    var b, s := BaseText(base), BaseText(base) + "/" + Decimal(step);
    TrimmedEnds(b);
    assert s[0] == b[0] && IsDigit(s[|s| - 1]);
    InkedEnds(s);
  }

  lemma TrimmedEnds(s: string)
    requires s != "" && Trim(s) == s
    ensures !Space(s[0])
  {
  }

  lemma InkedEnds(s: string)
    requires s != "" && !Space(s[0]) && !Space(s[|s| - 1])
    ensures Trim(s) == s
  {
  }

  lemma PieceCovers(piece: Piece, min: int, max: int, names: map<string, int>, v: int)
    requires Fits(piece, min, max) && min <= max && Worded(names)
    ensures var seg := ParseSegment(PieceText(piece), min, max, names);
            seg.Ok? && (InSegment(seg.value, v) <==> Covers(piece, min, max, v))
  {
    hide ParseSegment, PieceText, ParseRange, BaseText;
    PieceReads(piece, min, max, names);
    BaseReads(piece.base, Or(piece.step, 1), min, max, names);
  }

  // ---- fields ----

  lemma {:induction false} PiecesRead(pieces: seq<Piece>, texts: seq<string>, min: int, max: int,
          names: map<string, int>)
    requires min <= max && Worded(names) && |texts| == |pieces|
    requires forall i :: 0 <= i < |pieces| ==> Fits(pieces[i], min, max) && texts[i] == PieceText(pieces[i])
    ensures ParseSegments(texts, min, max, names).Ok?
    ensures forall i :: 0 <= i < |pieces| ==>
              ParseSegment(texts[i], min, max, names) == Ok(ParseSegments(texts, min, max, names).value[i])
  {
    hide ParseSegment, PieceText, Fits;
    if pieces != [] {
      var n := |pieces| - 1;
      PiecesRead(pieces[..n], texts[..n], min, max, names);
      PieceCovers(pieces[n], min, max, names, min);
      forall i | 0 <= i < |pieces|
        ensures ParseSegment(texts[i], min, max, names) == Ok(ParseSegments(texts, min, max, names).value[i])
      {
        if i < n {
          assert texts[..n][i] == texts[i];
        }
      }
    }
  }

  predicate AnyCovers(pieces: seq<Piece>, min: int, max: int, v: int) {
    exists i :: 0 <= i < |pieces| && Covers(pieces[i], min, max, v)
  }

  /**
   * A written field denotes exactly the values its pieces cover: "*" all of the range, a number itself, a span
   * its values, and a step every so many of them from the first.
   */
  lemma WrittenField(values: set<int>, pieces: seq<Piece>, min: int, max: int, names: map<string, int>)
    requires min <= max && Worded(names) && pieces != []
    requires forall i :: 0 <= i < |pieces| ==> Fits(pieces[i], min, max)
    ensures FieldDenotes(values, FieldText(pieces), min, max, names) <==>
              forall v :: v in values <==> AnyCovers(pieces, min, max, v)
  {
    hide ParseSegment, ParseSegments, PieceText, Fits, Covers, Split, InSegment;
    var texts := seq(|pieces|, i requires 0 <= i < |pieces| => PieceText(pieces[i]));
    forall i | 0 <= i < |texts| ensures ',' !in texts[i] {
      PieceReads(pieces[i], min, max, names);
    }
    SplitJoin(texts, ',');
    PiecesRead(pieces, texts, min, max, names);
    var segments := ParseSegments(texts, min, max, names).value;
    forall v ensures (exists seg :: seg in segments && InSegment(seg, v)) <==> AnyCovers(pieces, min, max, v) {
      SegmentsCover(pieces, segments, min, max, names, v);
    }
  }

  lemma SegmentsCover(pieces: seq<Piece>, segments: seq<Segment>, min: int, max: int, names: map<string, int>, v: int)
    requires min <= max && Worded(names) && |segments| == |pieces|
    requires forall i :: 0 <= i < |pieces| ==>
               Fits(pieces[i], min, max) && ParseSegment(PieceText(pieces[i]), min, max, names) == Ok(segments[i])
    ensures forall seg :: seg in segments ==> seg.step > 0
    ensures (exists seg :: seg in segments && InSegment(seg, v)) <==> AnyCovers(pieces, min, max, v)
  {
    hide ParseSegment, PieceText, Fits, Covers, InSegment;
    forall i | 0 <= i < |pieces| ensures InSegment(segments[i], v) <==> Covers(pieces[i], min, max, v) {
      PieceCovers(pieces[i], min, max, names, v);
    }
    if i :| 0 <= i < |pieces| && Covers(pieces[i], min, max, v) {
      assert segments[i] in segments && InSegment(segments[i], v);
    }
    if seg :| seg in segments && InSegment(seg, v) {
      var i :| 0 <= i < |segments| && segments[i] == seg;
      assert Covers(pieces[i], min, max, v);
    }
  }

  // ---- names ----

  const MONTHS: seq<string> := ["jan", "feb", "mar", "apr", "may", "jun", "jul", "aug", "sep", "oct", "nov", "dec"]
  const DAYS: seq<string> := ["sun", "mon", "tue", "wed", "thu", "fri", "sat"]

  /** Months are read by name in calendar order, in any letter case. */
  lemma MonthNamesRead(text: string, i: nat)
    requires i < 12 && LowerCase(text) == MONTHS[i]
    ensures ParseValue(text, MONTH_NAMES, 1, 12) == Ok(i + 1)
  {
    hide LowerCase;
  }

  /** Days from Sunday on. */
  lemma DayNamesRead(text: string, i: nat)
    requires i < 7 && LowerCase(text) == DAYS[i]
    ensures ParseValue(text, DAY_NAMES, 0, 7) == Ok(i)
  {
    hide LowerCase;
  }

  /** Upper case makes no difference. */
  lemma CaseIsIgnored(name: string, text: string)
    requires |text| == |name| && forall i :: 0 <= i < |name| ==> 'a' <= name[i] <= 'z'
    requires forall i :: 0 <= i < |name| ==> text[i] == name[i] || text[i] as int + 32 == name[i] as int
    ensures LowerCase(text) == name
  {
  }

  /** No name in use begins with a digit. */
  lemma NamesAreWorded()
    ensures Worded(MONTH_NAMES) && Worded(DAY_NAMES) && Worded(map[])
  {
  }
}
