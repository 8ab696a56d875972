/** Parsing undoes posting, and notes never disturb the posts. */
module MemoryLaws {
  import opened Prelude
  import opened Strings
  import opened IsoTime
  import opened MemoryText
  import opened RoomMemory

  // ---- lines and texts ----

  predicate OneLine(s: string) {
    '\n' !in s
  }

  predicate AllOneLine(lines: seq<string>) {
    forall i :: 0 <= i < |lines| ==> OneLine(lines[i])
  }

  lemma {:induction false} JoinAppend(a: seq<string>, b: seq<string>)
    requires a != [] && b != []
    ensures Join(a + b, '\n') == Join(a, '\n') + "\n" + Join(b, '\n')
  {
    if |a| == 1 {
      assert (a + b)[1..] == b;
    } else {
      assert (a + b)[1..] == a[1..] + b;
      JoinAppend(a[1..], b);
      assert Join(a + b, '\n') == a[0] + "\n" + (Join(a[1..], '\n') + "\n" + Join(b, '\n'));
      assert Join(a + b, '\n') == (a[0] + "\n" + Join(a[1..], '\n')) + "\n" + Join(b, '\n');
    }
  }

  /** The lines of two texts joined by a line break. */
  lemma SplitAppend(s: string, t: string)
    ensures Split(s + "\n" + t, '\n') == Split(s, '\n') + Split(t, '\n')
  {
    var a, b := Split(s, '\n'), Split(t, '\n');
    JoinAppend(a, b);
    SplitJoin(a + b, '\n');
  }

  lemma SplitOneLine(s: string)
    requires OneLine(s)
    ensures Split(s, '\n') == [s]
  {
  }

  lemma SplitWithBreak(s: string)
    ensures Split(s + "\n", '\n') == Split(s, '\n') + [""]
  {
    SplitAppend(s, "");
    assert s + "\n" + "" == s + "\n";
  }

  lemma TrimEndOfInk(s: string)
    requires s == "" || !Space(s[|s| - 1])
    ensures TrimEnd(s) == s && TrimEnd(s + "\n") == s
  {
    assert (s + "\n")[..|s|] == s;
  }

  lemma {:induction false} TrimEndBehind(p: string, x: string)
    requires TrimEnd(x) != ""
    ensures TrimEnd(p + x) == p + TrimEnd(x)
  {
    if x != [] && Space(x[|x| - 1]) {
      assert (p + x)[..|p + x| - 1] == p + x[..|x| - 1];
      TrimEndBehind(p, x[..|x| - 1]);
    }
  }

  lemma TrimEndBreak(s: string)
    ensures TrimEnd(s + "\n") == TrimEnd(s)
  {
    assert (s + "\n")[..|s|] == s;
  }

  // ---- reading line by line ----

  lemma {:induction false} ReadAppend(host: HostDate, a: seq<string>, b: seq<string>, place: Place)
    ensures PlaceAfter(a + b, place) == PlaceAfter(b, PlaceAfter(a, place))
    ensures PostsFrom(host, a + b, place) == PostsFrom(host, a, place) + PostsFrom(host, b, PlaceAfter(a, place))
  {
    hide PostOf, NextPlace, PostsFrom, PlaceAfter;
    if a == [] {
      assert a + b == b;
      ReadNothing(host, place);
    } else {
      ReadFirst(host, a, place);
      ReadFirst(host, a + b, place);
      assert (a + b)[1..] == a[1..] + b;
      ReadAppend(host, a[1..], b, NextPlace(place, a[0]));
    }
  }

  lemma ReadNothing(host: HostDate, place: Place)
    ensures PostsFrom(host, [], place) == [] && PlaceAfter([], place) == place
  {
  }

  lemma ReadFirst(host: HostDate, lines: seq<string>, place: Place)
    requires lines != []
    ensures PlaceAfter(lines, place) == PlaceAfter(lines[1..], NextPlace(place, lines[0]))
    ensures PostsFrom(host, lines, place)
              == PostOf(host, place, lines[0]) + PostsFrom(host, lines[1..], NextPlace(place, lines[0]))
  {
    hide PostOf, NextPlace;
  }

  /** A line that is neither a post nor a heading the reader knows. */
  predicate Neutral(host: HostDate, line: string) {
    line != TIMELINE && !StartsWith(line, "## ") && ParseLine(host, line) == None
  }

  lemma ReadOne(host: HostDate, line: string, place: Place)
    ensures PlaceAfter([line], place) == NextPlace(place, line)
    ensures PostsFrom(host, [line], place) == PostOf(host, place, line)
  {
    assert [line][1..] == [];
    assert PostsFrom(host, [line], place) == PostOf(host, place, line) + PostsFrom(host, [], NextPlace(place, line));
  }

  lemma ReadMiddle(host: HostDate, a: seq<string>, line: string, b: seq<string>)
    requires Neutral(host, line)
    ensures PlaceAfter(a + [line] + b, Before) == PlaceAfter(a + b, Before)
    ensures PostsFrom(host, a + [line] + b, Before) == PostsFrom(host, a + b, Before)
  {
    hide ParseLine, StartsWith, PlaceAfter, PostsFrom;
    ReadAppend(host, a + [line], b, Before);
    ReadAppend(host, a, [line], Before);
    ReadAppend(host, a, b, Before);
    ReadOne(host, line, PlaceAfter(a, Before));
  }

  lemma EmptyLineNeutral(host: HostDate)
    ensures Neutral(host, "")
  {
  }

  // ---- the file ----

  /** What every file written by the service keeps: one final line break, all sections, the timeline last. */
  predicate FileKept(content: string) {
    && content == TrimEnd(content) + "\n"
    && PlaceAfter(Split(content, '\n'), Before) == Inside
    && forall s :: s in SECTIONS ==> "## " + s in Split(content, '\n')
  }

  /** A body that leaves no white space at the end of its line. */
  predicate Settled(body: string) {
    var n := NormalizeBody(body);
    n != "" && !Space(n[|n| - 1])
  }

  lemma LineIsOne(ts: int, actor: string, body: string)
    requires InRange(ts) && OneLine(actor)
    ensures OneLine(TimelineLine(ts, actor, body)) && OneLine(NoteLine(ts, actor, body))
  {
    hide FormatTime, NormalizeBody, ParseIso;
    TimeRoundTrip(ts);
    var time, text := FormatTime(ts), NormalizeBody(body);
    forall i | 0 <= i < |time| ensures time[i] != '\n' { NoQuoteInIso(time, i); }
    assert '\n' !in time && '\n' !in text;
  }

  /** Reading a text followed by one more line. */
  lemma ReadLastLine(host: HostDate, base: string, line: string)
    requires OneLine(line)
    ensures var s := base + "\n" + line + "\n";
            && Split(s, '\n') == Split(base, '\n') + [line] + [""]
            && PlaceAfter(Split(s, '\n'), Before) == NextPlace(PlaceAfter(Split(base, '\n'), Before), line)
            && Posts(host, s) == Posts(host, base) + PostOf(host, PlaceAfter(Split(base, '\n'), Before), line)
  {
    hide ParseLine, StartsWith, PlaceAfter, PostsFrom, Split, PostOf;
    var lines := Split(base, '\n');
    SplitAppend(base, line);
    SplitOneLine(line);
    SplitWithBreak(base + "\n" + line);
    EmptyLineNeutral(host);
    ReadMiddle(host, lines + [line], "", []);
    assert lines + [line] + [""] + [] == lines + [line] + [""] && lines + [line] + [] == lines + [line];
    ReadAppend(host, lines, [line], Before);
    ReadOne(host, line, PlaceAfter(lines, Before));
  }

  lemma ReadTidy(host: HostDate, base: string)
    ensures Posts(host, base + "\n") == Posts(host, base)
    ensures PlaceAfter(Split(base + "\n", '\n'), Before) == PlaceAfter(Split(base, '\n'), Before)
  {
    hide ParseLine, StartsWith, PlaceAfter, PostsFrom, Split;
    SplitWithBreak(base);
    EmptyLineNeutral(host);
    var lines := Split(base, '\n');
    ReadMiddle(host, lines, "", []);
    assert lines + [""] + [] == lines + [""] && lines + [] == lines;
  }

  lemma TimelineLineIsNoHeading(ts: int, actor: string, body: string)
    requires InRange(ts)
    ensures var line := TimelineLine(ts, actor, body);
            line != TIMELINE && !StartsWith(line, "## ") && line != "" && line[0] == '-'
  {
    hide FormatTime, NormalizeBody, StartsWith;
    var rest := FormatTime(ts) + ("` **" + actor + "**: " + NormalizeBody(body));
    Regroup("- `", FormatTime(ts), "` **", actor, "**: ", NormalizeBody(body));
    DashIsNoHeading("- `" + rest);
  }

  lemma Regroup(a: string, b: string, c: string, d: string, e: string, f: string)
    ensures a + b + c + d + e + f == a + (b + (c + d + e + f))
  {
  }

  lemma DashIsNoHeading(line: string)
    requires line != "" && line[0] == '-'
    ensures line != TIMELINE && !StartsWith(line, "## ")
  {
  }

  /**
   * Appending a post to a kept file adds exactly that post, with its normalized body, to the parsed posts,
   * if and only if the post is legible.
   */
  lemma PostIsAdded(host: HostDate, sheet: Sheet, content: string, ts: int, actor: string, body: string)
    requires FileKept(content) && InRange(ts)
    ensures Posts(host, WithPost(sheet, content, TimelineLine(ts, actor, body)))
              == Posts(host, content) + [Post(actor, NormalizeBody(body), ts)]
            <==> Legible(actor, body)
  {
    hide ParseLine, PlaceAfter, PostsFrom, Split, TimelineLine, NormalizeBody, Legible, StartsWith, TrimEnd, Posts;
    hide FileKept, WithPost;
    LegibleIsOneLine(actor, body);
    if OneLine(actor) {
      OneLinePostIsAdded(host, sheet, content, ts, actor, body);
    } else {
      ReadActorsAreOneLine(host, WithPost(sheet, content, TimelineLine(ts, actor, body)));
      var wanted := Posts(host, content) + [Post(actor, NormalizeBody(body), ts)];
      assert !OneLine(wanted[|wanted| - 1].actor);
    }
  }

  lemma LegibleIsOneLine(actor: string, body: string)
    ensures Legible(actor, body) ==> OneLine(actor)
  {
  }

  /** A name read back lies inside one line. */
  lemma ReadActorsAreOneLine(host: HostDate, content: string)
    ensures forall i :: 0 <= i < |Posts(host, content)| ==> OneLine(Posts(host, content)[i].actor)
  {
    hide PostsFrom;
    ActorsOfLines(host, Split(content, '\n'), Before);
  }

  lemma {:induction false} ActorsOfLines(host: HostDate, lines: seq<string>, place: Place)
    requires AllOneLine(lines)
    ensures forall i :: 0 <= i < |PostsFrom(host, lines, place)| ==> OneLine(PostsFrom(host, lines, place)[i].actor)
  {
    hide ParseLine, OneLine, NextPlace;
    if lines != [] {
      ParsedActorIsOneLine(host, lines[0]);
      ActorsOfLines(host, lines[1..], NextPlace(place, lines[0]));
    }
  }

  lemma ParsedActorIsOneLine(host: HostDate, line: string)
    requires OneLine(line)
    ensures ParseLine(host, line).Some? ==> OneLine(ParseLine(host, line).value.actor)
  {
    hide ParseTime, AllDot;
    if ParseLine(host, line).Some? {
      var from := 3 + IndexOf(line[3..], '`').value + 4;
      var actor := ParseLine(host, line).value.actor;
      assert forall i :: 0 <= i < |actor| ==> actor[i] == line[from + i];
    }
  }

  lemma OneLinePostIsAdded(host: HostDate, sheet: Sheet, content: string, ts: int, actor: string, body: string)
    requires FileKept(content) && InRange(ts) && OneLine(actor)
    ensures Posts(host, WithPost(sheet, content, TimelineLine(ts, actor, body)))
              == Posts(host, content) + [Post(actor, NormalizeBody(body), ts)]
            <==> Legible(actor, body)
  {
    hide ParseLine, PlaceAfter, PostsFrom, Split, TimelineLine, NormalizeBody, Legible, StartsWith, TrimEnd, Posts;
    var line := TimelineLine(ts, actor, body);
    var base := TrimEnd(content);
    LineIsOne(ts, actor, body);
    TimelineLineIsNoHeading(ts, actor, body);
    ReadTidy(host, base);
    ReadLastLine(host, base, line);
    LineRoundTrip(host, ts, actor, body);
    assert content == base + "\n";
    SameTail(Posts(host, base), PostOf(host, Inside, line), [Post(actor, NormalizeBody(body), ts)]);
  }

  lemma SameTail<T>(a: seq<T>, b: seq<T>, c: seq<T>)
    ensures a + b == a + c <==> b == c
  {
    if a + b == a + c {
      assert b == (a + b)[|a|..] && c == (a + c)[|a|..];
    }
  }

  /** How a post line ends: with its body. */
  lemma TimelineLineEnds(ts: int, actor: string, body: string)
    requires InRange(ts)
    ensures var line, n := TimelineLine(ts, actor, body), NormalizeBody(body);
            line != "" && (Space(line[|line| - 1]) <==> !Settled(body))
  {
    hide FormatTime, NormalizeBody;
    var front, n := "- `" + FormatTime(ts) + "` **" + actor + MARK, NormalizeBody(body);
    assert TimelineLine(ts, actor, body) == front + n;
    assert front[|front| - 1] == ' ';
  }

  /** A file built from an open timeline and one more line with ink at its end is kept. */
  lemma OpenFileKept(base: string, line: string)
    requires PlaceAfter(Split(base, '\n'), Before) == Inside
    requires forall s :: s in SECTIONS ==> "## " + s in Split(base, '\n')
    requires OneLine(line) && line != TIMELINE && !StartsWith(line, "## ") && line != "" && !Space(line[|line| - 1])
    ensures FileKept(base + "\n" + line + "\n")
  {
    hide PlaceAfter, PostsFrom, Split, TrimEnd, StartsWith;
    var s := base + "\n" + line;
    ReadLastLine(t => 0, base, line);
    TrimEndOfInk(s);
  }

  lemma HeadersOfBase(base: string)
    requires forall s :: s in SECTIONS ==> "## " + s in Split(base + "\n", '\n')
    ensures forall s :: s in SECTIONS ==> "## " + s in Split(base, '\n')
  {
    hide Split;
    SplitWithBreak(base);
    forall s | s in SECTIONS ensures "## " + s in Split(base, '\n') {
      assert "## " + s in Split(base + "\n", '\n');
      assert "## " + s != "";
    }
  }

  /** Posting keeps the file when the body leaves no white space at the end of its line. */
  lemma PostKeepsFile(sheet: Sheet, content: string, ts: int, actor: string, body: string)
    requires FileKept(content) && InRange(ts) && OneLine(actor) && Settled(body)
    ensures FileKept(WithPost(sheet, content, TimelineLine(ts, actor, body)))
  {
    hide ParseLine, PlaceAfter, PostsFrom, Split, TimelineLine, NormalizeBody, StartsWith, TrimEnd;
    LineIsOne(ts, actor, body);
    TimelineLineIsNoHeading(ts, actor, body);
    TimelineLineEnds(ts, actor, body);
    var base := TrimEnd(content);
    ReadTidy(t => 0, base);
    HeadersOfBase(base);
    OpenFileKept(base, TimelineLine(ts, actor, body));
  }

  // ---- the initial file ----

  /** A quoted line. */
  predicate Explains(line: string) {
    OneLine(line) && line != "" && line[0] == '>'
  }

  predicate OneLineSheet(sheet: Sheet) {
    && OneLine(sheet.room.name) && OneLine(sheet.room.teamId) && OneLine(sheet.room.scope) && OneLine(sheet.room.id)
    && Explains(sheet.about) && Explains(sheet.origin)
  }

  lemma TitleIsOneLine(sheet: Sheet)
    requires OneLineSheet(sheet)
    ensures OneLine(TitleLine(sheet)) && |TitleLine(sheet)| > 1 && TitleLine(sheet)[1] == ' '
  {
    var t := "# " + sheet.room.name;
    assert OneLine(t) && t[1] == ' ';
    assert OneLine(" \U{2014} room memory");
  }

  lemma TeamIsOneLine(sheet: Sheet)
    requires OneLineSheet(sheet)
    ensures OneLine(TeamLine(sheet)) && TeamLine(sheet) != "" && TeamLine(sheet)[0] == '>'
  {
    var a := "> Team: " + sheet.room.teamId + " \U{B7} Room scope: `";
    assert OneLine(a) && a[0] == '>';
    var b := a + sheet.room.scope + "` \U{B7} Room id: `";
    assert OneLine(b) && b[0] == '>';
  }

  lemma InitialSplit(sheet: Sheet)
    requires OneLineSheet(sheet)
    ensures Split(InitialContent(sheet), '\n') == InitialLines(sheet)
  {
    hide Split, Join, TitleLine, TeamLine;
    TitleIsOneLine(sheet);
    TeamIsOneLine(sheet);
    var lines := InitialLines(sheet);
    assert OneLine(PLACEHOLDER) && OneLine(TIMELINE) && OneLine("") && OneLine("## Decisions") && OneLine("## Links")
      && OneLine("## Task refs");
    SplitJoin(lines, '\n');
  }

  lemma {:induction false} NothingBefore(host: HostDate, lines: seq<string>)
    requires TIMELINE !in lines
    ensures PlaceAfter(lines, Before) == Before && PostsFrom(host, lines, Before) == []
  {
    hide ParseLine, StartsWith;
    if lines != [] {
      assert lines[0] in lines;
      NothingBefore(host, lines[1..]);
    }
  }

  function InitialHead(sheet: Sheet): seq<string> {
    InitialLines(sheet)[..15]
  }

  lemma HeadHasNoTimeline(sheet: Sheet)
    requires OneLineSheet(sheet)
    ensures TIMELINE !in InitialHead(sheet)
    ensures InitialLines(sheet) == InitialHead(sheet) + [TIMELINE, ""]
  {
    hide TitleLine, TeamLine;
    TitleIsOneLine(sheet);
    TeamIsOneLine(sheet);
  }

  /** A fresh file is kept and holds no posts. */
  lemma InitialKept(host: HostDate, sheet: Sheet)
    requires OneLineSheet(sheet)
    ensures FileKept(InitialContent(sheet)) && Posts(host, InitialContent(sheet)) == [] && InitialContent(sheet) != ""
  {
    hide ParseLine, StartsWith, PlaceAfter, PostsFrom, Split, TrimEnd, Join, TitleLine, TeamLine, InitialHead;
    var head, lines := InitialHead(sheet), InitialLines(sheet);
    HeadHasNoTimeline(sheet);
    InitialSplit(sheet);
    ReadAppend(host, head, [TIMELINE, ""], Before);
    NothingBefore(host, head);
    ReadTimelineStart(host);
    assert lines == (head + [TIMELINE]) + [""];
    JoinAppend(head + [TIMELINE], [""]);
    JoinAppend(head, [TIMELINE]);
    JoinOne("");
    JoinOne(TIMELINE);
    var base := Join(head + [TIMELINE], '\n');
    assert base[|base| - 1] == 'e';
    TrimEndOfInk(base);
    assert InitialContent(sheet) == base + "\n" by { assert base + "\n" + "" == base + "\n"; }
    HeadersThere(sheet);
  }

  lemma JoinOne(s: string)
    ensures Join([s], '\n') == s
  {
  }

  lemma ReadTimelineStart(host: HostDate)
    ensures PlaceAfter([TIMELINE, ""], Before) == Inside && PostsFrom(host, [TIMELINE, ""], Before) == []
  {
    assert [TIMELINE, ""] == [TIMELINE] + [""];
    hide PlaceAfter, PostsFrom;
    ReadAppend(host, [TIMELINE], [""], Before);
    ReadOne(host, TIMELINE, Before);
    ReadOne(host, "", Inside);
  }

  lemma HeadersThere(sheet: Sheet)
    ensures forall s :: s in SECTIONS ==> "## " + s in InitialLines(sheet)
  {
    var lines := InitialLines(sheet);
    assert "## " + "Decisions" == "## Decisions" == lines[6];
    assert "## " + "Links" == "## Links" == lines[9];
    assert "## " + "Task refs" == "## Task refs" == lines[12];
    assert "## " + "Timeline" == TIMELINE == lines[15];
  }

  /** The first post into a room whose file is missing. */
  lemma FirstPost(host: HostDate, sheet: Sheet, ts: int, actor: string, body: string)
    requires OneLineSheet(sheet) && InRange(ts) && Legible(actor, body)
    ensures var content := WithPost(sheet, "", TimelineLine(ts, actor, body));
            && Posts(host, content) == [Post(actor, NormalizeBody(body), ts)]
            && (Settled(body) ==> FileKept(content))
  {
    hide ParseLine, PlaceAfter, PostsFrom, Split, TimelineLine, NormalizeBody, StartsWith, TrimEnd, Legible, Settled;
    hide InitialContent, SECTIONS;
    var line := TimelineLine(ts, actor, body);
    InitialKept(host, sheet);
    LegibleIsOneLine(actor, body);
    LineIsOne(ts, actor, body);
    TimelineLineIsNoHeading(ts, actor, body);
    TimelineLineEnds(ts, actor, body);
    ReadLastLine(host, InitialContent(sheet), line);
    LineRoundTrip(host, ts, actor, body);
    if Settled(body) {
      OpenFileKept(InitialContent(sheet), line);
    }
  }

  // ---- notes ----

  /** How every note line starts. */
  predicate Item(line: string) {
    |line| > 2 && line[0] == '-' && line[1] == ' ' && IsDigit(line[2])
  }

  lemma NoteLineStarts(ts: int, actor: string, note: string)
    requires InRange(ts)
    ensures Item(NoteLine(ts, actor, note))
  {
    hide NormalizeBody, FormatTime, IsDigit, InRange;
    var time, rest := FormatTime(ts), " **" + actor + "**: " + NormalizeBody(note);
    assert NoteLine(ts, actor, note) == "- " + (time + rest);
    assert (time + rest)[0] == time[0];
  }

  /** A list item whose text starts with a digit is no post and no heading, with or without its trailing white space. */
  lemma ItemIsNeutral(host: HostDate, line: string)
    requires Item(line)
    ensures Neutral(host, line) && Neutral(host, TrimEnd(line)) && TrimEnd(line) != "" && !Blank(line)
  {
    hide FindMark, IndexOf, AllDot;
    var t := TrimEnd(line);
    assert |t| > 2 && t[..3] == line[..3];
    DashIsNoHeading(line);
    DashIsNoHeading(t);
    assert line[..3] != "- `" && t[..3] != "- `";
    InkIsNotBlank(line, 0);
  }

  lemma InkIsNotBlank(line: string, i: nat)
    requires i < |line| && !Space(line[i])
    ensures !Blank(line)
  {
    var s := TrimStart(line);
    assert |line| - |s| <= i;
    assert s[i - (|line| - |s|)] == line[i];
  }

  lemma PlaceholderIsNeutral(host: HostDate, line: string)
    requires Trim(line) == PLACEHOLDER && !StartsWith(line, "-")
    ensures Neutral(host, line)
  {
    if line != "" && !Space(line[0]) {
      assert TrimStart(line) == line;
      assert Trim(line)[0] == line[0];
    }
  }

  lemma FirstInk(line: string)
    requires line != "" && !Space(line[0])
    ensures Trim(line) != "" && Trim(line)[0] == line[0]
  {
  }

  /** The parts of the file around a note: `m` before the last inked line, that line, and at most one empty line. */
  lemma RewriteTidy(host: HostDate, m: seq<string>, x: string, blanks: seq<string>)
    requires AllOneLine(m + [x]) && TrimEnd(x) != "" && (blanks == [] || blanks == [""])
    requires TrimEnd(x) == x || (Neutral(host, x) && Neutral(host, TrimEnd(x)))
    ensures var s := TrimEnd(Join(m + [x] + blanks, '\n')) + "\n";
            && s == TrimEnd(s) + "\n"
            && Split(s, '\n') == m + [TrimEnd(x)] + [""]
            && Posts(host, s) == PostsFrom(host, m + [x] + blanks, Before)
            && PlaceAfter(Split(s, '\n'), Before) == PlaceAfter(m + [x] + blanks, Before)
  {
    hide ParseLine, StartsWith, PlaceAfter, PostsFrom, Split, Neutral, Join, Space;
    var t := TrimEnd(x);
    JoinTail(m, x, blanks);
    var body := Join(m + [t], '\n');
    var s := body + "\n";
    assert TrimEnd(Join(m + [x] + blanks, '\n')) == body;
    TrimEndBreak(body);
    TrimmedOneLine(m, x);
    SplitJoin(m + [t], '\n');
    SplitWithBreak(body);
    EmptyLineNeutral(host);
    ReadMiddle(host, m + [t], "", []);
    assert m + [t] + [""] + [] == m + [t] + [""] && m + [t] + [] == m + [t];
    if blanks == [""] {
      ReadMiddle(host, m + [x], "", []);
      assert m + [x] + [""] + [] == m + [x] + [""] && m + [x] + [] == m + [x];
    } else {
      assert m + [x] + blanks == m + [x];
    }
    if t != x {
      ReadMiddle(host, m, x, []);
      ReadMiddle(host, m, t, []);
      assert m + [x] + [] == m + [x] && m + [t] + [] == m + [t] && m + [] == m;
    }
  }

  lemma TrimmedOneLine(m: seq<string>, x: string)
    requires AllOneLine(m + [x])
    ensures AllOneLine(m + [TrimEnd(x)])
  {
    var lines := m + [x];
    assert OneLine(lines[|m|]);
    assert forall i :: 0 <= i < |m| ==> m[i] == lines[i];
  }

  lemma JoinTail(m: seq<string>, x: string, blanks: seq<string>)
    requires TrimEnd(x) != "" && (blanks == [] || blanks == [""])
    ensures TrimEnd(Join(m + [x] + blanks, '\n')) == Join(m + [TrimEnd(x)], '\n')
    ensures TrimEnd(Join(m + [TrimEnd(x)], '\n')) == Join(m + [TrimEnd(x)], '\n')
  {
    hide Join;
    var t := TrimEnd(x);
    TrimEndOfInk(t);
    JoinOne(x); JoinOne(t); JoinOne("");
    if m != [] {
      JoinAppend(m, [x]);
      JoinAppend(m, [t]);
      TrimEndBehind(Join(m, '\n') + "\n", x);
      TrimEndBehind(Join(m, '\n') + "\n", t);
    } else {
      assert m + [x] == [x] && m + [t] == [t];
    }
    if blanks == [""] {
      JoinAppend(m + [x], [""]);
      var b := Join(m + [x], '\n');
      assert b + "\n" + "" == b + "\n";
      TrimEndBreak(b);
    } else {
      assert m + [x] + blanks == m + [x];
    }
  }

  /** The lines of a kept file: inked last line, then one empty line. */
  predicate Ends(core: seq<string>) {
    core != [] && TrimEnd(core[|core| - 1]) == core[|core| - 1] != ""
  }

  /** Where a note lands, with the last inked line named. */
  lemma NoteShape(core: seq<string>, h: nat, entry: string) returns (m: seq<string>, x: string, blanks: seq<string>)
    requires Ends(core) && h < |core| && Item(entry)
    ensures WithNote(core + [""], h, entry) == m + [x] + blanks && (blanks == [] || blanks == [""])
    ensures x == entry || x == core[|core| - 1]
    ensures forall line :: line in core && line !in m + [x] ==> Trim(line) == PLACEHOLDER
    ensures forall line :: line in m + [x] ==> line in core || line == entry || line == ""
  {
    hide Trim, TrimEnd, FindText, SkipBlank, PLACEHOLDER, Item;
    var lines := core + [""];
    var text := FindText(lines, h + 1);
    EmptyIsBlank();
    if text.Some? && Trim(lines[text.value]) == PLACEHOLDER {
      m, x, blanks := ShapeReplaced(core, text.value, entry);
    } else {
      m, x, blanks := ShapeInserted(core, SkipBlank(lines, h + 1), entry);
    }
  }

  lemma ShapeReplaced(core: seq<string>, i: nat, entry: string) returns (m: seq<string>, x: string, blanks: seq<string>)
    requires i < |core|
    ensures (core + [""])[i := entry] == m + [x] + blanks && blanks == [""]
    ensures x == entry || x == core[|core| - 1]
    ensures forall line :: line in core && line !in m + [x] ==> line == core[i]
    ensures forall line :: line in m + [x] ==> line in core || line == entry
  {
    var edited, n := core[i := entry], |core| - 1;
    m, x, blanks := edited[..n], edited[n], [""];
    assert edited == m + [x];
    assert (core + [""])[i := entry] == edited + [""];
    KeptMembers(core, i, entry);
  }

  lemma ShapeInserted(core: seq<string>, at: nat, entry: string)
    returns (m: seq<string>, x: string, blanks: seq<string>)
    requires core != [] && (at < |core| || at == |core| + 1)
    ensures var lines := core + [""];
            lines[..at] + [entry] + lines[at..] == m + [x] + blanks && (blanks == [] || blanks == [""])
    ensures x == entry || x == core[|core| - 1]
    ensures forall line :: line in core ==> line in m + [x]
    ensures forall line :: line in m + [x] ==> line in core || line == entry || line == ""
  {
    var lines, n := core + [""], |core| - 1;
    if at <= n {
      m, x, blanks := core[..at] + [entry] + core[at..n], core[n], [""];
      assert core == core[..at] + core[at..n] + [core[n]];
      assert lines[at..] == core[at..n] + [core[n]] + [""] && lines[..at] == core[..at];
    } else {
      m, x, blanks := lines, entry, [];
      assert lines[..at] == lines && lines[at..] == [];
    }
  }

  lemma EmptyIsBlank()
    ensures Blank("")
  {
  }

  lemma KeptMembers(core: seq<string>, i: nat, entry: string)
    requires i < |core|
    ensures forall line :: line in core && line !in core[i := entry] ==> line == core[i]
    ensures forall line :: line in core[i := entry] ==> line in core || line == entry
  {
    var edited := core[i := entry];
    assert forall k :: 0 <= k < |core| && k != i ==> core[k] == edited[k];
    assert forall k :: 0 <= k < |core| && k != i ==> edited[k] in edited;
  }

  /** A note reads as nothing: the lines with it hold the same posts as the lines without it. */
  lemma NoteReadsAsNothing(host: HostDate, lines: seq<string>, h: nat, entry: string)
    requires h < |lines| && Item(entry)
    ensures PostsFrom(host, WithNote(lines, h, entry), Before) == PostsFrom(host, lines, Before)
    ensures PlaceAfter(WithNote(lines, h, entry), Before) == PlaceAfter(lines, Before)
  {
    hide ParseLine, StartsWith, PlaceAfter, PostsFrom, Neutral, Trim, FindText, SkipBlank, Item, Blank, PLACEHOLDER;
    hide TIMELINE;
    ItemIsNeutral(host, entry);
    var text := FindText(lines, h + 1);
    if text.Some? && Trim(lines[text.value]) == PLACEHOLDER {
      PlaceholderIsNeutral(host, lines[text.value]);
      ReplaceNeutral(host, lines, text.value, entry);
    } else {
      InsertNeutral(host, lines, SkipBlank(lines, h + 1), entry);
    }
  }

  lemma InsertNeutral(host: HostDate, lines: seq<string>, at: nat, entry: string)
    requires at <= |lines| && Neutral(host, entry)
    ensures PostsFrom(host, lines[..at] + [entry] + lines[at..], Before) == PostsFrom(host, lines, Before)
    ensures PlaceAfter(lines[..at] + [entry] + lines[at..], Before) == PlaceAfter(lines, Before)
  {
    hide PlaceAfter, PostsFrom, Neutral;
    ReadMiddle(host, lines[..at], entry, lines[at..]);
    assert lines[..at] + lines[at..] == lines;
  }

  lemma ReplaceNeutral(host: HostDate, lines: seq<string>, i: nat, entry: string)
    requires i < |lines| && Neutral(host, lines[i]) && Neutral(host, entry)
    ensures PostsFrom(host, lines[i := entry], Before) == PostsFrom(host, lines, Before)
    ensures PlaceAfter(lines[i := entry], Before) == PlaceAfter(lines, Before)
  {
    hide PlaceAfter, PostsFrom, Neutral;
    var a, b := lines[..i], lines[i + 1..];
    ReadMiddle(host, a, lines[i], b);
    ReadMiddle(host, a, entry, b);
    assert a + [lines[i]] + b == lines;
    assert a + [entry] + b == lines[i := entry];
  }

  lemma LastLineInk(base: string)
    requires base != "" && !Space(base[|base| - 1])
    ensures Ends(Split(base, '\n'))
  {
    hide Split;
    var lines := Split(base, '\n');
    var n := |lines| - 1;
    var x := lines[n];
    assert lines == lines[..n] + [x];
    JoinOne(x);
    if n > 0 {
      JoinAppend(lines[..n], [x]);
      LastOfJoined(Join(lines[..n], '\n'), x);
    }
    TrimEndOfInk(x);
  }

  lemma LastOfJoined(a: string, x: string)
    ensures var s := a + "\n" + x; s[|s| - 1] == if x == "" then '\n' else x[|x| - 1]
  {
  }

  /** A note under any of the four sections succeeds, leaves the parsed posts as they are, and keeps the file. */
  lemma NoteKeepsPosts(host: HostDate, sheet: Sheet, content: string, section: string, entry: string)
    requires FileKept(content) && section in SECTIONS && OneLine(entry) && Item(entry)
    ensures var r := NoteIn(sheet, content, section, entry);
            r.Ok? && FileKept(r.value) && Posts(host, r.value) == Posts(host, content)
  {
    hide ParseLine, StartsWith, PlaceAfter, PostsFrom, Split, TrimEnd, Trim, Join, WithNote, Neutral;
    var base := TrimEnd(content);
    var lines, core := Split(content, '\n'), Split(base, '\n');
    SplitWithBreak(base);
    SectionsThere(content);
    assert base != "" && !Space(base[|base| - 1]);
    LastLineInk(base);
    var h := FindLine(lines, "## " + section).value;
    HeaderNotLast(core, h, section);
    NoteReadsAsNothing(host, lines, h, entry);
    var m, x, blanks := NoteShape(core, h, entry);
    ItemIsNeutral(host, entry);
    NoteOneLine(core, m, x, entry);
    RewriteTidy(host, m, x, blanks);
    var s := TrimEnd(Join(WithNote(lines, h, entry), '\n')) + "\n";
    forall sec | sec in SECTIONS ensures "## " + sec in Split(s, '\n') {
      HeaderStays(core, m, x, entry, "## " + sec);
      assert "## " + sec in lines;
    }
  }

  lemma SectionsThere(content: string)
    requires FileKept(content)
    ensures content != "" && TrimEnd(content) != ""
    ensures forall s :: s in SECTIONS ==> "## " + s in Split(content, '\n')
  {
    hide PlaceAfter, Split;
    if TrimEnd(content) == "" {
      BlankHasNoSections();
      assert false;
    }
  }

  lemma BlankHasNoSections()
    ensures "## " + SECTIONS[1] !in Split("" + "\n", '\n')
  {
    SplitWithBreak("");
    SplitOneLine("");
    assert "## " + SECTIONS[1] != "";
  }

  lemma HeaderNotLast(core: seq<string>, h: nat, section: string)
    requires h < |core| + 1 && (core + [""])[h] == "## " + section
    ensures h < |core|
  {
    assert "## " + section != "";
  }

  lemma NoteOneLine(core: seq<string>, m: seq<string>, x: string, entry: string)
    requires forall i :: 0 <= i < |core| ==> '\n' !in core[i]
    requires OneLine(entry) && forall line :: line in m + [x] ==> line in core || line == entry || line == ""
    ensures AllOneLine(m + [x])
  {
    forall i | 0 <= i < |m + [x]| ensures OneLine((m + [x])[i]) {
      assert (m + [x])[i] in m + [x];
    }
  }

  lemma HeaderStays(core: seq<string>, m: seq<string>, x: string, entry: string, header: string)
    requires Ends(core) && Item(entry) && (x == entry || x == core[|core| - 1])
    requires forall line :: line in core && line !in m + [x] ==> Trim(line) == PLACEHOLDER
    requires |header| > 2 && header[0] == '#'
    ensures header in core + [""] ==> header in m + [TrimEnd(x)] + [""]
  {
    hide TrimEnd;
    if header in core + [""] {
      FirstInk(header);
      assert header in core;
      assert header in m + [x];
    }
  }

  // ---- what the next edit does to a post ----

  lemma ReadLength(host: HostDate, x: string)
    requires ParseLine(host, x).Some?
    ensures var p := ParseLine(host, x).value;
            IndexOf(x[3..], '`').Some? && |x| == 3 + IndexOf(x[3..], '`').value + 1 + 3 + |p.actor| + 4 + |p.body|
  {
    hide FindMark, IndexOf, AllDot;
    var k := IndexOf(x[3..], '`').value;
    var rest := x[3 + k + 1..];
    var n := FindMark(rest[3..], 1).value;
    assert n + 4 <= |rest[3..]|;
  }

  /** A line cut short never reads as the same post. */
  lemma ShortLineReadsElse(host: HostDate, ts: int, actor: string, body: string, x: string)
    requires InRange(ts) && Legible(actor, body)
    requires var line := TimelineLine(ts, actor, body); |x| < |line| && x == line[..|x|]
    ensures ParseLine(host, x) != Some(Post(actor, NormalizeBody(body), ts))
  {
    hide ParseLine, TimelineLine, Legible, NormalizeBody, FormatTime, IndexOf;
    var line := TimelineLine(ts, actor, body);
    LineRoundTrip(host, ts, actor, body);
    ReadLength(host, line);
    if ParseLine(host, x) == Some(Post(actor, NormalizeBody(body), ts)) {
      ReadLength(host, x);
      SameFirst(line, x);
    }
  }

  lemma SameFirst(line: string, x: string)
    requires 3 <= |x| <= |line| && x == line[..|x|] && IndexOf(x[3..], '`').Some?
    ensures IndexOf(line[3..], '`') == IndexOf(x[3..], '`')
  {
    hide IndexOf;
    var k := IndexOf(x[3..], '`').value;
    assert x[3..] == line[3..][..|x| - 3];
    assert line[3..][..k] == x[3..][..k] && line[3..][k] == x[3..][k];
    FirstIndex(line[3..], '`', k);
  }

  /** A post is still there after the next post if and only if its body left no white space at the end of its line. */
  lemma PostSurvivesNext(host: HostDate, sheet: Sheet, content: string, ts: int, actor: string, body: string, ts2: int,
          actor2: string, body2: string)
    requires FileKept(content) && InRange(ts) && InRange(ts2)
    requires Legible(actor, body) && Legible(actor2, body2)
    ensures var c := WithPost(sheet, WithPost(sheet, content, TimelineLine(ts, actor, body)),
                              TimelineLine(ts2, actor2, body2));
            Posts(host, c) == Posts(host, content)
              + [Post(actor, NormalizeBody(body), ts), Post(actor2, NormalizeBody(body2), ts2)]
            <==> Settled(body)
  {
    hide ParseLine, PlaceAfter, PostsFrom, Split, TimelineLine, NormalizeBody, StartsWith, TrimEnd, Legible, Posts;
    hide FileKept;
    LegibleIsOneLine(actor, body);
    LegibleIsOneLine(actor2, body2);
    var line, line2 := TimelineLine(ts, actor, body), TimelineLine(ts2, actor2, body2);
    var c1 := WithPost(sheet, content, line);
    var p, p2 := Post(actor, NormalizeBody(body), ts), Post(actor2, NormalizeBody(body2), ts2);
    var before := Posts(host, content);
    assert before + [p, p2] == before + [p] + [p2];
    if Settled(body) {
      PostIsAdded(host, sheet, content, ts, actor, body);
      PostKeepsFile(sheet, content, ts, actor, body);
      PostIsAdded(host, sheet, c1, ts2, actor2, body2);
    } else {
      LoosePostChanges(host, sheet, content, ts, actor, body, line2, p2);
      LineIsOne(ts2, actor2, body2);
      TimelineLineIsNoHeading(ts2, actor2, body2);
      LineRoundTrip(host, ts2, actor2, body2);
      ReadAfterLoose(host, sheet, content, ts, actor, body, line2, p2);
      var got := PostOf(host, Inside, TrimEnd(line));
      SameTail(before, got + [p2], [p, p2]);
      SameHead(got, p, p2);
      assert before + got + [p2] == before + (got + [p2]);
    }
  }

  lemma SameHead(got: seq<Post>, p: Post, p2: Post)
    ensures got + [p2] == [p, p2] <==> got == [p]
  {
    if got + [p2] == [p, p2] {
      assert got == (got + [p2])[..1];
    }
  }

  /** The line of a loose body is cut by the next edit, so it no longer reads as its post. */
  lemma LoosePostChanges(host: HostDate, sheet: Sheet, content: string, ts: int, actor: string, body: string,
          line2: string, p2: Post)
    requires FileKept(content) && InRange(ts) && Legible(actor, body) && !Settled(body)
    ensures PostOf(host, Inside, TrimEnd(TimelineLine(ts, actor, body))) != [Post(actor, NormalizeBody(body), ts)]
  {
    hide ParseLine, TimelineLine, NormalizeBody, StartsWith, Legible, Settled;
    TimelineLineEnds(ts, actor, body);
    ShortLineReadsElse(host, ts, actor, body, TrimEnd(TimelineLine(ts, actor, body)));
  }

  lemma ReadAfterLoose(host: HostDate, sheet: Sheet, content: string, ts: int, actor: string, body: string,
          line2: string, p2: Post)
    requires FileKept(content) && InRange(ts) && OneLine(actor)
    requires OneLine(line2) && line2 != TIMELINE && !StartsWith(line2, "## ") && ParseLine(host, line2) == Some(p2)
    ensures var line := TimelineLine(ts, actor, body);
            Posts(host, WithPost(sheet, WithPost(sheet, content, line), line2))
              == Posts(host, content) + PostOf(host, Inside, TrimEnd(line)) + [p2]
  {
    hide ParseLine, PlaceAfter, PostsFrom, Split, TimelineLine, NormalizeBody, StartsWith, TrimEnd, Posts;
    var line, base := TimelineLine(ts, actor, body), TrimEnd(content);
    LineIsOne(ts, actor, body);
    TimelineLineIsNoHeading(ts, actor, body);
    InkInLine(line);
    var t := TrimEnd(line);
    TrimEndBehind(base + "\n", line);
    TrimEndBreak(base + "\n" + line);
    DashIsNoHeading(t);
    ReadTidy(host, base);
    ReadOpen(host, base, t);
    ReadLastLine(host, base + "\n" + t, line2);
  }

  lemma InkInLine(line: string)
    requires line != "" && line[0] == '-'
    ensures TrimEnd(line) != "" && TrimEnd(line)[0] == '-' && (OneLine(line) ==> OneLine(TrimEnd(line)))
  {
    assert '-' == line[0];
  }

  lemma ReadOpen(host: HostDate, base: string, line: string)
    requires OneLine(line)
    ensures var s := base + "\n" + line;
            && PlaceAfter(Split(s, '\n'), Before) == NextPlace(PlaceAfter(Split(base, '\n'), Before), line)
            && Posts(host, s) == Posts(host, base) + PostOf(host, PlaceAfter(Split(base, '\n'), Before), line)
  {
    hide ParseLine, StartsWith, PlaceAfter, PostsFrom, Split, PostOf, Posts;
    ReadLastLine(host, base, line);
    ReadTidy(host, base + "\n" + line);
  }

  // ---- runs ----

  datatype Edit =
    | PostEdit(actor: string, body: string, ts: int)
    | NoteEdit(section: string, note: string, actor: string, ts: int)

  /** Posts that are legible and settled, notes by agents with one-line names. */
  predicate Proper(e: Edit) {
    match e
    case PostEdit(actor, body, ts) => InRange(ts) && Legible(actor, body) && Settled(body)
    case NoteEdit(_, _, actor, ts) => InRange(ts) && OneLine(actor)
  }

  function Edited(sheet: Sheet, content: string, e: Edit): string
    requires Proper(e)
  {
    match e
    case PostEdit(actor, body, ts) => WithPost(sheet, content, TimelineLine(ts, actor, body))
    case NoteEdit(section, note, actor, ts) =>
      var r := NoteIn(sheet, content, section, NoteLine(ts, actor, note));
      if r.Ok? then r.value else content
  }

  function AllEdited(sheet: Sheet, content: string, edits: seq<Edit>): string
    requires forall i :: 0 <= i < |edits| ==> Proper(edits[i])
    decreases |edits|
  {
    if edits == [] then content else AllEdited(sheet, Edited(sheet, content, edits[0]), edits[1..])
  }

  /** The posts among the edits, in order, with their bodies on one line. */
  function Posted(edits: seq<Edit>): seq<Post> {
    if edits == [] then []
    else (match edits[0]
          case PostEdit(actor, body, ts) => [Post(actor, NormalizeBody(body), ts)]
          case NoteEdit(_, _, _, _) => []) + Posted(edits[1..])
  }

  lemma EditKept(host: HostDate, sheet: Sheet, content: string, e: Edit)
    requires FileKept(content) && Proper(e)
    ensures FileKept(Edited(sheet, content, e))
    ensures Posts(host, Edited(sheet, content, e)) == Posts(host, content) + Posted([e])
  {
    hide FileKept, TimelineLine, NoteLine, NormalizeBody, Posts, Legible, Settled, WithPost;
    assert Posted([e]) == Posted([e])[..] + Posted([]);
    match e {
      case PostEdit(actor, body, ts) =>
        PostIsAdded(host, sheet, content, ts, actor, body);
        LegibleIsOneLine(actor, body);
        PostKeepsFile(sheet, content, ts, actor, body);
      case NoteEdit(section, note, actor, ts) =>
        LineIsOne(ts, actor, note);
        NoteLineStarts(ts, actor, note);
        if section in SECTIONS {
          NoteKeepsPosts(host, sheet, content, section, NoteLine(ts, actor, note));
        }
    }
  }

  /**
   * Whatever mix of posts and notes is written to a kept file, reading it gives the old posts and then the new
   * ones in order.
   */
  lemma {:induction false} EditsKept(host: HostDate, sheet: Sheet, content: string, edits: seq<Edit>)
    requires FileKept(content) && forall i :: 0 <= i < |edits| ==> Proper(edits[i])
    ensures FileKept(AllEdited(sheet, content, edits))
    ensures Posts(host, AllEdited(sheet, content, edits)) == Posts(host, content) + Posted(edits)
    decreases |edits|
  {
    hide FileKept, Posts, Edited, Posted, Proper;
    if edits == [] {
      assert Posted(edits) == [] by { NothingPosted(); }
    } else {
      EditKept(host, sheet, content, edits[0]);
      EditsKept(host, sheet, Edited(sheet, content, edits[0]), edits[1..]);
      PostedFirst(edits);
      assert Posts(host, content) + Posted([edits[0]]) + Posted(edits[1..])
        == Posts(host, content) + (Posted([edits[0]]) + Posted(edits[1..]));
    }
  }

  lemma NothingPosted()
    ensures Posted([]) == []
  {
  }

  lemma PostedFirst(edits: seq<Edit>)
    requires edits != []
    ensures Posted([edits[0]]) + Posted(edits[1..]) == Posted(edits)
  {
    assert [edits[0]][1..] == [];
  }

  /** From a fresh room: the file holds exactly the posts made, in order. */
  lemma RoomHistory(host: HostDate, sheet: Sheet, edits: seq<Edit>)
    requires OneLineSheet(sheet) && forall i :: 0 <= i < |edits| ==> Proper(edits[i])
    ensures Posts(host, AllEdited(sheet, InitialContent(sheet), edits)) == Posted(edits)
  {
    hide Posts, AllEdited, Proper;
    InitialKept(host, sheet);
    EditsKept(host, sheet, InitialContent(sheet), edits);
  }
}
