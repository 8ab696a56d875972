/** Where notes and posts stand in a room memory file: section by section, line by line. */
module NoteLaws {
  import opened Prelude
  import opened Strings
  import opened IsoTime
  import opened MemoryText
  import opened RoomMemory
  import opened MemoryLaws

  // ---- sections ----

  predicate Heading(line: string) {
    StartsWith(line, "## ")
  }

  /** Where a reader of the section under `header` is after one more line. */
  function NextIn(header: string, place: Place, line: string): Place {
    if place == Past then Past
    else if line == header then Inside
    else if place == Inside && Heading(line) then Past
    else place
  }

  function PlaceIn(lines: seq<string>, header: string, place: Place): Place {
    if lines == [] then place else PlaceIn(lines[1..], header, NextIn(header, place, lines[0]))
  }

  function InkOfLine(header: string, place: Place, line: string): seq<string> {
    if place == Inside && (line == header || !Heading(line)) && !Blank(line) then [TrimEnd(line)] else []
  }

  /** The inked lines of a section, without the white space at their ends. */
  function Ink(lines: seq<string>, header: string, place: Place): seq<string> {
    if lines == [] then []
    else InkOfLine(header, place, lines[0]) + Ink(lines[1..], header, NextIn(header, place, lines[0]))
  }

  function SectionInk(content: string, section: string): seq<string> {
    Ink(Split(content, '\n'), "## " + section, Before)
  }

  /** All inked lines of the file. */
  function AllInk(lines: seq<string>): seq<string> {
    if lines == [] then [] else (if Blank(lines[0]) then [] else [TrimEnd(lines[0])]) + AllInk(lines[1..])
  }

  // ---- what a note does to the inked lines of its section ----

  function FirstText(ink: seq<string>): (r: Option<nat>)
    ensures r.Some? ==> r.value < |ink|
  {
    if ink == [] then None
    else if !StartsWith(ink[0], "-") then Some(0)
    else
      match FirstText(ink[1..])
      case None => None
      case Some(k) => Some(k + 1)
  }

  /**
   * The note takes the place of the placeholder if that is the first line that is no list item;
   * else it comes first.
   */
  function Noted(ink: seq<string>, note: string): seq<string> {
    var text := FirstText(ink);
    if text.Some? && Trim(ink[text.value]) == PLACEHOLDER then ink[text.value := note] else [note] + ink
  }

  // ---- reading in parts ----

  lemma {:induction false} InkAppend(a: seq<string>, b: seq<string>, header: string, place: Place)
    ensures PlaceIn(a + b, header, place) == PlaceIn(b, header, PlaceIn(a, header, place))
    ensures Ink(a + b, header, place) == Ink(a, header, place) + Ink(b, header, PlaceIn(a, header, place))
  {
    hide NextIn, InkOfLine;
    if a == [] {
      assert a + b == b;
    } else {
      assert (a + b)[0] == a[0] && (a + b)[1..] == a[1..] + b;
      InkAppend(a[1..], b, header, NextIn(header, place, a[0]));
    }
  }

  lemma InkOne(line: string, header: string, place: Place)
    ensures PlaceIn([line], header, place) == NextIn(header, place, line)
    ensures Ink([line], header, place) == InkOfLine(header, place, line)
  {
    assert [line][1..] == [];
    assert PlaceIn([], header, NextIn(header, place, line)) == NextIn(header, place, line);
    assert Ink([], header, NextIn(header, place, line)) == [];
  }

  lemma InkMiddle(a: seq<string>, line: string, b: seq<string>, header: string)
    ensures var p := PlaceIn(a, header, Before);
            Ink(a + [line] + b, header, Before)
            == Ink(a, header, Before) + InkOfLine(header, p, line) + Ink(b, header, NextIn(header, p, line))
  {
    hide NextIn, InkOfLine, Ink, PlaceIn;
    InkAppend(a + [line], b, header, Before);
    InkAppend(a, [line], header, Before);
    InkOne(line, header, PlaceIn(a, header, Before));
  }

  lemma {:induction false} AllInkAppend(a: seq<string>, b: seq<string>)
    ensures AllInk(a + b) == AllInk(a) + AllInk(b)
  {
    hide Blank;
    if a == [] {
      assert a + b == b;
    } else {
      assert (a + b)[0] == a[0] && (a + b)[1..] == a[1..] + b;
      AllInkAppend(a[1..], b);
    }
  }

  lemma AllInkOne(line: string)
    ensures AllInk([line]) == if Blank(line) then [] else [TrimEnd(line)]
  {
    hide Blank;
    assert [line][1..] == [] && AllInk([]) == [];
  }

  lemma {:induction false} NoHeader(lines: seq<string>, header: string)
    requires header !in lines
    ensures PlaceIn(lines, header, Before) == Before && Ink(lines, header, Before) == []
  {
    if lines != [] {
      NoHeader(lines[1..], header);
    }
  }

  /** Lines that are blank or list items: they end no section, and their ink is list items. */
  predicate Leads(lines: seq<string>) {
    forall k :: 0 <= k < |lines| ==> Blank(lines[k]) || StartsWith(lines[k], "-")
  }

  predicate AllDashes(ink: seq<string>) {
    forall k :: 0 <= k < |ink| ==> StartsWith(ink[k], "-")
  }

  lemma LeadIsNoHeading(line: string)
    requires Blank(line) || StartsWith(line, "-")
    ensures !Heading(line)
  {
    hide Trim;
    if Heading(line) {
      assert line[0] == '#';
      FirstInk(line);
    }
  }

  lemma DashStays(line: string)
    ensures !Blank(line) ==> (StartsWith(TrimEnd(line), "-") <==> StartsWith(line, "-"))
    ensures Trim(TrimEnd(line)) == Trim(line) && (Blank(line) <==> TrimEnd(line) == "")
  {
    hide Trim, TrimEnd, StartsWith;
    TrimTwice(line);
    var t := TrimEnd(line);
    if t != "" {
      DashFirst(t);
      DashFirst(line);
    }
  }

  lemma DashFirst(line: string)
    requires line != ""
    ensures StartsWith(line, "-") <==> line[0] == '-'
  {
    assert line[..1] == [line[0]];
  }

  lemma {:induction false} TrimStartOff(pad: string, s: string)
    requires (forall i :: 0 <= i < |pad| ==> Space(pad[i])) && s != "" && !Space(s[0])
    ensures TrimStart(pad + s) == s
  {
    hide Space;
    if pad == "" {
      assert pad + s == s;
    } else {
      assert (pad + s)[0] == pad[0] && (pad + s)[1..] == pad[1..] + s;
      TrimStartOff(pad[1..], s);
    }
  }

  /** Trimming the end first changes nothing. */
  lemma TrimTwice(line: string)
    ensures Trim(TrimEnd(line)) == Trim(line) && (Trim(line) == "" <==> TrimEnd(line) == "")
  {
    hide TrimStart, TrimEnd, Space;
    var s := TrimStart(line);
    var pad := line[..|line| - |s|];
    assert line == pad + s;
    if s == "" {
      AllSpaceTrims(line);
    } else {
      var core := TrimEnd(s);
      InkSurvives(s);
      TrimEndBehind(pad, s);
      TrimStartOff(pad, core);
      TrimEndOfInk(core);
    }
  }

  lemma InkSurvives(s: string)
    requires s != "" && !Space(s[0])
    ensures TrimEnd(s) != "" && TrimEnd(s)[0] == s[0]
  {
  }

  lemma AllSpaceTrims(s: string)
    requires forall i :: 0 <= i < |s| ==> Space(s[i])
    ensures TrimEnd(s) == "" && Trim(s) == "" && Trim("") == ""
  {
  }

  lemma {:induction false} LeadInk(lines: seq<string>, header: string)
    requires Leads(lines) && Heading(header)
    ensures PlaceIn(lines, header, Inside) == Inside && AllDashes(Ink(lines, header, Inside))
    ensures (forall k :: 0 <= k < |lines| ==> Blank(lines[k])) ==> Ink(lines, header, Inside) == []
  {
    hide Blank, StartsWith, Heading;
    if lines != [] {
      LeadLine(lines[0], header);
      LeadInk(lines[1..], header);
    }
  }

  lemma LeadLine(line: string, header: string)
    requires (Blank(line) || StartsWith(line, "-")) && Heading(header)
    ensures line != header && !Heading(line)
    ensures !Blank(line) ==> StartsWith(TrimEnd(line), "-")
  {
    hide Blank, StartsWith;
    LeadIsNoHeading(line);
    DashStays(line);
  }

  lemma {:induction false} TextAfterLead(lines: seq<string>, i: nat)
    requires i <= |lines|
    ensures var r := FindText(lines, i); Leads(lines[i..if r.Some? then r.value else |lines|])
    decreases |lines| - i
  {
    hide Blank, StartsWith;
    if i < |lines| && (Blank(lines[i]) || StartsWith(lines[i], "-")) {
      TextAfterLead(lines, i + 1);
      var end := if FindText(lines, i).Some? then FindText(lines, i).value else |lines|;
      assert lines[i..end] == [lines[i]] + lines[i + 1..end];
    }
  }

  lemma {:induction false} LeadOutside(lines: seq<string>, header: string, place: Place)
    requires Leads(lines) && Heading(header) && place != Inside
    ensures PlaceIn(lines, header, place) == place
  {
    hide Blank, StartsWith;
    if lines != [] {
      LeadIsNoHeading(lines[0]);
      assert lines[0] != header;
      LeadOutside(lines[1..], header, place);
    }
  }

  lemma {:induction false} PastInk(lines: seq<string>, header: string)
    ensures Ink(lines, header, Past) == []
  {
    if lines != [] {
      PastInk(lines[1..], header);
    }
  }

  lemma {:induction false} FirstTextSkips(a: seq<string>, b: seq<string>)
    requires AllDashes(a)
    ensures FirstText(a + b) == match FirstText(b) { case None => None case Some(k) => Some(|a| + k) }
  {
    hide StartsWith;
    if a == [] {
      assert a + b == b;
    } else {
      assert (a + b)[0] == a[0] && (a + b)[1..] == a[1..] + b;
      FirstTextSkips(a[1..], b);
    }
  }

  /** A little below its heading the reader is inside the section, with only list items read so far. */
  lemma InsideAt(lines: seq<string>, h: nat, p: nat, header: string)
    requires h < p <= |lines| && lines[h] == header && header !in lines[..h] && Heading(header)
    requires Leads(lines[h + 1..p])
    ensures PlaceIn(lines[..p], header, Before) == Inside
    ensures Ink(lines[..p], header, Before) == Ink(lines[h + 1..p], header, Inside)
    ensures AllDashes(Ink(lines[h + 1..p], header, Inside))
  {
    hide Leads, Heading, AllDashes;
    var a, b := lines[..h], lines[h + 1..p];
    assert lines[..p] == a + [header] + b;
    NoHeader(a, header);
    InkMiddle(a, header, b, header);
    InkAppend(a + [header], b, header, Before);
    InkAppend(a, [header], header, Before);
    InkOne(header, header, Before);
    LeadInk(b, header);
  }

  /** And it is in no other section. */
  lemma OutsideAt(lines: seq<string>, h: nat, p: nat, header: string, other: string)
    requires h < p <= |lines| && lines[h] == header && Heading(header) && Heading(other) && other != header
    requires Leads(lines[h + 1..p])
    ensures PlaceIn(lines[..p], other, Before) != Inside
  {
    hide Leads;
    var a, b := lines[..h], lines[h + 1..p];
    assert lines[..p] == a + [header] + b;
    InkAppend(a + [header], b, other, Before);
    InkAppend(a, [header], other, Before);
    InkOne(header, other, PlaceIn(a, other, Before));
    LeadOutside(b, other, PlaceIn(a + [header], other, Before));
  }

  /** The ink of a section, cut at its first line that is neither blank nor a list item. */
  lemma SectionAtText(lines: seq<string>, h: nat, header: string)
    requires h < |lines| && lines[h] == header && header !in lines[..h] && Heading(header)
    ensures var text, ink := FindText(lines, h + 1), Ink(lines, header, Before);
            match text
            case None => FirstText(ink) == None
            case Some(t) =>
              var lead := Ink(lines[h + 1..t], header, Inside);
              if lines[t] != header && Heading(lines[t]) then FirstText(ink) == None
              else
                && ink == lead + [TrimEnd(lines[t])] + Ink(lines[t + 1..], header, Inside)
                && FirstText(ink) == Some(|lead|) && Trim(ink[|lead|]) == Trim(lines[t])
  {
    hide Heading, Leads, Ink, PlaceIn, Trim, TrimEnd, StartsWith, FirstText, AllDashes, Blank;
    TextAfterLead(lines, h + 1);
    match FindText(lines, h + 1)
    case None =>
      InsideAt(lines, h, |lines|, header);
      var ink := Ink(lines, header, Before);
      assert lines[..|lines|] == lines;
      NoText(ink, []);
    case Some(t) =>
      InsideAt(lines, h, t, header);
      var lead, rest := Ink(lines[h + 1..t], header, Inside), lines[t + 1..];
      assert lines == lines[..t] + [lines[t]] + rest;
      InkMiddle(lines[..t], lines[t], rest, header);
      if lines[t] != header && Heading(lines[t]) {
        PastInk(rest, header);
        NoText(lead, []);
      } else {
        DashStays(lines[t]);
        TextFound(lead, TrimEnd(lines[t]), Ink(rest, header, Inside));
      }
  }

  lemma NoText(lead: seq<string>, rest: seq<string>)
    requires AllDashes(lead) && rest == []
    ensures FirstText(lead) == None && FirstText(lead + rest + rest) == None
  {
    FirstTextSkips(lead, []);
    assert lead + [] == lead && lead + rest + rest == lead;
  }

  lemma TextFound(lead: seq<string>, line: string, rest: seq<string>)
    requires AllDashes(lead) && !StartsWith(line, "-")
    ensures FirstText(lead + [line] + rest) == Some(|lead|) && (lead + [line] + rest)[|lead|] == line
  {
    FirstTextSkips(lead, [line] + rest);
    assert lead + [line] + rest == lead + ([line] + rest);
  }

  lemma EntryInk(entry: string, header: string)
    requires Item(entry) && Heading(header)
    ensures NextIn(header, Inside, entry) == Inside && InkOfLine(header, Inside, entry) == [TrimEnd(entry)]
    ensures !Heading(entry) && entry != header && !Blank(entry)
  {
    hide TrimEnd, Trim;
    InkIsNotBlank(entry, 0);
  }

  lemma PlaceholderInk(line: string, header: string)
    requires Trim(line) == PLACEHOLDER && Heading(header)
    ensures !Heading(line) && line != header && !Blank(line)
  {
    hide Trim;
    if Heading(line) {
      assert line[0] == '#';
      FirstInk(line);
    }
  }

  /** A note written under a heading changes the inked lines of that section as said. */
  lemma SectionNoted(lines: seq<string>, h: nat, header: string, entry: string)
    requires h < |lines| && lines[h] == header && header !in lines[..h] && Heading(header) && Item(entry)
    ensures Ink(WithNote(lines, h, entry), header, Before) == Noted(Ink(lines, header, Before), TrimEnd(entry))
  {
    hide *;
    EntryInk(entry, header);
    SectionAtText(lines, h, header);
    WithNoteIs(lines, h, entry);
    if Replaces(lines, h) {
      var t := FindText(lines, h + 1).value;
      TextAfterLead(lines, h + 1);
      PlaceholderInk(lines[t], header);
      NotedInPlace(lines, h, t, header, entry);
      NotedReplaces(Ink(lines[h + 1..t], header, Inside), TrimEnd(lines[t]), Ink(lines[t + 1..], header, Inside),
                    TrimEnd(entry));
    } else {
      NotedFirst(lines, h, SkipBlank(lines, h + 1), header, entry);
      NotedPrepends(Ink(lines, header, Before), TrimEnd(entry));
    }
  }

  /** The first text below the heading is the placeholder. */
  predicate Replaces(lines: seq<string>, h: nat)
    requires h < |lines|
  {
    var text := FindText(lines, h + 1);
    text.Some? && Trim(lines[text.value]) == PLACEHOLDER
  }

  lemma WithNoteIs(lines: seq<string>, h: nat, entry: string)
    requires h < |lines|
    ensures var text := FindText(lines, h + 1);
            if Replaces(lines, h) then
              && text.Some? && Trim(lines[text.value]) == PLACEHOLDER
              && WithNote(lines, h, entry) == lines[text.value := entry]
            else
              && (text.Some? ==> Trim(lines[text.value]) != PLACEHOLDER)
              && var at := SkipBlank(lines, h + 1);
                 WithNote(lines, h, entry) == lines[..at] + [entry] + lines[at..]
  {
    hide FindText, SkipBlank, Trim;
  }

  lemma NotedReplaces(lead: seq<string>, x: string, rest: seq<string>, note: string)
    requires FirstText(lead + [x] + rest) == Some(|lead|) && Trim((lead + [x] + rest)[|lead|]) == PLACEHOLDER
    ensures Noted(lead + [x] + rest, note) == lead + [note] + rest
  {
    hide FirstText, Trim;
  }

  lemma NotedPrepends(ink: seq<string>, note: string)
    requires FirstText(ink).Some? ==> Trim(ink[FirstText(ink).value]) != PLACEHOLDER
    ensures Noted(ink, note) == [note] + ink
  {
    hide FirstText, Trim;
  }

  lemma NotedInPlace(lines: seq<string>, h: nat, t: nat, header: string, entry: string)
    requires h < t < |lines| && lines[h] == header && header !in lines[..h] && Heading(header) && Leads(lines[h + 1..t])
    requires NextIn(header, Inside, entry) == Inside && InkOfLine(header, Inside, entry) == [TrimEnd(entry)]
    ensures Ink(lines[t := entry], header, Before)
              == Ink(lines[h + 1..t], header, Inside) + [TrimEnd(entry)] + Ink(lines[t + 1..], header, Inside)
  {
    hide *;
    InsideAt(lines, h, t, header);
    InkMiddle(lines[..t], entry, lines[t + 1..], header);
    assert lines[t := entry] == lines[..t] + [entry] + lines[t + 1..];
  }

  lemma NotedFirst(lines: seq<string>, h: nat, at: nat, header: string, entry: string)
    requires h < at <= |lines| && lines[h] == header && header !in lines[..h] && Heading(header)
    requires forall k :: h + 1 <= k < at ==> Blank(lines[k])
    requires NextIn(header, Inside, entry) == Inside && InkOfLine(header, Inside, entry) == [TrimEnd(entry)]
    ensures Ink(lines[..at] + [entry] + lines[at..], header, Before) == [TrimEnd(entry)] + Ink(lines, header, Before)
  {
    hide Heading, Ink, PlaceIn, Trim, TrimEnd, StartsWith, AllDashes, Blank, NextIn, InkOfLine;
    InsideAt(lines, h, at, header);
    LeadInk(lines[h + 1..at], header);
    InkMiddle(lines[..at], entry, lines[at..], header);
    InkAppend(lines[..at], lines[at..], header, Before);
    assert lines[..at] + lines[at..] == lines;
  }

  lemma OutsideLine(a: seq<string>, line: string, b: seq<string>, other: string)
    requires PlaceIn(a, other, Before) != Inside && line != other && !Heading(line)
    ensures Ink(a + [line] + b, other, Before) == Ink(a + b, other, Before)
  {
    hide Ink, PlaceIn, Heading;
    InkMiddle(a, line, b, other);
    InkAppend(a, b, other, Before);
  }

  /** All other sections are as they were. */
  lemma OtherSectionsStay(lines: seq<string>, h: nat, header: string, entry: string, other: string)
    requires h < |lines| && lines[h] == header && header !in lines[..h] && Heading(header) && Item(entry)
    requires Heading(other) && other != header
    ensures Ink(WithNote(lines, h, entry), other, Before) == Ink(lines, other, Before)
  {
    hide *;
    EntryInk(entry, other);
    TextAfterLead(lines, h + 1);
    WithNoteIs(lines, h, entry);
    if Replaces(lines, h) {
      var t := FindText(lines, h + 1).value;
      OutsideAt(lines, h, t, header, other);
      PlaceholderInk(lines[t], other);
      OutsideLine(lines[..t], lines[t], lines[t + 1..], other);
      OutsideLine(lines[..t], entry, lines[t + 1..], other);
      SplitAround(lines, t, entry);
    } else {
      var at := SkipBlank(lines, h + 1);
      BlanksLead(lines[h + 1..at]);
      OutsideAt(lines, h, at, header, other);
      OutsideLine(lines[..at], entry, lines[at..], other);
      assert lines == lines[..at] + lines[at..];
    }
  }

  lemma SplitAround(lines: seq<string>, t: nat, entry: string)
    requires t < |lines|
    ensures lines == lines[..t] + [lines[t]] + lines[t + 1..]
    ensures lines[t := entry] == lines[..t] + [entry] + lines[t + 1..]
  {
  }

  lemma BlanksLead(lines: seq<string>)
    requires forall k :: 0 <= k < |lines| ==> Blank(lines[k])
    ensures Leads(lines)
  {
  }

  /** Every earlier inked line is still there in its order, one placeholder aside. */
  predicate OnlyNoted(before: seq<string>, after: seq<string>, note: string) {
    exists k :: 0 <= k <= |before| && NotedAt(before, after, note, k)
  }

  predicate NotedAt(before: seq<string>, after: seq<string>, note: string, k: nat)
    requires k <= |before|
  {
    || after == before[..k] + [note] + before[k..]
    || (k < |before| && Trim(before[k]) == PLACEHOLDER && after == before[k := note])
  }

  lemma AllInkNoted(lines: seq<string>, h: nat, entry: string)
    requires h < |lines| && Item(entry)
    ensures OnlyNoted(AllInk(lines), AllInk(WithNote(lines, h, entry)), TrimEnd(entry))
  {
    hide *;
    InkIsNotBlankItem(entry);
    WithNoteIs(lines, h, entry);
    if Replaces(lines, h) {
      var t := FindText(lines, h + 1).value;
      DashStays(lines[t]);
      HeaderIsHeading("");
      PlaceholderInk(lines[t], "## " + "");
      SplitAround(lines, t, entry);
      ThreeInks(lines[..t], lines[t], lines[t + 1..]);
      ThreeInks(lines[..t], entry, lines[t + 1..]);
      InkReplaced(AllInk(lines[..t]), TrimEnd(lines[t]), AllInk(lines[t + 1..]), TrimEnd(entry));
    } else {
      var at := SkipBlank(lines, h + 1);
      ThreeInks(lines[..at], entry, lines[at..]);
      AllInkAppend(lines[..at], lines[at..]);
      assert lines == lines[..at] + lines[at..];
      InkInserted(AllInk(lines[..at]), AllInk(lines[at..]), TrimEnd(entry));
    }
  }

  lemma InkReplaced(a: seq<string>, x: string, b: seq<string>, note: string)
    requires Trim(x) == PLACEHOLDER
    ensures OnlyNoted(a + [x] + b, a + [note] + b, note)
  {
    assert (a + [x] + b)[|a| := note] == a + [note] + b;
    assert NotedAt(a + [x] + b, a + [note] + b, note, |a|);
  }

  lemma InkInserted(a: seq<string>, b: seq<string>, note: string)
    ensures OnlyNoted(a + b, a + [note] + b, note)
  {
    assert (a + b)[..|a|] == a && (a + b)[|a|..] == b;
    assert NotedAt(a + b, a + [note] + b, note, |a|);
  }

  lemma InkIsNotBlankItem(entry: string)
    requires Item(entry)
    ensures !Blank(entry)
  {
    hide Blank;
    InkIsNotBlank(entry, 0);
  }

  lemma ThreeInks(a: seq<string>, line: string, b: seq<string>)
    ensures AllInk(a + [line] + b) == AllInk(a) + (if Blank(line) then [] else [TrimEnd(line)]) + AllInk(b)
  {
    hide AllInk, Blank;
    AllInkAppend(a + [line], b);
    AllInkAppend(a, [line]);
    AllInkOne(line);
  }

  // ---- files ----

  /** How the lines of a kept file change: as `WithNote` says, but for white space at the end of the file. */
  lemma NoteLines(sheet: Sheet, content: string, section: string, entry: string)
    returns (h: nat, m: seq<string>, x: string, blanks: seq<string>)
    requires FileKept(content) && section in SECTIONS && OneLine(entry) && Item(entry)
    ensures var lines, r := Split(content, '\n'), NoteIn(sheet, content, section, entry);
            && r.Ok? && h < |lines| && lines[h] == "## " + section && "## " + section !in lines[..h]
            && WithNote(lines, h, entry) == m + [x] + blanks && (blanks == [] || blanks == [""])
            && Split(r.value, '\n') == m + [TrimEnd(x)] + [""] && (x == entry || TrimEnd(x) == x)
  {
    hide ParseLine, StartsWith, PlaceAfter, PostsFrom, Split, TrimEnd, Trim, Join, WithNote, Neutral;
    var base := TrimEnd(content);
    var lines, core := Split(content, '\n'), Split(base, '\n');
    SplitWithBreak(base);
    SectionsThere(content);
    assert base != "" && !Space(base[|base| - 1]);
    LastLineInk(base);
    h := FindLine(lines, "## " + section).value;
    HeaderNotLast(core, h, section);
    m, x, blanks := NoteShape(core, h, entry);
    ItemIsNeutral(t => 0, entry);
    NoteOneLine(core, m, x, entry);
    RewriteTidy(t => 0, m, x, blanks);
  }

  /** White space at the end of the last inked line, and blank lines after it, are no ink. */
  lemma TidyInk(m: seq<string>, x: string, blanks: seq<string>, header: string)
    requires blanks == [] || blanks == [""]
    requires TrimEnd(x) == x || (Item(x) && Item(TrimEnd(x)))
    requires Heading(header)
    ensures Ink(m + [TrimEnd(x)] + [""], header, Before) == Ink(m + [x] + blanks, header, Before)
  {
    hide Ink, PlaceIn, TrimEnd, Item, Blank, Heading;
    InkMiddle(m, TrimEnd(x), [""], header);
    InkMiddle(m, x, blanks, header);
    NoInkAtEnd(blanks, header, NextIn(header, PlaceIn(m, header, Before), x));
    NoInkAtEnd([""], header, NextIn(header, PlaceIn(m, header, Before), TrimEnd(x)));
    if TrimEnd(x) != x {
      EntryInk(x, header);
      EntryInk(TrimEnd(x), header);
      TrimmedTwice(x);
    }
  }

  lemma TrimmedTwice(x: string)
    ensures TrimEnd(TrimEnd(x)) == TrimEnd(x)
  {
    TrimEndOfInk(TrimEnd(x));
  }

  lemma NoInkAtEnd(blanks: seq<string>, header: string, place: Place)
    requires blanks == [] || blanks == [""]
    ensures Ink(blanks, header, place) == [] && AllInk(blanks) == []
  {
    EmptyIsBlank();
    if blanks == [""] {
      InkOne("", header, place);
      AllInkOne("");
    }
  }

  lemma TidyAllInk(m: seq<string>, x: string, blanks: seq<string>)
    requires blanks == [] || blanks == [""]
    ensures AllInk(m + [TrimEnd(x)] + [""]) == AllInk(m + [x] + blanks)
  {
    hide AllInk, TrimEnd, Blank;
    ThreeInks(m, TrimEnd(x), [""]);
    ThreeInks(m, x, blanks);
    NoInkAtEnd(blanks, "", Before);
    NoInkAtEnd([""], "", Before);
    TrimmedTwice(x);
    SameBlank(x);
  }

  lemma SameBlank(x: string)
    ensures Blank(TrimEnd(x)) <==> Blank(x)
  {
    hide Trim, TrimEnd;
    DashStays(x);
  }

  lemma TrimmedItem(entry: string)
    requires Item(entry)
    ensures Item(TrimEnd(entry))
  {
    var t := TrimEnd(entry);
    assert |t| > 2 && t[..3] == entry[..3];
    assert t[0] == t[..3][0] && t[1] == t[..3][1] && t[2] == t[..3][2];
  }

  /**
   * A note into a kept file stands in its own section, in place of the placeholder or before all other lines,
   * without the white space at its end; the other sections, and all other inked lines of the file, stay.
   */
  lemma NoteIsWritten(sheet: Sheet, content: string, section: string, entry: string)
    requires FileKept(content) && section in SECTIONS && OneLine(entry) && Item(entry)
    ensures var r := NoteIn(sheet, content, section, entry);
            && r.Ok?
            && SectionInk(r.value, section) == Noted(SectionInk(content, section), TrimEnd(entry))
            && (forall other :: other in SECTIONS && other != section ==>
                  SectionInk(r.value, other) == SectionInk(content, other))
            && OnlyNoted(AllInk(Split(content, '\n')), AllInk(Split(r.value, '\n')), TrimEnd(entry))
  {
    hide Split, TrimEnd, WithNote, Ink, AllInk, Item, FileKept, NoteIn, Noted, OnlyNoted, OneLine, Heading;
    var h, m, x, blanks := NoteLines(sheet, content, section, entry);
    var lines, r := Split(content, '\n'), NoteIn(sheet, content, section, entry).value;
    TrimmedItem(entry);
    HeaderIsHeading(section);
    SectionNoted(lines, h, "## " + section, entry);
    TidyInk(m, x, blanks, "## " + section);
    forall other | other in SECTIONS && other != section ensures SectionInk(r, other) == SectionInk(content, other) {
      HeaderIsHeading(other);
      HeadersDiffer(section, other);
      OtherSectionsStay(lines, h, "## " + section, entry, "## " + other);
      TidyInk(m, x, blanks, "## " + other);
    }
    AllInkNoted(lines, h, entry);
    TidyAllInk(m, x, blanks);
  }

  lemma HeaderIsHeading(section: string)
    ensures Heading("## " + section)
  {
  }

  lemma HeadersDiffer(section: string, other: string)
    ensures "## " + section == "## " + other <==> section == other
  {
    assert ("## " + section)[3..] == section && ("## " + other)[3..] == other;
  }

  // ---- posts ----

  lemma {:induction false} TimelinePlace(lines: seq<string>, place: Place)
    ensures PlaceIn(lines, TIMELINE, place) == PlaceAfter(lines, place)
  {
    if lines != [] {
      TimelinePlace(lines[1..], NextPlace(place, lines[0]));
    }
  }

  /** Who is inside the timeline is in no other section. */
  lemma {:induction false} OutsideTimeline(lines: seq<string>, other: string, place: Place, at: Place)
    requires Heading(other) && other != TIMELINE && (place == Inside ==> at != Inside)
    ensures PlaceAfter(lines, place) == Inside ==> PlaceIn(lines, other, at) != Inside
  {
    hide StartsWith;
    if lines != [] {
      TimelineIsHeading();
      OutsideTimeline(lines[1..], other, NextPlace(place, lines[0]), NextIn(other, at, lines[0]));
    }
  }

  lemma TimelineIsHeading()
    ensures Heading(TIMELINE) && "## " + "Timeline" == TIMELINE
  {
  }

  lemma PostLines(sheet: Sheet, content: string, line: string) returns (lines: seq<string>)
    requires FileKept(content) && OneLine(line)
    ensures Split(content, '\n') == lines + [""]
    ensures Split(WithPost(sheet, content, line), '\n') == lines + [line] + [""]
    ensures PlaceAfter(lines, Before) == Inside
  {
    hide Split, PlaceAfter, ParseLine, PostsFrom;
    var base := TrimEnd(content);
    SectionsThere(content);
    SplitWithBreak(base);
    ReadLastLine(t => 0, base, line);
    ReadTidy(t => 0, base);
    lines := Split(base, '\n');
  }

  /** A post stands at the end of the timeline; everything else stays. */
  lemma PostIsWritten(sheet: Sheet, content: string, ts: int, actor: string, body: string, section: string)
    requires FileKept(content) && InRange(ts) && OneLine(actor) && section in SECTIONS
    ensures var line := TimelineLine(ts, actor, body);
            var r := WithPost(sheet, content, line);
            && SectionInk(r, section) == SectionInk(content, section)
                 + (if section == "Timeline" then [TrimEnd(line)] else [])
            && AllInk(Split(r, '\n')) == AllInk(Split(content, '\n')) + [TrimEnd(line)]
  {
    hide Split, PlaceAfter, TimelineLine, WithPost, Ink, AllInk, Heading, Blank, TrimEnd, FileKept, PlaceIn;
    var line := TimelineLine(ts, actor, body);
    var header := "## " + section;
    LineIsOne(ts, actor, body);
    PostLineInk(ts, actor, body);
    var lines := PostLines(sheet, content, line);
    HeaderIsHeading(section);
    TimelineIsHeading();
    HeadersDiffer(section, "Timeline");
    if section == "Timeline" {
      TimelinePlace(lines, Before);
    } else {
      OutsideTimeline(lines, header, Before, Before);
    }
    InkMiddle(lines, line, [""], header);
    InkAppend(lines, [""], header, Before);
    NoInkAtEnd([""], header, PlaceIn(lines, header, Before));
    NoInkAtEnd([""], header, NextIn(header, PlaceIn(lines, header, Before), line));
    ThreeInks(lines, line, [""]);
    AllInkAppend(lines, [""]);
  }

  lemma PostLineInk(ts: int, actor: string, body: string)
    requires InRange(ts)
    ensures var line := TimelineLine(ts, actor, body); !Heading(line) && !Blank(line) && line != "" && line[0] == '-'
    ensures forall header :: Heading(header) ==> TimelineLine(ts, actor, body) != header
  {
    hide TimelineLine, Trim;
    TimelineLineIsNoHeading(ts, actor, body);
    InkIsNotBlank(TimelineLine(ts, actor, body), 0);
  }

  // ---- runs ----

  /** What an edit makes of the inked lines of one section. */
  function EditedInk(ink: seq<string>, section: string, e: Edit): seq<string>
    requires Proper(e)
  {
    match e
    case PostEdit(actor, body, ts) =>
      if section == "Timeline" then ink + [TrimEnd(TimelineLine(ts, actor, body))] else ink
    case NoteEdit(own, note, actor, ts) =>
      if section == own then Noted(ink, TrimEnd(NoteLine(ts, actor, note))) else ink
  }

  function SectionAfter(ink: seq<string>, section: string, edits: seq<Edit>): seq<string>
    requires forall i :: 0 <= i < |edits| ==> Proper(edits[i])
    decreases |edits|
  {
    if edits == [] then ink else SectionAfter(EditedInk(ink, section, edits[0]), section, edits[1..])
  }

  lemma EditIsWritten(sheet: Sheet, content: string, e: Edit, section: string)
    requires FileKept(content) && Proper(e) && section in SECTIONS
    ensures SectionInk(Edited(sheet, content, e), section) == EditedInk(SectionInk(content, section), section, e)
  {
    hide FileKept, SectionInk, Noted, TrimEnd, WithPost, NoteIn, TimelineLine, NoteLine, Legible, Settled, OnlyNoted;
    hide AllInk, SECTIONS;
    match e
    case PostEdit(actor, body, ts) =>
      LegibleIsOneLine(actor, body);
      PostIsWritten(sheet, content, ts, actor, body, section);
    case NoteEdit(own, note, actor, ts) =>
      LineIsOne(ts, actor, note);
      NoteLineStarts(ts, actor, note);
      if own in SECTIONS {
        NoteIsWritten(sheet, content, own, NoteLine(ts, actor, note));
      } else {
        UnknownSectionFails(sheet, content, own, NoteLine(ts, actor, note));
      }
  }

  lemma UnknownSectionFails(sheet: Sheet, content: string, section: string, entry: string)
    requires section !in SECTIONS
    ensures NoteIn(sheet, content, section, entry).Err?
  {
  }

  /** Over any run of posts and notes each section holds what the edits, one by one, make of it. */
  lemma {:induction false} SectionHistory(host: HostDate, sheet: Sheet, content: string, edits: seq<Edit>,
          section: string)
    requires FileKept(content) && section in SECTIONS && forall i :: 0 <= i < |edits| ==> Proper(edits[i])
    ensures SectionInk(AllEdited(sheet, content, edits), section)
              == SectionAfter(SectionInk(content, section), section, edits)
    decreases |edits|
  {
    hide FileKept, SectionInk, EditedInk, Edited, Proper, SECTIONS;
    if edits != [] {
      EditKept(host, sheet, content, edits[0]);
      EditIsWritten(sheet, content, edits[0], section);
      SectionHistory(host, sheet, Edited(sheet, content, edits[0]), edits[1..], section);
    }
  }

  function NoteOf(e: Edit, section: string): seq<string>
    requires Proper(e)
  {
    match e
    case PostEdit(_, _, _) => []
    case NoteEdit(own, note, actor, ts) => if own == section then [TrimEnd(NoteLine(ts, actor, note))] else []
  }

  function PostLineOf(e: Edit, section: string): seq<string>
    requires Proper(e)
  {
    match e
    case PostEdit(actor, body, ts) => if section == "Timeline" then [TrimEnd(TimelineLine(ts, actor, body))] else []
    case NoteEdit(_, _, _, _) => []
  }

  /** The notes written into a section, the newest first. */
  function NotesMade(edits: seq<Edit>, section: string): seq<string>
    requires forall i :: 0 <= i < |edits| ==> Proper(edits[i])
  {
    if edits == [] then [] else NotesMade(edits[1..], section) + NoteOf(edits[0], section)
  }

  /** The lines of the posts made, the oldest first. */
  function PostsMade(edits: seq<Edit>, section: string): seq<string>
    requires forall i :: 0 <= i < |edits| ==> Proper(edits[i])
  {
    if edits == [] then [] else PostLineOf(edits[0], section) + PostsMade(edits[1..], section)
  }

  lemma NoteIsDash(ts: int, actor: string, note: string)
    requires InRange(ts)
    ensures StartsWith(TrimEnd(NoteLine(ts, actor, note)), "-")
  {
    hide NoteLine, TrimEnd, Trim;
    NoteLineStarts(ts, actor, note);
    InkIsNotBlank(NoteLine(ts, actor, note), 0);
    DashStays(NoteLine(ts, actor, note));
  }

  lemma PostIsDash(ts: int, actor: string, body: string)
    requires InRange(ts)
    ensures StartsWith(TrimEnd(TimelineLine(ts, actor, body)), "-")
  {
    hide TimelineLine, TrimEnd, Trim;
    PostLineInk(ts, actor, body);
    DashStays(TimelineLine(ts, actor, body));
  }

  /** In a section of list items the notes come first, the newest on top, and the posts last. */
  lemma {:induction false} ItemsAfter(ink: seq<string>, section: string, edits: seq<Edit>)
    requires AllDashes(ink) && forall i :: 0 <= i < |edits| ==> Proper(edits[i])
    ensures SectionAfter(ink, section, edits) == NotesMade(edits, section) + ink + PostsMade(edits, section)
    decreases |edits|
  {
    hide EditedInk, NoteOf, PostLineOf, AllDashes, Proper;
    if edits == [] {
      assert [] + ink + [] == ink;
    } else {
      var rest := edits[1..];
      ItemsStep(ink, section, edits[0]);
      ItemsAfter(EditedInk(ink, section, edits[0]), section, rest);
      Regrouped(NotesMade(rest, section), NoteOf(edits[0], section), ink, PostLineOf(edits[0], section),
                PostsMade(rest, section));
    }
  }

  lemma Regrouped(a: seq<string>, b: seq<string>, c: seq<string>, d: seq<string>, e: seq<string>)
    ensures a + (b + c + d) + e == (a + b) + c + (d + e)
  {
  }

  lemma ItemsStep(ink: seq<string>, section: string, e: Edit)
    requires AllDashes(ink) && Proper(e)
    ensures EditedInk(ink, section, e) == NoteOf(e, section) + ink + PostLineOf(e, section)
    ensures AllDashes(EditedInk(ink, section, e))
  {
    hide TrimEnd, TimelineLine, NoteLine, StartsWith, Noted, AllDashes, Legible, Settled;
    match e {
      case PostEdit(actor, body, ts) =>
        PostIsDash(ts, actor, body);
        MoreDashes(ink, TrimEnd(TimelineLine(ts, actor, body)));
      case NoteEdit(own, note, actor, ts) =>
        NoteIsDash(ts, actor, note);
        MoreDashes(ink, TrimEnd(NoteLine(ts, actor, note)));
    }
  }

  lemma MoreDashes(ink: seq<string>, line: string)
    requires AllDashes(ink) && StartsWith(line, "-")
    ensures AllDashes(ink + [line]) && AllDashes([line] + ink) && Noted(ink, line) == [line] + ink
  {
    hide StartsWith;
    FirstTextSkips(ink, []);
    assert ink + [] == ink;
  }

  /** The placeholder stays until the first note, and no longer. */
  lemma {:induction false} PlaceholderAfter(section: string, edits: seq<Edit>)
    requires section != "Timeline" && forall i :: 0 <= i < |edits| ==> Proper(edits[i])
    ensures SectionAfter([PLACEHOLDER], section, edits)
              == if NotesMade(edits, section) == [] then [PLACEHOLDER] else NotesMade(edits, section)
    decreases |edits|
  {
    hide EditedInk, NoteOf, PostLineOf, AllDashes, Proper, PLACEHOLDER;
    if edits != [] {
      var rest := edits[1..];
      PlaceholderStep(section, edits[0]);
      if NoteOf(edits[0], section) == [] {
        PlaceholderAfter(section, rest);
        assert NotesMade(rest, section) + [] == NotesMade(rest, section);
      } else {
        var first := NoteOf(edits[0], section);
        ItemsAfter(first, section, rest);
        NoPosts(section, rest);
        assert NotesMade(rest, section) + first + [] == NotesMade(rest, section) + first;
      }
    }
  }

  lemma PlaceholderStep(section: string, e: Edit)
    requires section != "Timeline" && Proper(e)
    ensures EditedInk([PLACEHOLDER], section, e)
              == if NoteOf(e, section) == [] then [PLACEHOLDER] else NoteOf(e, section)
    ensures AllDashes(NoteOf(e, section))
  {
    hide TrimEnd, TimelineLine, NoteLine, StartsWith, Noted, Legible, Settled, PLACEHOLDER;
    match e {
      case PostEdit(_, _, _) =>
      case NoteEdit(_, note, actor, ts) =>
        NoteIsDash(ts, actor, note);
        PlaceholderNoted(TrimEnd(NoteLine(ts, actor, note)));
    }
  }

  lemma PlaceholderNoted(line: string)
    requires StartsWith(line, "-")
    ensures Noted([PLACEHOLDER], line) == [line] && AllDashes([line])
  {
    assert PLACEHOLDER[0] == '(' && PLACEHOLDER[|PLACEHOLDER| - 1] == ')';
    assert Trim(PLACEHOLDER) == PLACEHOLDER;
    assert FirstText([PLACEHOLDER]) == Some(0);
  }

  lemma {:induction false} NoPosts(section: string, edits: seq<Edit>)
    requires section != "Timeline" && forall i :: 0 <= i < |edits| ==> Proper(edits[i])
    ensures PostsMade(edits, section) == []
  {
    hide Proper;
    if edits != [] {
      NoPosts(section, edits[1..]);
    }
  }

  /**
   * A room's file, from its creation on: each section holds exactly the notes written into it, the newest on top,
   * or its placeholder while there is none; the timeline holds the posts below them, in order.
   */
  lemma RoomSections(host: HostDate, sheet: Sheet, edits: seq<Edit>, section: string)
    requires OneLineSheet(sheet) && section in SECTIONS && forall i :: 0 <= i < |edits| ==> Proper(edits[i])
    ensures var ink := SectionInk(AllEdited(sheet, InitialContent(sheet), edits), section);
            if section == "Timeline" then ink == NotesMade(edits, section) + PostsMade(edits, section)
            else ink == if NotesMade(edits, section) == [] then [PLACEHOLDER] else NotesMade(edits, section)
  {
    hide *;
    InitialKept(host, sheet);
    SectionHistory(host, sheet, InitialContent(sheet), edits, section);
    InitialSections(sheet, section);
    if section == "Timeline" {
      NoDashes();
      ItemsAfter([], section, edits);
      assert NotesMade(edits, section) + [] + PostsMade(edits, section)
        == NotesMade(edits, section) + PostsMade(edits, section);
    } else {
      PlaceholderAfter(section, edits);
    }
  }

  lemma NoDashes()
    ensures AllDashes([])
  {
  }

  lemma InitialSections(sheet: Sheet, section: string)
    requires OneLineSheet(sheet) && section in SECTIONS
    ensures SectionInk(InitialContent(sheet), section) == if section == "Timeline" then [] else [PLACEHOLDER]
  {
    hide InitialContent, Split, InitialLines;
    InitialSplit(sheet);
    InitialBlocks(sheet);
    var head := InitialLines(sheet)[..6];
    HeadHasNoHeading(sheet, "## " + section);
    NoHeader(head, "## " + section);
    InkAppend(head, BLOCKS, "## " + section, Before);
    BlocksRead(section);
  }

  const BLOCKS: seq<string> := ["## Decisions", PLACEHOLDER, "", "## Links", PLACEHOLDER, "", "## Task refs",
                                PLACEHOLDER, "", TIMELINE, ""]

  lemma InitialBlocks(sheet: Sheet)
    ensures |InitialLines(sheet)| == 17 && InitialLines(sheet) == InitialLines(sheet)[..6] + BLOCKS
  {
    hide TitleLine, TeamLine;
  }

  lemma HeadHasNoHeading(sheet: Sheet, header: string)
    requires OneLineSheet(sheet) && Heading(header)
    ensures |InitialLines(sheet)| == 17 && header !in InitialLines(sheet)[..6]
  {
    hide TitleLine, TeamLine;
    TitleIsOneLine(sheet);
    TeamIsOneLine(sheet);
    assert header[0] == '#' && header[1] == '#';
  }

  /** A heading with its placeholder. */
  function Block(title: string): seq<string> {
    [title, PLACEHOLDER, ""]
  }

  lemma BlockReads(title: string, header: string, place: Place)
    requires Heading(title) && Heading(header)
    ensures title == header && place == Before ==>
              Ink(Block(title), header, place) == [PLACEHOLDER] && PlaceIn(Block(title), header, place) == Inside
    ensures title != header ==>
              && Ink(Block(title), header, place) == []
              && PlaceIn(Block(title), header, place) == if place == Before then Before else Past
  {
    hide Heading, Ink, PlaceIn, PLACEHOLDER, Blank, Trim;
    PlaceholderIsInk();
    PlaceholderInk(PLACEHOLDER, header);
    EmptyIsBlank();
    EmptyIsNoHeading();
    assert Block(title) == [title] + [PLACEHOLDER] + [""];
    InkAppend([title] + [PLACEHOLDER], [""], header, place);
    InkAppend([title], [PLACEHOLDER], header, place);
    InkOne(title, header, place);
    InkOne(PLACEHOLDER, header, NextIn(header, place, title));
    InkOne("", header, NextIn(header, NextIn(header, place, title), PLACEHOLDER));
  }

  lemma EmptyIsNoHeading()
    ensures !Heading("")
  {
  }

  lemma PlaceholderIsInk()
    ensures Trim(PLACEHOLDER) == PLACEHOLDER && TrimEnd(PLACEHOLDER) == PLACEHOLDER
  {
    assert PLACEHOLDER[0] == '(' && PLACEHOLDER[|PLACEHOLDER| - 1] == ')';
  }

  lemma BlocksRead(section: string)
    requires section in SECTIONS
    ensures Ink(BLOCKS, "## " + section, Before) == if section == "Timeline" then [] else [PLACEHOLDER]
  {
    hide Ink, PlaceIn, PLACEHOLDER, Block, Heading, BLOCKS;
    var header := "## " + section;
    var a, b, c, d := Block("## Decisions"), Block("## Links"), Block("## Task refs"), [TIMELINE, ""];
    BlocksAre();
    HeadingsAre(section);
    InkAppend(a + b + c, d, header, Before);
    InkAppend(a + b, c, header, Before);
    InkAppend(a, b, header, Before);
    BlockReads("## Decisions", header, Before);
    BlockReads("## Links", header, PlaceIn(a, header, Before));
    BlockReads("## Task refs", header, PlaceIn(b, header, PlaceIn(a, header, Before)));
    TimelineBlock(header, PlaceIn(c, header, PlaceIn(b, header, PlaceIn(a, header, Before))));
  }

  lemma BlocksAre()
    ensures BLOCKS == Block("## Decisions") + Block("## Links") + Block("## Task refs") + [TIMELINE, ""]
  {
  }

  lemma HeadingsAre(section: string)
    requires section in SECTIONS
    ensures Heading("## Decisions") && Heading("## Links") && Heading("## Task refs") && Heading("## " + section)
    ensures "## Decisions" != "## Links" && "## Links" != "## Task refs" && "## Decisions" != "## Task refs"
    ensures section == "Decisions" ==> "## " + section == "## Decisions"
    ensures section == "Links" ==> "## " + section == "## Links"
    ensures section == "Task refs" ==> "## " + section == "## Task refs"
    ensures section == "Timeline" <==> "## " + section == TIMELINE
    ensures TIMELINE != "## Decisions" && TIMELINE != "## Links" && TIMELINE != "## Task refs"
    ensures section == "Decisions" || section == "Links" || section == "Task refs" || section == "Timeline"
  {
    assert "## Decisions"[3] == 'D' && "## Links"[3] == 'L' && "## Task refs"[4] == 'a' && TIMELINE[4] == 'i'
      && TIMELINE[3] == 'T';
    HeadersDiffer(section, "Timeline");
  }

  lemma TimelineBlock(header: string, place: Place)
    requires Heading(header) && (header == TIMELINE ==> place == Before)
    ensures Ink([TIMELINE, ""], header, place) == []
  {
    hide Heading, Ink, PlaceIn, Blank;
    TimelineIsHeading();
    EmptyIsBlank();
    assert [TIMELINE, ""] == [TIMELINE] + [""];
    InkAppend([TIMELINE], [""], header, place);
    InkOne(TIMELINE, header, place);
    InkOne("", header, NextIn(header, place, TIMELINE));
  }
}
