/** The lines of a room memory file: how a post is written, how a line is read, how sections are edited. */
module MemoryText {
  import opened Prelude
  import opened Strings
  import opened IsoTime

  datatype Post = Post(actor: string, body: string, ts: int)

  /** `Date.parse` on texts that are not the ISO form of an instant: up to the host. */
  type HostDate = string -> int

  const MARK: string := "**: "

  predicate LineBreakOrTab(c: char) {
    c == '\r' || c == '\n' || c == '\t'
  }

  function SkipBreaks(s: string): (r: string)
    ensures |r| <= |s|
    ensures s != [] && LineBreakOrTab(s[0]) ==> |r| < |s|
  {
    if s != [] && LineBreakOrTab(s[0]) then SkipBreaks(s[1..]) else s
  }

  /** A body on one line: each run of line breaks and tabs becomes " / ". */
  function NormalizeBody(body: string): (r: string)
    ensures forall i :: 0 <= i < |r| ==> !LineBreakOrTab(r[i])
    decreases |body|
  {
    if body == [] then ""
    else if LineBreakOrTab(body[0]) then " / " + NormalizeBody(SkipBreaks(body))
    else [body[0]] + NormalizeBody(body[1..])
  }

  function TimelineLine(ts: int, actor: string, body: string): string
    requires InRange(ts)
  {
    "- `" + FormatTime(ts) + "` **" + actor + "**: " + NormalizeBody(body)
  }

  function NoteLine(ts: int, actor: string, note: string): string
    requires InRange(ts)
  {
    "- " + FormatTime(ts) + " **" + actor + "**: " + NormalizeBody(note)
  }

  predicate MarkAt(s: string, i: nat) {
    i + 4 <= |s| && s[i] == '*' && s[i + 1] == '*' && s[i + 2] == ':' && s[i + 3] == ' '
  }

  /** The first mark at or after position `i`: where the shortest actor ends. */
  function FindMark(s: string, i: nat): (r: Option<nat>)
    ensures r.Some? ==> i <= r.value && MarkAt(s, r.value) && forall j :: i <= j < r.value ==> !MarkAt(s, j)
    ensures r.None? ==> forall j: nat :: i <= j ==> !MarkAt(s, j)
    decreases |s| - i
  {
    if i >= |s| then None
    else if MarkAt(s, i) then Some(i)
    else FindMark(s, i + 1)
  }

  function ParseTime(host: HostDate, s: string): int {
    if IsoShape(s) && ParseIso(s).Some? then ParseIso(s).value else host(s)
  }

  /** One line against the pattern of a post. */
  function ParseLine(host: HostDate, line: string): Option<Post> {
    if !StartsWith(line, "- `") then None
    else
      match IndexOf(line[3..], '`')
      case None => None
      case Some(k) =>
        var rest := line[3 + k + 1..];
        if k == 0 || !StartsWith(rest, " **") || !AllDot(rest) then None
        else
          match FindMark(rest[3..], 1)
          case None => None
          case Some(n) => Some(Post(rest[3..][..n], rest[3..][n + 4..], ParseTime(host, line[3..][..k])))
  }

  // ---- the line round trip ----

  /** No "**: " inside the name, its first character aside. */
  predicate Unmarked(actor: string) {
    forall i :: 1 <= i < |actor| ==> !MarkAt(actor, i)
  }

  lemma MarksOfPair(actor: string, body: string)
    ensures MarkAt(actor + MARK + body, |actor|)
    ensures forall i: nat :: i < |actor| ==> MarkAt(actor + MARK + body, i) == MarkAt(actor, i)
  {
    var s := actor + MARK + body;
    forall i: nat | i < |actor| ensures MarkAt(s, i) == MarkAt(actor, i) {
      assert forall k :: 0 <= k < |actor| ==> s[k] == actor[k];
      assert s[|actor|] == '*' && s[|actor| + 1] == '*' && s[|actor| + 2] == ':' && s[|actor| + 3] == ' ';
    }
  }

  lemma SplitPair(actor: string, body: string)
    ensures FindMark(actor + MARK + body, 1) == Some(|actor|) <==> actor != "" && Unmarked(actor)
  {
    var s := actor + MARK + body;
    MarksOfPair(actor, body);
    if actor != "" && Unmarked(actor) {
      var r := FindMark(s, 1);
      assert r.Some?;
    }
  }

  /** What `.` must match in a written line: everything after the time. */
  lemma DotParts(actor: string, body: string)
    ensures AllDot(" **" + actor + MARK + body) <==> AllDot(actor) && AllDot(body)
  {
    var s := " **" + actor + MARK + body;
    assert forall i :: 0 <= i < |actor| ==> s[3 + i] == actor[i];
    assert forall i :: 0 <= i < |body| ==> s[3 + |actor| + 4 + i] == body[i];
    if AllDot(s) {
      forall i | 0 <= i < |actor| ensures Dot(actor[i]) { assert Dot(s[3 + i]); }
      forall i | 0 <= i < |body| ensures Dot(body[i]) { assert Dot(s[3 + |actor| + 4 + i]); }
    }
  }

  lemma LineParts(time: string, tail: string)
    requires '`' !in time
    ensures var line := "- `" + time + "`" + tail;
            && StartsWith(line, "- `") && IndexOf(line[3..], '`') == Some(|time|)
            && line[3..][..|time|] == time && line[3 + |time| + 1..] == tail
  {
    var line := "- `" + time + "`" + tail;
    assert line[3..] == time + "`" + tail;
    assert line[3..][..|time|] == time;
    FirstIndex(line[3..], '`', |time|);
  }

  lemma TimeHasNoQuote(ts: int)
    requires InRange(ts)
    ensures '`' !in FormatTime(ts)
  {
    hide FormatTime, ParseIso;
    TimeRoundTrip(ts);
    var s := FormatTime(ts);
    forall i | 0 <= i < |s| ensures s[i] != '`' {
      NoQuoteInIso(s, i);
    }
  }

  lemma NoQuoteInIso(s: string, i: nat)
    requires IsoShape(s) && i < |s|
    ensures s[i] != '`' && s[i] != '\n'
  {
    assert forall k :: 0 <= k < 4 ==> s[k] == s[..4][k];
    assert forall k :: 0 <= k < 2 ==> s[5 + k] == s[5..7][k] && s[8 + k] == s[8..10][k] && s[11 + k] == s[11..13][k];
    assert forall k :: 0 <= k < 2 ==> s[14 + k] == s[14..16][k] && s[17 + k] == s[17..19][k];
    assert forall k :: 0 <= k < 3 ==> s[20 + k] == s[20..23][k];
  }

  /** The condition under which a written post line is read back as the post. */
  predicate Legible(actor: string, body: string) {
    actor != "" && Unmarked(actor) && AllDot(actor) && AllDot(NormalizeBody(body))
  }

  /** A post line reads back as the post exactly when the post is legible. */
  lemma LineRoundTrip(host: HostDate, ts: int, actor: string, body: string)
    requires InRange(ts)
    ensures ParseLine(host, TimelineLine(ts, actor, body)) == Some(Post(actor, NormalizeBody(body), ts))
            <==> Legible(actor, body)
  {
    hide FormatTime, NormalizeBody, AllDot, Unmarked, StartsWith, IndexOf, FindMark;
    var line, time, text := TimelineLine(ts, actor, body), FormatTime(ts), NormalizeBody(body);
    var tail := " **" + actor + MARK + text;
    assert line == "- `" + time + "`" + tail;
    TimeHasNoQuote(ts);
    LineParts(time, tail);
    TailParts(actor, text);
    DotParts(actor, text);
    SplitPair(actor, text);
    TimeRoundTrip(ts);
    MarkBounds(actor + MARK + text);
  }

  lemma TailParts(actor: string, text: string)
    ensures var tail := " **" + actor + MARK + text;
            StartsWith(tail, " **") && tail[3..] == actor + MARK + text
    ensures (actor + MARK + text)[..|actor|] == actor && (actor + MARK + text)[|actor| + 4..] == text
  {
  }

  lemma MarkBounds(s: string)
    ensures FindMark(s, 1).Some? ==> FindMark(s, 1).value + 4 <= |s|
  {
  }

  // ---- what lines say ----

  predicate Unbroken(s: string) {
    forall i :: 0 <= i < |s| ==> !LineBreakOrTab(s[i])
  }

  lemma {:induction false} UnbrokenStays(s: string)
    requires Unbroken(s)
    ensures NormalizeBody(s) == s
  {
    if s != "" {
      UnbrokenStays(s[1..]);
      assert s == [s[0]] + s[1..];
    }
  }

  lemma {:induction false} BreaksSkipped(breaks: string, rest: string)
    requires (forall i :: 0 <= i < |breaks| ==> LineBreakOrTab(breaks[i])) && (rest == "" || !LineBreakOrTab(rest[0]))
    ensures SkipBreaks(breaks + rest) == rest
  {
    if breaks == "" {
      assert breaks + rest == rest;
    } else {
      assert (breaks + rest)[0] == breaks[0] && (breaks + rest)[1..] == breaks[1..] + rest;
      BreaksSkipped(breaks[1..], rest);
    }
  }

  /** A body is kept piece by piece, each run of line breaks and tabs between its pieces written as " / ". */
  lemma {:induction false} BodyPieces(piece: string, breaks: string, rest: string)
    requires Unbroken(piece) && breaks != "" && (forall i :: 0 <= i < |breaks| ==> LineBreakOrTab(breaks[i]))
    requires rest == "" || !LineBreakOrTab(rest[0])
    ensures NormalizeBody(piece + breaks + rest) == piece + " / " + NormalizeBody(rest)
  {
    var body := piece + breaks + rest;
    if piece == "" {
      assert body == breaks + rest;
      BreaksSkipped(breaks, rest);
    } else {
      assert body[0] == piece[0] && body[1..] == piece[1..] + breaks + rest;
      BodyPieces(piece[1..], breaks, rest);
      assert piece == [piece[0]] + piece[1..];
    }
  }

  /** A note line says when, by whom and what: different notes by clearly named agents have different lines. */
  lemma NoteLineDetermines(ts: int, actor: string, note: string, ts2: int, actor2: string, note2: string)
    requires InRange(ts) && InRange(ts2) && actor != "" && actor2 != "" && Unmarked(actor) && Unmarked(actor2)
    ensures NoteLine(ts, actor, note) == NoteLine(ts2, actor2, note2) <==>
              ts == ts2 && actor == actor2 && NormalizeBody(note) == NormalizeBody(note2)
  {
    hide FormatTime, NormalizeBody, Unmarked, FindMark, ParseIso;
    if NoteLine(ts, actor, note) == NoteLine(ts2, actor2, note2) {
      var s, t := actor + MARK + NormalizeBody(note), actor2 + MARK + NormalizeBody(note2);
      TimeRoundTrip(ts);
      TimeRoundTrip(ts2);
      var line := NoteLine(ts, actor, note);
      NoteParts(ts, actor, note);
      NoteParts(ts2, actor2, note2);
      SplitPair(actor, NormalizeBody(note));
      SplitPair(actor2, NormalizeBody(note2));
      assert s[..|actor|] == actor && t[..|actor2|] == actor2;
      assert s[|actor| + 4..] == NormalizeBody(note) && t[|actor2| + 4..] == NormalizeBody(note2);
    }
  }

  lemma NoteParts(ts: int, actor: string, note: string)
    requires InRange(ts) && |FormatTime(ts)| == 24
    ensures var line := NoteLine(ts, actor, note);
            |line| >= 29 && line[2..26] == FormatTime(ts) && line[29..] == actor + MARK + NormalizeBody(note)
  {
    hide FormatTime, NormalizeBody;
    var time, rest := FormatTime(ts), actor + MARK + NormalizeBody(note);
    assert NoteLine(ts, actor, note) == "- " + (time + (" **" + rest));
  }
}
