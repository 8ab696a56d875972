/**
 * The shared-room memory file of fleet-teams: posts appended to its timeline, notes edited into its sections,
 * posts parsed back.
 */
module RoomMemory {
  import opened Prelude
  import opened Strings
  import opened IsoTime
  import opened MemoryText
  import Teams

  const TIMELINE: string := "## Timeline"
  const PLACEHOLDER: string := "(nothing yet)"
  const SECTIONS: seq<string> := ["Decisions", "Links", "Task refs", "Timeline"]

  /** What a room's file is headed with: the room and the two lines that explain the file. */
  datatype Sheet = Sheet(room: Teams.Room, about: string, origin: string)

  datatype MemoryError = UnknownSection | NoSuchHeader

  function TitleLine(sheet: Sheet): string {
    "# " + sheet.room.name + " \U{2014} room memory"
  }

  function TeamLine(sheet: Sheet): string {
    "> Team: " + sheet.room.teamId + " \U{B7} Room scope: `" + sheet.room.scope + "` \U{B7} Room id: `" + sheet.room.id
      + "`."
  }

  function InitialLines(sheet: Sheet): seq<string> {
    [TitleLine(sheet), "", sheet.about, TeamLine(sheet), sheet.origin, "",
     "## Decisions", PLACEHOLDER, "", "## Links", PLACEHOLDER, "", "## Task refs", PLACEHOLDER, "", TIMELINE, ""]
  }

  function InitialContent(sheet: Sheet): string {
    Join(InitialLines(sheet), '\n')
  }

  // ---- reading ----

  /** Where the reader is: before the timeline, inside it, or past it. */
  datatype Place = Before | Inside | Past

  function NextPlace(place: Place, line: string): Place {
    if place == Past then Past
    else if line == TIMELINE then Inside
    else if place == Inside && StartsWith(line, "## ") then Past
    else place
  }

  function PostOf(host: HostDate, place: Place, line: string): seq<Post> {
    if place == Inside && line != TIMELINE && !StartsWith(line, "## ") && ParseLine(host, line).Some?
    then [ParseLine(host, line).value] else []
  }

  function PlaceAfter(lines: seq<string>, place: Place): Place {
    if lines == [] then place else PlaceAfter(lines[1..], NextPlace(place, lines[0]))
  }

  function PostsFrom(host: HostDate, lines: seq<string>, place: Place): seq<Post> {
    if lines == [] then [] else PostOf(host, place, lines[0]) + PostsFrom(host, lines[1..], NextPlace(place, lines[0]))
  }

  /** The posts a file holds. */
  function Posts(host: HostDate, content: string): seq<Post> {
    PostsFrom(host, Split(content, '\n'), Before)
  }

  // ---- editing ----

  /** Position of the first line equal to `header`. */
  function FindLine(lines: seq<string>, header: string): (r: Option<nat>)
    ensures r.Some? ==> r.value < |lines| && lines[r.value] == header && forall i :: 0 <= i < r.value ==>
              lines[i] != header
    ensures r.None? ==> header !in lines
  {
    if lines == [] then None
    else if lines[0] == header then Some(0)
    else
      match FindLine(lines[1..], header)
      case None => None
      case Some(i) => Some(i + 1)
  }

  predicate Blank(line: string) {
    Trim(line) == ""
  }

  /** Position of the first line from `i` on that is neither blank nor a list item. */
  function FindText(lines: seq<string>, i: nat): (r: Option<nat>)
    ensures r.Some? ==> i <= r.value < |lines| && !Blank(lines[r.value]) && !StartsWith(lines[r.value], "-")
    decreases |lines| - i
  {
    if i >= |lines| then None
    else if !Blank(lines[i]) && !StartsWith(lines[i], "-") then Some(i)
    else FindText(lines, i + 1)
  }

  /** Position of the first line from `i` on that is not blank, or the end. */
  function SkipBlank(lines: seq<string>, i: nat): (r: nat)
    requires i <= |lines|
    ensures i <= r <= |lines| && (r < |lines| ==> !Blank(lines[r]))
    ensures forall k :: i <= k < r ==> Blank(lines[k])
    decreases |lines| - i
  {
    if i < |lines| && Blank(lines[i]) then SkipBlank(lines, i + 1) else i
  }

  /**
   * The lines after a note is written under the header at position `h`: in place of the placeholder, or before
   * the first line.
   */
  function WithNote(lines: seq<string>, h: nat, entry: string): seq<string>
    requires h < |lines|
  {
    var text := FindText(lines, h + 1);
    if text.Some? && Trim(lines[text.value]) == PLACEHOLDER then lines[text.value := entry]
    else
      var at := SkipBlank(lines, h + 1);
      lines[..at] + [entry] + lines[at..]
  }

  function WithPost(sheet: Sheet, content: string, line: string): string {
    (if content == "" then InitialContent(sheet) else TrimEnd(content)) + "\n" + line + "\n"
  }

  function NoteIn(sheet: Sheet, content: string, section: string, entry: string): Result<string, MemoryError> {
    if section !in SECTIONS then Err(UnknownSection)
    else
      var lines := Split(if content == "" then InitialContent(sheet) else content, '\n');
      match FindLine(lines, "## " + section)
      case None => Err(NoSuchHeader)
      case Some(h) => Ok(TrimEnd(Join(WithNote(lines, h, entry), '\n')) + "\n")
  }

  class MemoryFile {
    const sheet: Sheet
    const host: HostDate
    /** The file's text; empty when there is no file. */
    var content: string

    constructor (sheet: Sheet, host: HostDate)
      ensures this.sheet == sheet && this.host == host && content == ""
    {
      this.sheet := sheet;
      this.host := host;
      content := "";
    }

    /** A room's file is created with the room; an existing file stays. */
    method EnsureMemoryFile()
      modifies this
      ensures content == if old(content) == "" then InitialContent(sheet) else old(content)
    {
      if content == "" {
        content := InitialContent(sheet);
      }
    }

    method AppendTimeline(actor: string, body: string, ts: int)
      requires InRange(ts)
      modifies this
      ensures content == WithPost(sheet, old(content), TimelineLine(ts, actor, body))
    {
      if content == "" {
        content := InitialContent(sheet) + "\n" + TimelineLine(ts, actor, body) + "\n";
        return;
      }
      content := TrimEnd(content) + "\n" + TimelineLine(ts, actor, body) + "\n";
    }

    method AppendSectionNote(section: string, note: string, actor: string, now: int)
      returns (r: Result<(), MemoryError>)
      requires InRange(now)
      modifies this
      ensures var spec := NoteIn(sheet, old(content), section, NoteLine(now, actor, note));
              && (spec.Ok? ==> r == Ok(()) && content == spec.value)
              && (spec.Err? ==> r == Err(spec.error) && content == old(content))
    {
      hide Join, Split, NoteLine, TrimEnd, InitialContent, FindLine, WithNote;
      if section !in SECTIONS { return Err(UnknownSection); }
      var body := if content == "" then InitialContent(sheet) else content;
      var lines := Split(body, '\n');
      var header := FindLine(lines, "## " + section);
      if header.None? { return Err(NoSuchHeader); }
      var entry := NoteLine(now, actor, note);
      lines := PutNote(lines, header.value, entry);
      content := TrimEnd(Join(lines, '\n')) + "\n";
      return Ok(());
    }

    method ParseTimeline() returns (posts: seq<Post>)
      ensures posts == Posts(host, content)
    {
      hide ParseLine, StartsWith, Split, PostsFrom;
      posts := [];
      if |content| == 0 {
        EmptyHasNoPosts(host);
        return;
      }
      var lines := Split(content, '\n');
      var inTimeline := false;
      for i := 0 to |lines|
        invariant Posts(host, content) == posts + PostsFrom(host, lines[i..], if inTimeline then Inside else Before)
      {
        var line := lines[i];
        ReadNext(host, lines, i, if inTimeline then Inside else Before);
        if line == TIMELINE {
          inTimeline := true;
          continue;
        }
        if inTimeline && StartsWith(line, "## ") {
          NothingPast(host, lines[i + 1..]);
          return;
        }
        if !inTimeline { continue; }
        var post := ParseLine(host, line);
        if post.None? { continue; }
        posts := posts + [post.value];
      }
      assert lines[|lines|..] == [];
      NothingLeft(host, if inTimeline then Inside else Before);
    }
  }

  /** Writes the entry over the section's placeholder, or before the section's first line. */
  method PutNote(lines: seq<string>, headerIndex: nat, entry: string) returns (r: seq<string>)
    requires headerIndex < |lines|
    ensures r == WithNote(lines, headerIndex, entry)
  {
    hide Trim, FindText;
    var text := FindText(lines, headerIndex + 1);
    if text.Some? && Trim(lines[text.value]) == PLACEHOLDER {
      return lines[text.value := entry];
    }
    var insertAt := headerIndex + 1;
    while insertAt < |lines| && Blank(lines[insertAt])
      invariant insertAt <= |lines|
      invariant SkipBlank(lines, headerIndex + 1) == SkipBlank(lines, insertAt)
    {
      insertAt := insertAt + 1;
    }
    return lines[..insertAt] + [entry] + lines[insertAt..];
  }

  lemma ReadNext(host: HostDate, lines: seq<string>, i: nat, place: Place)
    requires i < |lines|
    ensures PostsFrom(host, lines[i..], place)
              == PostOf(host, place, lines[i]) + PostsFrom(host, lines[i + 1..], NextPlace(place, lines[i]))
  {
    hide PostOf, NextPlace;
    assert lines[i..][0] == lines[i] && lines[i..][1..] == lines[i + 1..];
  }

  lemma NothingLeft(host: HostDate, place: Place)
    ensures PostsFrom(host, [], place) == []
  {
  }

  lemma EmptyHasNoPosts(host: HostDate)
    ensures Posts(host, "") == []
  {
  }

  lemma {:induction false} NothingPast(host: HostDate, lines: seq<string>)
    ensures PostsFrom(host, lines, Past) == []
  {
    if lines != [] {
      NothingPast(host, lines[1..]);
    }
  }
}
