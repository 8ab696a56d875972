/** Which goals, of all strings, the store's LIKE answers as membership in the ancestry. */
module GoalPatterns {
  import opened Prelude
  import opened Strings
  import opened GoalQuery

  predicate Wild(c: char) {
    c == '%' || c == '_'
  }

  /** Letters, digits, dashes and the two wildcards. */
  predicate GoalChar(c: char) {
    'a' <= c <= 'z' || 'A' <= c <= 'Z' || IsDigit(c) || c == '-' || Wild(c)
  }

  /**
   * A comma that can stand for a separator of the list: its neighbours can be quotes, and the next separator is
   * not too near.
   */
  predicate CommaFits(goal: string, i: nat)
    requires i < |goal|
  {
    && (i == 0 || Wild(goal[i - 1]))
    && (i + 1 == |goal| || Wild(goal[i + 1]))
    && !(i + 2 < |goal| && goal[i + 1] == '_' && goal[i + 2] == ',')
  }

  /** The goals that some list of plain ids matches. */
  predicate Fits(goal: string) {
    forall i :: 0 <= i < |goal| ==> GoalChar(goal[i]) || (goal[i] == ',' && CommaFits(goal, i))
  }

  // ---- a goal that fits matches ----

  predicate GoalText(goal: string) {
    forall i :: 0 <= i < |goal| ==> GoalChar(goal[i])
  }

  /** A plain id the goal stands for: `_` filled in, `%` empty, letters in lower case. */
  function Instance(goal: string): string {
    if goal == "" then ""
    else (if goal[0] == '%' then "" else if goal[0] == '_' then "a" else [Fold(goal[0])]) + Instance(goal[1..])
  }

  lemma {:induction false} InstancePlain(goal: string)
    requires GoalText(goal)
    ensures PlainId(Instance(goal))
  {
    if goal != "" {
      InstancePlain(goal[1..]);
    }
  }

  /** A goal before a matching pattern matches its instance before the matched text. */
  lemma {:induction false} InstanceMatches(goal: string, pattern: string, text: string)
    requires Like(pattern, text)
    ensures Like(goal + pattern, Instance(goal) + text)
  {
    hide Like, Instance;
    InstanceFirst(goal);
    if goal == "" {
      assert goal + pattern == pattern && Instance(goal) + text == text;
    } else {
      InstanceMatches(goal[1..], pattern, text);
      var left, right := goal[1..] + pattern, Instance(goal[1..]) + text;
      assert goal + pattern == [goal[0]] + left;
      if goal[0] == '%' {
        LikePercent(left, right);
        assert goal + pattern == "%" + left && Instance(goal) + text == right;
      } else {
        var c := if goal[0] == '_' then 'a' else Fold(goal[0]);
        OneCharacter(goal[0], c, left, right);
        assert Instance(goal) + text == [c] + right;
      }
    }
  }

  lemma InstanceFirst(goal: string)
    ensures goal == "" ==> Instance(goal) == ""
    ensures goal != "" ==>
              Instance(goal)
              == (if goal[0] == '%' then "" else if goal[0] == '_' then "a" else [Fold(goal[0])]) + Instance(goal[1..])
  {
  }

  lemma OneCharacter(p: char, c: char, pattern: string, text: string)
    requires p != '%' && (p == '_' || Fold(p) == Fold(c)) && Like(pattern, text)
    ensures Like([p] + pattern, [c] + text)
  {
    assert ([p] + pattern)[1..] == pattern && ([c] + text)[1..] == text;
  }

  lemma WildTakes(w: char, c: char, pattern: string, text: string)
    requires Wild(w) && Like(pattern, text)
    ensures Like([w] + pattern, [c] + text)
  {
    hide Like;
    if w == '%' {
      Somewhere(pattern, [c], text);
    } else {
      OneCharacter(w, c, pattern, text);
    }
  }

  lemma {:induction false} Somewhere(pattern: string, before: string, text: string)
    requires Like(pattern, text)
    ensures Like("%" + pattern, before + text)
  {
    hide Like;
    LikePercent(pattern, before + text);
    if before == "" {
      assert before + text == text;
    } else {
      assert (before + text)[1..] == before[1..] + text;
      Somewhere(pattern, before[1..], text);
    }
  }

  /**
   * What of a stretch of the goal between commas stands for the id: all but the wildcards that stand for its
   * quotes.
   */
  function Middle(stretch: string, open: bool, closed: bool): string {
    var from := if open && stretch != "" then stretch[1..] else stretch;
    if closed && from != "" then from[..|from| - 1] else from
  }

  /** The ids a goal stands for; `open` when a comma came before. */
  function IdsOf(goal: string, open: bool): (ids: seq<string>)
    ensures ids != []
    decreases |goal|
  {
    match IndexOf(goal, ',')
    case None => [Instance(Middle(goal, open, false))]
    case Some(i) => [Instance(Middle(goal[..i], open, true))] + IdsOf(goal[i + 1..], true)
  }

  lemma {:induction false} IdsOfPlain(goal: string, open: bool)
    requires forall i :: 0 <= i < |goal| ==> GoalChar(goal[i]) || goal[i] == ','
    ensures PlainIds(IdsOf(goal, open))
    decreases |goal|
  {
    hide GoalChar, PlainId, Instance;
    match IndexOf(goal, ',')
    case None => InstancePlain(Middle(goal, open, false));
    case Some(i) =>
      InstancePlain(Middle(goal[..i], open, true));
      IdsOfPlain(goal[i + 1..], true);
  }

  /** The rest of a goal after a comma that fits. */
  predicate AfterComma(rest: string) {
    Fits(rest) && (rest == "" || Wild(rest[0])) && !(|rest| >= 2 && rest[0] == '_' && rest[1] == ',')
  }

  lemma RestFits(goal: string, i: nat)
    requires Fits(goal) && i < |goal| && goal[i] == ','
    ensures AfterComma(goal[i + 1..]) && (i == 0 || Wild(goal[i - 1]))
  {
    var rest := goal[i + 1..];
    assert CommaFits(goal, i);
    forall k | 0 <= k < |rest| ensures GoalChar(rest[k]) || (rest[k] == ',' && CommaFits(rest, k)) {
      assert rest[k] == goal[i + 1 + k];
    }
  }

  /** After a quote was matched, a stretch before a comma matches the id and its closing quote. */
  lemma StretchMatches(stretch: string, pattern: string, text: string)
    requires stretch != "" && Wild(stretch[|stretch| - 1]) && Like(pattern, text)
    ensures Like(stretch + pattern, Instance(Middle(stretch, false, true)) + ([QUOTE] + text))
  {
    hide Like, Instance;
    var n := |stretch| - 1;
    WildTakes(stretch[n], QUOTE, pattern, text);
    InstanceMatches(stretch[..n], [stretch[n]] + pattern, [QUOTE] + text);
    assert stretch + pattern == stretch[..n] + ([stretch[n]] + pattern);
  }

  /** A stretch between two commas matches an id with both its quotes. */
  lemma OpenStretchMatches(stretch: string, pattern: string, text: string)
    requires stretch != "" && Wild(stretch[0]) && Wild(stretch[|stretch| - 1]) && stretch != "_" && Like(pattern, text)
    ensures Like(stretch + pattern, [QUOTE] + (Instance(Middle(stretch, true, true)) + ([QUOTE] + text)))
  {
    hide Like, Instance;
    var tail := stretch[1..];
    if tail == "" {
      assert stretch == "%";
      InstanceFirst("");
      Somewhere(pattern, [QUOTE, QUOTE], text);
      assert [QUOTE] + ("" + ([QUOTE] + text)) == [QUOTE, QUOTE] + text;
    } else {
      StretchMatches(tail, pattern, text);
      WildTakes(stretch[0], QUOTE, tail + pattern, Instance(Middle(tail, false, true)) + ([QUOTE] + text));
      assert stretch + pattern == [stretch[0]] + (tail + pattern);
    }
  }

  lemma {:induction false} OpenGoalMatches(goal: string)
    requires AfterComma(goal)
    ensures Like(goal + ([QUOTE] + "%"), ListTail(IdsOf(goal, true)))
    decreases |goal|
  {
    hide Like, Instance, ListTail, AfterComma, Fits, Printed;
    var ids, end := IdsOf(goal, true), [QUOTE] + "%";
    IdsPlain(goal, true);
    match IndexOf(goal, ',')
    case None =>
      TextOfOne(ids[0]);
      EndMatches();
      if goal == "" {
        InstanceFirst("");
        assert goal + end == end && Quoted("") + "]" == [QUOTE] + ([QUOTE] + "]");
        OneCharacter(QUOTE, QUOTE, "%", [QUOTE] + "]");
      } else {
        StartIsWild(goal);
        InstanceMatches(goal[1..], end, [QUOTE] + "]");
        WildTakes(goal[0], QUOTE, goal[1..] + end, ids[0] + ([QUOTE] + "]"));
        assert goal + end == [goal[0]] + (goal[1..] + end);
        assert Quoted(ids[0]) + "]" == [QUOTE] + (ids[0] + ([QUOTE] + "]"));
      }
    case Some(i) =>
      var rest, stretch := goal[i + 1..], goal[..i];
      OpenStretchFits(goal, i);
      OpenGoalMatches(rest);
      OneCharacter(',', ',', rest + end, ListTail(IdsOf(rest, true)));
      OpenStretchMatches(stretch, [','] + (rest + end), [','] + ListTail(IdsOf(rest, true)));
      assert goal + end == stretch + ([','] + (rest + end));
      TextOfMore(ids[0], IdsOf(rest, true));
  }

  lemma IdsPlain(goal: string, open: bool)
    requires Fits(goal) || AfterComma(goal)
    ensures PlainIds(IdsOf(goal, open))
  {
    hide IdsOf, PlainIds, GoalChar;
    IdsOfPlain(goal, open);
  }

  lemma StartIsWild(goal: string)
    requires AfterComma(goal) && goal != ""
    ensures Wild(goal[0])
  {
  }

  lemma OpenStretchFits(goal: string, i: nat)
    requires AfterComma(goal) && i < |goal| && goal[i] == ',' && ',' !in goal[..i]
    ensures AfterComma(goal[i + 1..])
    ensures i > 0 && Wild(goal[0]) && Wild(goal[..i][i - 1]) && goal[..i] != "_"
  {
    hide Fits;
    RestFits(goal, i);
    assert i > 0;
    assert goal[..i][0] == goal[0] && goal[..i][i - 1] == goal[i - 1];
  }

  lemma EndMatches()
    ensures Like([QUOTE] + "%", [QUOTE] + "]") && Like("%", [QUOTE] + "]") && Like("%", "]")
  {
    hide Like;
    AnyTail("]");
    AnyTail([QUOTE] + "]");
    OneCharacter(QUOTE, QUOTE, "%", "]");
  }

  lemma TextOfOne(id: string)
    requires PlainId(id)
    ensures ListTail([id]) == Quoted(id) + "]"
  {
    PlainPrinted(id);
  }

  lemma TextOfMore(id: string, ids: seq<string>)
    requires PlainId(id) && ids != []
    ensures ListTail([id] + ids) == [QUOTE] + (id + ([QUOTE] + ([','] + ListTail(ids))))
  {
    hide Printed;
    PlainPrinted(id);
    assert ([id] + ids)[1..] == ids;
  }

  /** Every goal that fits matches the row whose ancestry is the ids it stands for. */
  lemma FittingGoalMatches(goal: string)
    requires Fits(goal)
    ensures GoalMatches(goal, IdsOf(goal, false)) && PlainIds(IdsOf(goal, false))
  {
    hide GoalMatches, Instance, IdsOf;
    IdsPlain(goal, false);
    FittingAsIs(goal);
    match IndexOf(goal, ',')
    case None => OneStretchMatches(goal);
    case Some(i) =>
      RestFits(goal, i);
      OpenGoalMatches(goal[i + 1..]);
      FirstStretchMatches(goal, i);
  }

  /** The goal's row is found where its quoted text begins to match. */
  lemma Found(goal: string, ids: seq<string>, before: string, text: string)
    requires Printed(goal) == Quoted(goal) && ListText(ids) == before + text
    requires Like([QUOTE] + (goal + ([QUOTE] + "%")), text)
    ensures GoalMatches(goal, ids)
  {
    hide Like, ListText, Printed;
    assert "%" + Quoted(goal) + "%" == "%" + ([QUOTE] + (goal + ([QUOTE] + "%")));
    Somewhere([QUOTE] + (goal + ([QUOTE] + "%")), before, text);
  }

  lemma OneStretchMatches(goal: string)
    requires IndexOf(goal, ',') == None && PlainIds(IdsOf(goal, false)) && Printed(goal) == Quoted(goal)
    ensures GoalMatches(goal, IdsOf(goal, false))
  {
    hide Like, Instance, ListTail, Printed, GoalMatches;
    var id, end := Instance(goal), [QUOTE] + "%";
    assert IdsOf(goal, false) == [id] && id == IdsOf(goal, false)[0];
    TextOfOne(id);
    EndMatches();
    InstanceMatches(goal, end, [QUOTE] + "]");
    OneCharacter(QUOTE, QUOTE, goal + end, id + ([QUOTE] + "]"));
    assert ListText([id]) == "[" + ([QUOTE] + (id + ([QUOTE] + "]")));
    Found(goal, [id], "[", [QUOTE] + (id + ([QUOTE] + "]")));
  }

  lemma FirstStretchMatches(goal: string, i: nat)
    requires IndexOf(goal, ',') == Some(i) && PlainIds(IdsOf(goal, false)) && Printed(goal) == Quoted(goal)
    requires i == 0 || Wild(goal[i - 1])
    requires Like(goal[i + 1..] + ([QUOTE] + "%"), ListTail(IdsOf(goal[i + 1..], true)))
    ensures GoalMatches(goal, IdsOf(goal, false))
  {
    hide Like, Instance, ListTail, Printed, GoalMatches, IdsOf;
    var stretch, more, end := goal[..i], IdsOf(goal[i + 1..], true), [QUOTE] + "%";
    var id, pattern, text := Instance(Middle(stretch, false, true)), [','] + (goal[i + 1..] + end),
      [','] + ListTail(more);
    FirstId(goal, i);
    TextOfMore(id, more);
    OneCharacter(',', ',', goal[i + 1..] + end, ListTail(more));
    assert goal + end == stretch + pattern;
    if i == 0 {
      InstanceFirst("");
      OneCharacter(QUOTE, QUOTE, pattern, text);
      assert stretch + pattern == pattern;
      assert ListText([id] + more) == ['[', QUOTE] + ([QUOTE] + text);
      Found(goal, [id] + more, ['[', QUOTE], [QUOTE] + text);
    } else {
      StretchMatches(stretch, pattern, text);
      OneCharacter(QUOTE, QUOTE, stretch + pattern, id + ([QUOTE] + text));
      assert ListText([id] + more) == "[" + ([QUOTE] + (id + ([QUOTE] + text)));
      Found(goal, [id] + more, "[", [QUOTE] + (id + ([QUOTE] + text)));
    }
  }

  lemma FirstId(goal: string, i: nat)
    requires IndexOf(goal, ',') == Some(i) && PlainIds(IdsOf(goal, false))
    ensures var id := Instance(Middle(goal[..i], false, true));
            IdsOf(goal, false) == [id] + IdsOf(goal[i + 1..], true) && PlainId(id)
  {
    hide Instance, PlainId;
    assert IdsOf(goal, false)[0] == Instance(Middle(goal[..i], false, true));
  }

  lemma FittingAsIs(goal: string)
    requires forall i :: 0 <= i < |goal| ==> GoalChar(goal[i]) || goal[i] == ','
    ensures Printed(goal) == Quoted(goal)
  {
    BodyAsIs(goal);
  }

  // ---- a goal that matches fits ----

  /** A text that matches two patterns in a row falls into two parts. */
  lemma {:induction false} LikeSplit(a: string, b: string, text: string) returns (k: nat)
    requires Like(a + b, text)
    ensures k <= |text| && Like(a, text[..k]) && Like(b, text[k..])
    decreases |a| + |text|
  {
    if a == "" {
      k := 0;
      assert a + b == b && text[0..] == text;
    } else {
      assert (a + b)[0] == a[0] && (a + b)[1..] == a[1..] + b;
      if a[0] == '%' && Like(a[1..] + b, text) {
        k := LikeSplit(a[1..], b, text);
      } else {
        var j := LikeSplit(if a[0] == '%' then a else a[1..], b, text[1..]);
        k := j + 1;
        assert text[..k][1..] == text[1..][..j] && text[k..] == text[1..][j..];
      }
    }
  }

  /** Where a character of the pattern that is no wildcard lies in the text. */
  lemma LikeAt(a: string, d: char, b: string, text: string) returns (j: nat)
    requires Like(a + ([d] + b), text) && !Wild(d)
    ensures j < |text| && Fold(d) == Fold(text[j]) && Like(a, text[..j]) && Like(b, text[j + 1..])
  {
    j := LikeSplit(a, [d] + b, text);
    assert ([d] + b)[1..] == b && text[j..][1..] == text[j + 1..];
  }

  lemma LikeLast(a: string, d: char, text: string)
    requires Like(a + [d], text) && !Wild(d)
    ensures text != "" && Fold(d) == Fold(text[|text| - 1])
  {
    hide Like;
    assert a + [d] == a + ([d] + "");
    var j := LikeAt(a, d, "", text);
    NothingLeft(text[j + 1..]);
  }

  lemma NothingLeft(text: string)
    requires Like("", text)
    ensures text == ""
  {
  }

  lemma LikeFirst(d: char, b: string, text: string)
    requires Like([d] + b, text) && d != '%'
    ensures text != "" && (d != '_' ==> Fold(d) == Fold(text[0])) && Like(b, text[1..])
  {
    assert ([d] + b)[1..] == b;
  }

  /** The text of a list: plain characters, quotes, and commas between quotes. */
  predicate TextChar(c: char) {
    'a' <= c <= 'z' || IsDigit(c) || c == '-' || c == QUOTE || c == ','
  }

  predicate Separates(text: string, j: nat)
    requires j < |text|
  {
    && 0 < j && text[j - 1] == QUOTE && j + 1 < |text| && text[j + 1] == QUOTE
    && (j + 2 < |text| ==> text[j + 2] != ',')
  }

  predicate ListShape(text: string) {
    && text != "" && (forall j :: 0 <= j < |text| - 1 ==> TextChar(text[j])) && text[|text| - 1] == ']'
    && (forall j :: 0 <= j < |text| && text[j] == ',' ==> Separates(text, j))
  }

  lemma {:induction false} ListTailShape(ids: seq<string>)
    requires PlainIds(ids)
    ensures ListShape(ListTail(ids))
    ensures ids != [] ==> |ListTail(ids)| >= 3 && ListTail(ids)[0] == QUOTE && ListTail(ids)[1] != ','
  {
    hide Printed, ListShape;
    if ids == [] {
      BracketShape();
    } else {
      PlainPrinted(ids[0]);
      if |ids| == 1 {
        LastShape(ids[0]);
      } else {
        ListTailShape(ids[1..]);
        NextShape(ids[0], ListTail(ids[1..]));
      }
    }
  }

  lemma BracketShape()
    ensures ListShape("]")
  {
  }

  lemma LastShape(id: string)
    requires PlainId(id)
    ensures var text := Quoted(id) + "]"; ListShape(text) && text[0] == QUOTE && text[1] != ','
  {
  }

  lemma NextShape(id: string, rest: string)
    requires PlainId(id) && ListShape(rest) && |rest| >= 3 && rest[0] == QUOTE && rest[1] != ','
    ensures var text := Quoted(id) + "," + rest; ListShape(text) && text[0] == QUOTE && text[1] != ','
  {
    var text, n := Quoted(id) + "," + rest, |id| + 3;
    assert forall j :: n <= j < |text| ==> text[j] == rest[j - n];
    assert text[n - 1] == ',' && text[n - 2] == QUOTE && forall j :: 1 <= j < n - 2 ==> text[j] == id[j - 1];
    forall j | 0 <= j < |text| && text[j] == ',' ensures Separates(text, j) {
      if j >= n {
        assert Separates(rest, j - n);
      }
    }
  }

  /** Every character of a goal that some plain ancestry matches is a letter, digit, dash, wildcard or comma. */
  lemma MatchedCharacter(goal: string, ancestry: seq<string>, i: nat)
    requires PlainIds(ancestry) && GoalMatches(goal, ancestry) && i < |goal|
    ensures GoalChar(goal[i]) || goal[i] == ','
  {
    hide Like, ListTail, PlainIds, GoalChar, Escaped, Body;
    BodyAt(goal, i);
    EscapedCharacter(goal[i]);
    if !GoalChar(goal[i]) && goal[i] != ',' {
      OddCharacter(goal[i]);
      var escape := Escaped(goal[i]);
      var before, after := Body(goal[..i]), escape[1..] + Body(goal[i + 1..]);
      assert escape == [escape[0]] + escape[1..];
      assert "%" + Printed(goal) + "%" == ("%" + ([QUOTE] + before)) + ([escape[0]] + (after + ([QUOTE] + "%")));
      var c := InsideCharacter(before, escape[0], after, ancestry);
    }
  }

  lemma {:induction false} BodyAt(s: string, i: nat)
    requires i < |s|
    ensures Body(s) == Body(s[..i]) + Escaped(s[i]) + Body(s[i + 1..])
  {
    hide Escaped;
    if i == 0 {
      assert s[..0] == "";
    } else {
      BodyAt(s[1..], i - 1);
      assert s[1..][..i - 1] == s[..i][1..] && s[1..][i..] == s[i + 1..];
    }
  }

  lemma OddCharacter(c: char)
    requires !GoalChar(c) && c != ','
    ensures Escaped(c) != "" && !Wild(Escaped(c)[0]) && forall d :: Fold(Escaped(c)[0]) == Fold(d) ==> !TextChar(d)
  {
    EscapedCharacter(c);
  }

  /** A character between the quotes of a pattern meets a character inside the brackets of the text. */
  lemma InsideCharacter(before: string, d: char, after: string, ancestry: seq<string>) returns (c: char)
    requires !Wild(d) && PlainIds(ancestry)
    requires Like(("%" + ([QUOTE] + before)) + ([d] + (after + ([QUOTE] + "%"))), ListText(ancestry))
    ensures Fold(d) == Fold(c) && TextChar(c)
  {
    hide Like, ListTail, PlainIds;
    var text := ListText(ancestry);
    ListTailShape(ancestry);
    var j := LikeAt("%" + ([QUOTE] + before), d, after + ([QUOTE] + "%"), text);
    NeedsQuote(before, text[..j]);
    var k := LikeSplit(after, [QUOTE] + "%", text[j + 1..]);
    LikeFirst(QUOTE, "%", text[j + 1..][k..]);
    c := text[j];
    assert c == ListTail(ancestry)[j - 1];
  }

  lemma NeedsQuote(before: string, text: string)
    requires Like("%" + ([QUOTE] + before), text)
    ensures text != ""
  {
    LikePercent([QUOTE] + before, text);
  }

  /** Every comma of a goal that some plain ancestry matches fits. */
  lemma MatchedComma(goal: string, ancestry: seq<string>, i: nat)
    requires PlainIds(ancestry) && GoalMatches(goal, ancestry) && i < |goal| && goal[i] == ','
    requires forall k :: 0 <= k < |goal| ==> GoalChar(goal[k]) || goal[k] == ','
    ensures CommaFits(goal, i)
  {
    hide Like, ListTail, PlainIds, Printed, Wild;
    var text, front, back := ListText(ancestry), "%" + ([QUOTE] + goal[..i]), goal[i + 1..] + ([QUOTE] + "%");
    FittingAsIs(goal);
    assert "%" + Printed(goal) + "%" == front + ([','] + back);
    ListTailShape(ancestry);
    CommaIsNoWildcard();
    var j := LikeAt(front, ',', back, text);
    assert Separates(ListTail(ancestry), j - 1);
    BeforeComma(goal, i, text[..j]);
    AfterCommaMatches(goal, i, text[j + 1..]);
  }

  lemma CommaIsNoWildcard()
    ensures !Wild(',')
  {
  }

  lemma BeforeComma(goal: string, i: nat, text: string)
    requires i < |goal| && forall k :: 0 <= k < |goal| ==> GoalChar(goal[k]) || goal[k] == ','
    requires Like("%" + ([QUOTE] + goal[..i]), text) && text != "" && text[|text| - 1] == QUOTE
    ensures i == 0 || Wild(goal[i - 1])
  {
    hide Like;
    if i > 0 && !Wild(goal[i - 1]) {
      assert "%" + ([QUOTE] + goal[..i]) == ("%" + ([QUOTE] + goal[..i - 1])) + [goal[i - 1]];
      LikeLast("%" + ([QUOTE] + goal[..i - 1]), goal[i - 1], text);
      assert false;
    }
  }

  lemma AfterCommaMatches(goal: string, i: nat, text: string)
    requires i < |goal| && forall k :: 0 <= k < |goal| ==> GoalChar(goal[k]) || goal[k] == ','
    requires Like(goal[i + 1..] + ([QUOTE] + "%"), text) && text != "" && text[0] == QUOTE
    requires (|text| >= 2 ==> text[1] != ',')
    ensures i + 1 == |goal| || Wild(goal[i + 1])
    ensures !(i + 2 < |goal| && goal[i + 1] == '_' && goal[i + 2] == ',')
  {
    hide Like;
    if i + 1 < |goal| && goal[i + 1] != '%' {
      var back := goal[i + 2..] + ([QUOTE] + "%");
      assert goal[i + 1..] + ([QUOTE] + "%") == [goal[i + 1]] + back;
      LikeFirst(goal[i + 1], back, text);
      if i + 2 < |goal| && goal[i + 2] == ',' {
        assert back == [','] + (goal[i + 3..] + ([QUOTE] + "%"));
        LikeFirst(',', goal[i + 3..] + ([QUOTE] + "%"), text[1..]);
      }
    }
  }

  lemma MatchingGoalFits(goal: string, ancestry: seq<string>)
    requires PlainIds(ancestry) && GoalMatches(goal, ancestry)
    ensures Fits(goal)
  {
    hide GoalMatches, PlainIds, GoalChar, CommaFits;
    forall i | 0 <= i < |goal| ensures GoalChar(goal[i]) || goal[i] == ',' {
      MatchedCharacter(goal, ancestry, i);
    }
    forall i | 0 <= i < |goal| && goal[i] == ',' ensures CommaFits(goal, i) {
      MatchedComma(goal, ancestry, i);
    }
  }

  // ---- the exact condition ----

  predicate Agrees(goal: string, ancestry: seq<string>) {
    GoalMatches(goal, ancestry) <==> goal in ancestry
  }

  /**
   * Whatever the goal, the filter agrees with membership on every ancestry of plain ids if and only if the goal is
   * plain or cannot fit any of them.
   */
  lemma FilterAgreesExactly(goal: string)
    ensures (forall ancestry :: PlainIds(ancestry) ==> Agrees(goal, ancestry)) <==> PlainId(goal) || !Fits(goal)
  {
    hide PlainId, GoalMatches, Fits;
    if PlainId(goal) {
      forall ancestry | PlainIds(ancestry) ensures Agrees(goal, ancestry) {
        GoalFilterExact(goal, ancestry);
      }
    } else if Fits(goal) {
      FittingGoalMatches(goal);
      assert !Agrees(goal, IdsOf(goal, false));
    } else {
      forall ancestry | PlainIds(ancestry) ensures Agrees(goal, ancestry) {
        if GoalMatches(goal, ancestry) {
          MatchingGoalFits(goal, ancestry);
        }
      }
    }
  }

  // ---- goals that select too much ----

  lemma {:induction false} InstanceConcat(a: string, b: string)
    ensures Instance(a + b) == Instance(a) + Instance(b)
  {
    if a == "" {
      assert a + b == b;
    } else {
      assert (a + b)[0] == a[0] && (a + b)[1..] == a[1..] + b;
      InstanceConcat(a[1..], b);
    }
  }

  lemma {:induction false} PlainInstance(id: string)
    requires PlainId(id)
    ensures Instance(id) == id
  {
    if id != "" {
      PlainInstance(id[1..]);
      assert id == [id[0]] + id[1..];
    }
  }

  /** A goal without commas matches the row whose ancestry is its instance. */
  lemma GoalMatchesInstance(goal: string)
    requires GoalText(goal)
    ensures GoalMatches(goal, [Instance(goal)])
  {
    hide GoalMatches, Instance, CommaFits;
    assert Fits(goal);
    FittingGoalMatches(goal);
  }

  /** A goal with a wildcard selects the tasks below another id of the service's form. */
  lemma WildcardGoalMatchesMore()
    ensures GoalMatches("task-0_1b2c3d", ["task-0a1b2c3d"]) && "task-0_1b2c3d" !in ["task-0a1b2c3d"]
  {
    hide Instance, GoalMatches;
    var goal, id := "task-0_1b2c3d", "task-0a1b2c3d";
    assert goal == "task-0" + "_" + "1b2c3d" && id == "task-0" + "a" + "1b2c3d";
    InstanceConcat("task-0" + "_", "1b2c3d");
    InstanceConcat("task-0", "_");
    PlainInstance("task-0");
    PlainInstance("1b2c3d");
    OneWildcard();
    GoalMatchesInstance(goal);
    assert goal[6] == '_' && id[6] == 'a';
  }

  lemma OneWildcard()
    ensures Instance("_") == "a"
  {
    assert "_"[1..] == "";
  }

  /** So does a goal in upper case: LIKE does not tell ASCII cases apart. */
  lemma UpperCaseGoalMatchesMore()
    ensures GoalMatches("TASK-0a1b2c3d", ["task-0a1b2c3d"]) && "TASK-0a1b2c3d" !in ["task-0a1b2c3d"]
  {
    hide Instance, GoalMatches;
    var goal, id := "TASK-0a1b2c3d", "task-0a1b2c3d";
    assert goal == "TASK" + "-0a1b2c3d" && id == "task" + "-0a1b2c3d";
    InstanceConcat("TASK", "-0a1b2c3d");
    PlainInstance("-0a1b2c3d");
    FourLetters();
    GoalMatchesInstance(goal);
    assert goal[0] == 'T' && id[0] == 't';
  }

  lemma FourLetters()
    ensures Instance("TASK") == "task"
  {
    assert "TASK"[1..] == "ASK" && "ASK"[1..] == "SK" && "SK"[1..] == "K" && "K"[1..] == "";
    assert Instance("K") == "k";
    assert Instance("SK") == "sk";
    assert Instance("ASK") == "ask";
  }

  /** A goal of one comma selects every task with two ancestors or more: the pattern is the separator of the list. */
  lemma CommaGoalMatchesMore(ancestry: seq<string>)
    requires |ancestry| >= 2
    ensures GoalMatches(",", ancestry)
  {
    hide Like, Body;
    var rest := ListTail(ancestry[1..]);
    FittingAsIs(",");
    AnyTail(rest[1..]);
    OneCharacter(QUOTE, QUOTE, "%", rest[1..]);
    assert rest == [QUOTE] + rest[1..];
    OneCharacter(',', ',', [QUOTE] + "%", rest);
    OneCharacter(QUOTE, QUOTE, [','] + ([QUOTE] + "%"), [','] + rest);
    var before := "[" + ([QUOTE] + Body(ancestry[0]));
    Somewhere([QUOTE] + ([','] + ([QUOTE] + "%")), before, [QUOTE] + ([','] + rest));
    assert "%" + Quoted(",") + "%" == "%" + ([QUOTE] + ([','] + ([QUOTE] + "%")));
    assert ListText(ancestry) == before + ([QUOTE] + ([','] + rest));
  }
}
