/** The goal filter of the task store: an SQL LIKE over the JSON text of the ancestry, against membership in it. */
module GoalQuery {
  import opened Prelude
  import opened Strings
  import StringText
  import Utf16

  const QUOTE: char := '"'

  function Fold(c: char): char {
    if 'A' <= c <= 'Z' then (c as int + 32) as char else c
  }

  /** SQL LIKE: `%` is any text, `_` any character, letters without regard to ASCII case. */
  predicate Like(pattern: string, text: string)
    decreases |pattern| + |text|
  {
    if pattern == "" then text == ""
    else if pattern[0] == '%' then Like(pattern[1..], text) || (text != "" && Like(pattern, text[1..]))
    else text != "" && (pattern[0] == '_' || Fold(pattern[0]) == Fold(text[0])) && Like(pattern[1..], text[1..])
  }

  /** The ids the service makes: lower-case letters, digits and dashes. */
  predicate PlainId(id: string) {
    forall i :: 0 <= i < |id| ==> 'a' <= id[i] <= 'z' || IsDigit(id[i]) || id[i] == '-'
  }

  predicate PlainIds(ids: seq<string>) {
    forall i :: 0 <= i < |ids| ==> PlainId(ids[i])
  }

  // ---- the JSON text ----

  /** Code units that are characters by themselves. */
  predicate Characters(t: Utf16.Text) {
    forall i :: 0 <= i < |t| ==> !StringText.HighSurrogate(t[i]) && !StringText.LowSurrogate(t[i])
  }

  function Chars(t: Utf16.Text): string
    requires Characters(t)
  {
    seq(|t|, i requires 0 <= i < |t| => t[i] as char)
  }

  lemma EscapesAreCharacters(u: Utf16.CodeUnit)
    requires !StringText.HighSurrogate(u) && !StringText.LowSurrogate(u)
    ensures Characters(StringText.EscapeUnit(u))
  {
  }

  /** One character of a string as `JSON.stringify` prints it. */
  function Escaped(c: char): string {
    if c as int >= 0x1_0000 then [c]
    else
      EscapesAreCharacters(c as int);
      Chars(StringText.EscapeUnit(c as int))
  }

  function Body(s: string): string {
    if s == "" then "" else Escaped(s[0]) + Body(s[1..])
  }

  function Quoted(text: string): string {
    [QUOTE] + text + [QUOTE]
  }

  /** `JSON.stringify` of a string. */
  function Printed(s: string): string {
    Quoted(Body(s))
  }

  /** The characters that are printed with a backslash. */
  predicate Special(c: char) {
    c as int < 32 || c == QUOTE || c == '\\'
  }

  lemma EscapedCharacter(c: char)
    ensures !Special(c) ==> Escaped(c) == [c]
    ensures Special(c) ==> Escaped(c) != "" && Escaped(c)[0] == '\\'
  {
  }

  lemma {:induction false} BodyAsIs(s: string)
    requires forall i :: 0 <= i < |s| ==> !Special(s[i])
    ensures Body(s) == s
  {
    hide Escaped, Special;
    if s != "" {
      EscapedCharacter(s[0]);
      BodyAsIs(s[1..]);
      assert s == [s[0]] + s[1..];
    }
  }

  lemma PlainPrinted(id: string)
    requires PlainId(id)
    ensures Printed(id) == Quoted(id)
  {
    BodyAsIs(id);
  }

  /** The JSON text of a list of ids, after the opening bracket. */
  function ListTail(ids: seq<string>): string {
    if ids == [] then "]"
    else if |ids| == 1 then Printed(ids[0]) + "]"
    else Printed(ids[0]) + "," + ListTail(ids[1..])
  }

  function ListText(ids: seq<string>): string {
    "[" + ListTail(ids)
  }

  /** The store's test for one row. */
  predicate GoalMatches(goal: string, ancestry: seq<string>) {
    Like("%" + Printed(goal) + "%", ListText(ancestry))
  }

  // ---- LIKE with one literal between two `%` ----

  predicate PrefixAt(text: string, k: nat, lit: string) {
    k + |lit| <= |text| && text[k..k + |lit|] == lit
  }

  ghost predicate Occurs(lit: string, text: string) {
    exists k: nat :: PrefixAt(text, k, lit)
  }

  predicate Literal(s: string) {
    forall i :: 0 <= i < |s| ==> s[i] != '%' && s[i] != '_' && !('A' <= s[i] <= 'Z')
  }

  lemma {:induction false} AnyTail(text: string)
    ensures Like("%", text)
  {
    if text != "" {
      AnyTail(text[1..]);
    }
  }

  lemma {:induction false} LiteralPrefix(lit: string, text: string)
    requires Literal(lit) && Literal(text)
    ensures Like(lit + "%", text) <==> PrefixAt(text, 0, lit)
  {
    if lit == "" {
      assert lit + "%" == "%";
      AnyTail(text);
    } else {
      assert (lit + "%")[0] == lit[0] && (lit + "%")[1..] == lit[1..] + "%";
      if text != "" {
        LiteralPrefix(lit[1..], text[1..]);
        if PrefixAt(text, 0, lit) {
          assert text[1..][..|lit| - 1] == text[..|lit|][1..];
        }
        if PrefixAt(text[1..], 0, lit[1..]) && lit[0] == text[0] {
          assert text[..|lit|] == [text[0]] + text[1..][..|lit| - 1];
          assert lit == [lit[0]] + lit[1..];
        }
      }
    }
  }

  lemma {:induction false} LikeIsOccurrence(lit: string, text: string)
    requires Literal(lit) && Literal(text)
    ensures Like("%" + (lit + "%"), text) <==> Occurs(lit, text)
  {
    hide Like, Literal;
    LikePercent(lit + "%", text);
    LiteralPrefix(lit, text);
    if text == "" {
      if k: nat :| PrefixAt(text, k, lit) {
        assert PrefixAt(text, 0, lit);
      }
    } else {
      LiteralTail(text);
      LikeIsOccurrence(lit, text[1..]);
      OccursStep(lit, text);
    }
  }

  lemma LikePercent(rest: string, text: string)
    ensures Like("%" + rest, text) <==> Like(rest, text) || (text != "" && Like("%" + rest, text[1..]))
  {
    assert ("%" + rest)[1..] == rest;
  }

  lemma LiteralTail(text: string)
    requires Literal(text) && text != ""
    ensures Literal(text[1..])
  {
  }

  lemma OccursStep(lit: string, text: string)
    requires text != ""
    ensures Occurs(lit, text) <==> PrefixAt(text, 0, lit) || Occurs(lit, text[1..])
  {
    if k: nat :| PrefixAt(text, k, lit) {
      if k > 0 {
        assert text[1..][k - 1..k - 1 + |lit|] == text[k..k + |lit|];
        assert PrefixAt(text[1..], k - 1, lit);
      }
    }
    if k: nat :| PrefixAt(text[1..], k, lit) {
      assert text[k + 1..k + 1 + |lit|] == text[1..][k..k + |lit|];
      assert PrefixAt(text, k + 1, lit);
    }
  }

  // ---- the ids in the text ----

  lemma PlainHasNoQuote(id: string)
    requires PlainId(id)
    ensures QUOTE !in id && Literal(Quoted(id))
  {
  }

  lemma {:induction false} ListTailLiteral(ids: seq<string>)
    requires PlainIds(ids)
    ensures Literal(ListTail(ids)) && ListTail(ids) != ""
  {
    hide PlainId, Printed;
    if ids != [] {
      PlainPrinted(ids[0]);
      PlainHasNoQuote(ids[0]);
      ListTailLiteral(ids[1..]);
      LiteralConcat(Quoted(ids[0]), ",");
      LiteralConcat(Quoted(ids[0]) + ",", ListTail(ids[1..]));
      LiteralConcat(Quoted(ids[0]), "]");
    }
  }

  lemma LiteralConcat(a: string, b: string)
    requires Literal(a) && Literal(b)
    ensures Literal(a + b)
  {
  }

  /**
   * After a quoted id the search goes on behind the separator: no occurrence starts inside it or at its closing
   * quote.
   */
  lemma SkipQuoted(goal: string, id: string, sep: char, rest: string)
    requires PlainId(goal) && PlainId(id) && (sep == ',' || sep == ']')
    ensures Occurs(Quoted(goal), Quoted(id) + [sep] + rest) <==> goal == id || Occurs(Quoted(goal), rest)
  {
    hide PlainId, Quoted;
    var text, lit := Quoted(id) + [sep] + rest, Quoted(goal);
    if goal == id {
      assert PrefixAt(text, 0, lit);
    }
    if k: nat :| PrefixAt(rest, k, lit) {
      var n := |Quoted(id)| + 1;
      assert text[n + k..n + k + |lit|] == rest[k..k + |lit|];
      assert PrefixAt(text, n + k, lit);
    }
    if k: nat :| PrefixAt(text, k, lit) {
      QuotedStart(goal, id, sep, rest, k);
      var n := |Quoted(id)| + 1;
      if k >= n {
        assert text[k..k + |lit|] == rest[k - n..k - n + |lit|];
        assert PrefixAt(rest, k - n, lit);
      }
    }
  }

  lemma QuotedStart(goal: string, id: string, sep: char, rest: string, k: nat)
    requires PlainId(goal) && PlainId(id) && (sep == ',' || sep == ']')
    requires PrefixAt(Quoted(id) + [sep] + rest, k, Quoted(goal))
    ensures k >= |Quoted(id)| + 1 || (k == 0 && goal == id)
  {
    var text, lit := Quoted(id) + [sep] + rest, Quoted(goal);
    PlainHasNoQuote(goal);
    PlainHasNoQuote(id);
    assert text[k..k + |lit|][0] == text[k] && text[k..k + |lit|][1] == text[k + 1];
    assert lit[0] == QUOTE;
    assert forall j :: 0 < j <= |id| ==> text[j] == id[j - 1];
    assert text[|id| + 2] == sep;
    if k == 0 {
      assert text == [QUOTE] + (id + [QUOTE] + ([sep] + rest));
      assert text == lit + text[|lit|..];
      assert text[1..] == goal + [QUOTE] + text[|lit|..];
      assert text[1..] == id + [QUOTE] + ([sep] + rest);
      SplitAtSeparator(goal, text[|lit|..], id, [sep] + rest, QUOTE);
    }
  }

  lemma {:induction false} OccursInList(goal: string, ids: seq<string>)
    requires PlainId(goal) && PlainIds(ids)
    ensures Occurs(Quoted(goal), ListTail(ids)) <==> goal in ids
  {
    hide PlainId, Quoted, Printed, Occurs;
    if ids == [] {
      NotInBracket(goal);
    } else if |ids| == 1 {
      PlainPrinted(ids[0]);
      assert Quoted(ids[0]) + "]" == Quoted(ids[0]) + [']'] + "";
      SkipQuoted(goal, ids[0], ']', "");
      NotInNothing(goal);
    } else {
      PlainPrinted(ids[0]);
      assert ListTail(ids) == Quoted(ids[0]) + [','] + ListTail(ids[1..]);
      SkipQuoted(goal, ids[0], ',', ListTail(ids[1..]));
      OccursInList(goal, ids[1..]);
      assert ids == [ids[0]] + ids[1..];
    }
  }

  lemma NotInBracket(goal: string)
    ensures !Occurs(Quoted(goal), "]")
  {
  }

  lemma NotInNothing(goal: string)
    ensures !Occurs(Quoted(goal), "")
  {
  }

  /** For the ids the service makes, the LIKE filter selects exactly the tasks with the goal in their ancestry. */
  lemma GoalFilterExact(goal: string, ancestry: seq<string>)
    requires PlainId(goal) && PlainIds(ancestry)
    ensures GoalMatches(goal, ancestry) <==> goal in ancestry
  {
    hide PlainId, Occurs, Like, ListTail, Quoted, Printed;
    var text := ListText(ancestry);
    PlainPrinted(goal);
    ListTailLiteral(ancestry);
    PlainHasNoQuote(goal);
    LiteralConcat("[", ListTail(ancestry));
    assert "%" + Quoted(goal) + "%" == "%" + (Quoted(goal) + "%");
    LikeIsOccurrence(Quoted(goal), text);
    OccursStep(Quoted(goal), text);
    assert text[1..] == ListTail(ancestry);
    NotAtBracket(goal, text);
    OccursInList(goal, ancestry);
  }

  lemma NotAtBracket(goal: string, text: string)
    requires text != "" && text[0] == '['
    ensures !PrefixAt(text, 0, Quoted(goal))
  {
  }
}
