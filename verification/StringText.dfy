/** The quoting of `JSON.stringify` on strings (ECMA-262, QuoteJSONString), over UTF-16 code units. */
module StringText {
  import opened Prelude
  import opened Utf16

  predicate HighSurrogate(u: CodeUnit) {
    0xD800 <= u < 0xDC00
  }

  predicate LowSurrogate(u: CodeUnit) {
    0xDC00 <= u < 0xE000
  }

  function HexDigit(n: int): CodeUnit
    requires 0 <= n < 16
  {
    if n < 10 then ZERO + n else 97 + (n - 10)
  }

  function UnicodeEscape(u: CodeUnit): Text {
    [BACKSLASH, LETTER_U, HexDigit(u / 4096), HexDigit(u / 256 % 16), HexDigit(u / 16 % 16), HexDigit(u % 16)]
  }

  /** The letter of a two-unit escape, for the units that have one. */
  function ShortEscape(u: CodeUnit): Option<CodeUnit> {
    if u == 8 then Some(98)
    else if u == 9 then Some(116)
    else if u == 10 then Some(110)
    else if u == 12 then Some(102)
    else if u == 13 then Some(114)
    else if u == QUOTE then Some(QUOTE)
    else if u == BACKSLASH then Some(BACKSLASH)
    else None
  }

  /** The printed form of a unit that is not the first half of a surrogate pair. */
  function EscapeUnit(u: CodeUnit): Text {
    match ShortEscape(u)
    case Some(c) => [BACKSLASH, c]
    case None =>
      if u < 32 || HighSurrogate(u) || LowSurrogate(u) then UnicodeEscape(u) else [u]
  }

  function QuoteBody(s: Text): Text
    decreases |s|
  {
    if s == [] then []
    else if |s| >= 2 && HighSurrogate(s[0]) && LowSurrogate(s[1]) then s[..2] + QuoteBody(s[2..])
    else EscapeUnit(s[0]) + QuoteBody(s[1..])
  }

  function Quote(s: Text): Text {
    [QUOTE] + QuoteBody(s) + [QUOTE]
  }

  // ---- reading a quoted string back ----

  function HexValue(c: CodeUnit): Option<int> {
    if ZERO <= c <= ZERO + 9 then Some(c - ZERO)
    else if 97 <= c <= 102 then Some(c - 97 + 10)
    else None
  }

  function LongEscape(letter: CodeUnit): Option<CodeUnit> {
    if letter == 98 then Some(8)
    else if letter == 116 then Some(9)
    else if letter == 110 then Some(10)
    else if letter == 102 then Some(12)
    else if letter == 114 then Some(13)
    else if letter == QUOTE then Some(QUOTE)
    else if letter == BACKSLASH then Some(BACKSLASH)
    else None
  }

  function Prepend(u: CodeUnit, r: Option<(Text, Text)>): Option<(Text, Text)> {
    match r
    case None => None
    case Some((s, rest)) => Some(([u] + s, rest))
  }

  /** Reads a string body up to its closing quote; yields the string and what follows the quote. */
  function ReadBody(t: Text): Option<(Text, Text)>
    decreases |t|
  {
    if t == [] then None
    else if t[0] == QUOTE then Some(([], t[1..]))
    else if t[0] != BACKSLASH then Prepend(t[0], ReadBody(t[1..]))
    else if |t| >= 6 && t[1] == LETTER_U then
      match (HexValue(t[2]), HexValue(t[3]), HexValue(t[4]), HexValue(t[5]))
      case (Some(a), Some(b), Some(c), Some(d)) => Prepend(4096 * a + 256 * b + 16 * c + d, ReadBody(t[6..]))
      case _ => None
    else if |t| >= 2 then
      match LongEscape(t[1])
      case Some(u) => Prepend(u, ReadBody(t[2..]))
      case None => None
    else None
  }

  lemma HexRoundTrip(n: int)
    requires 0 <= n < 16
    ensures HexValue(HexDigit(n)) == Some(n)
  {
  }

  lemma NibblesRebuild(u: CodeUnit)
    ensures u == 4096 * (u / 4096) + 256 * (u / 256 % 16) + 16 * (u / 16 % 16) + u % 16
  {
    assert u / 256 == 16 * (u / 4096) + u / 256 % 16;
    assert u / 16 == 16 * (u / 256) + u / 16 % 16;
  }

  lemma ReadUnicodeEscape(u: CodeUnit, tail: Text)
    ensures ReadBody(UnicodeEscape(u) + tail) == Prepend(u, ReadBody(tail))
  {
    hide HexDigit, ReadBody;
    NibblesRebuild(u);
    ReadFourDigits(u / 4096, u / 256 % 16, u / 16 % 16, u % 16, tail);
  }

  lemma ReadFourDigits(a: int, b: int, c: int, d: int, tail: Text)
    requires 0 <= a < 16 && 0 <= b < 16 && 0 <= c < 16 && 0 <= d < 16
    ensures ReadBody([BACKSLASH, LETTER_U, HexDigit(a), HexDigit(b), HexDigit(c), HexDigit(d)] + tail)
         == Prepend(4096 * a + 256 * b + 16 * c + d, ReadBody(tail))
  {
    hide HexDigit, HexValue;
    var t := [BACKSLASH, LETTER_U, HexDigit(a), HexDigit(b), HexDigit(c), HexDigit(d)] + tail;
    assert t[6..] == tail;
    HexRoundTrip(a);
    HexRoundTrip(b);
    HexRoundTrip(c);
    HexRoundTrip(d);
  }

  lemma ReadEscapedUnit(u: CodeUnit, tail: Text)
    ensures ReadBody(EscapeUnit(u) + tail) == Prepend(u, ReadBody(tail))
  {
    hide ReadBody, UnicodeEscape, ShortEscape;
    if ShortEscape(u).Some? {
      ReadShortEscape(u, tail);
    } else if u < 32 || HighSurrogate(u) || LowSurrogate(u) {
      ReadUnicodeEscape(u, tail);
    } else {
      ReadPlainUnit(u, tail);
    }
  }

  lemma ReadShortEscape(u: CodeUnit, tail: Text)
    requires ShortEscape(u).Some?
    ensures ReadBody([BACKSLASH, ShortEscape(u).value] + tail) == Prepend(u, ReadBody(tail))
  {
    assert ([BACKSLASH, ShortEscape(u).value] + tail)[2..] == tail;
  }

  lemma ReadPlainUnit(u: CodeUnit, tail: Text)
    requires ShortEscape(u).None?
    ensures ReadBody([u] + tail) == Prepend(u, ReadBody(tail))
  {
    assert ([u] + tail)[1..] == tail;
  }

  lemma ReadClosing(tail: Text)
    ensures ReadBody([QUOTE] + tail) == Some(([], tail))
  {
    assert ([QUOTE] + tail)[1..] == tail;
  }

  lemma ReadPair(high: CodeUnit, low: CodeUnit, tail: Text)
    requires HighSurrogate(high) && LowSurrogate(low)
    ensures ReadBody([high, low] + tail) == Prepend(high, Prepend(low, ReadBody(tail)))
  {
    var t := [high, low] + tail;
    assert t[1..] == [low] + tail && t[1..][1..] == tail;
  }

  /** Quoting loses nothing: a quoted string followed by any text reads back exactly. */
  lemma {:induction false} QuoteRoundTrip(s: Text, tail: Text)
    ensures ReadBody(QuoteBody(s) + [QUOTE] + tail) == Some((s, tail))
    decreases |s|
  {
    hide ReadBody, EscapeUnit, HighSurrogate, LowSurrogate;
    var t := QuoteBody(s) + [QUOTE] + tail;
    if s == [] {
      assert t == [QUOTE] + tail;
      ReadClosing(tail);
    } else if |s| >= 2 && HighSurrogate(s[0]) && LowSurrogate(s[1]) {
      var rest := QuoteBody(s[2..]) + [QUOTE] + tail;
      assert t == [s[0], s[1]] + rest;
      ReadPair(s[0], s[1], rest);
      QuoteRoundTrip(s[2..], tail);
      assert s == [s[0]] + ([s[1]] + s[2..]);
    } else {
      var rest := QuoteBody(s[1..]) + [QUOTE] + tail;
      assert t == EscapeUnit(s[0]) + rest;
      ReadEscapedUnit(s[0], rest);
      QuoteRoundTrip(s[1..], tail);
      assert s == [s[0]] + s[1..];
    }
  }

  /** Quoted strings are uniquely readable, whatever text follows them. */
  lemma QuoteReadable(a: Text, x: Text, b: Text, y: Text)
    requires Quote(a) + x == Quote(b) + y
    ensures a == b && x == y
  {
    var s, t := QuoteBody(a) + [QUOTE] + x, QuoteBody(b) + [QUOTE] + y;
    assert s == (Quote(a) + x)[1..];
    assert t == (Quote(b) + y)[1..];
    QuoteRoundTrip(a, x);
    QuoteRoundTrip(b, y);
  }
}
