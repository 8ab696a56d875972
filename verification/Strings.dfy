/** The host string operations the sources lean on: trimming, splitting, searching, integer prefixes. */
module Strings {
  import opened Prelude

  /** The host's white space: `\s` and what `trim` removes. */
  predicate Space(c: char) {
    || '\t' <= c <= '\r' || c == ' ' || c == '\U{A0}' || c == '\U{1680}' || '\U{2000}' <= c <= '\U{200A}'
    || c == '\U{2028}' || c == '\U{2029}' || c == '\U{202F}' || c == '\U{205F}' || c == '\U{3000}' || c == '\U{FEFF}'
  }

  function TrimStart(s: string): (r: string)
    ensures r != [] ==> !Space(r[0])
    ensures |r| <= |s| && r == s[|s| - |r|..]
    ensures forall i :: 0 <= i < |s| - |r| ==> Space(s[i])
  {
    if s != [] && Space(s[0]) then TrimStart(s[1..]) else s
  }

  /** `s.replace(/\s*$/, '')` */
  function TrimEnd(s: string): (r: string)
    ensures r != [] ==> !Space(r[|r| - 1])
    ensures |r| <= |s| && r == s[..|r|]
    ensures forall i :: |r| <= i < |s| ==> Space(s[i])
  {
    if s != [] && Space(s[|s| - 1]) then TrimEnd(s[..|s| - 1]) else s
  }

  function Trim(s: string): string {
    TrimEnd(TrimStart(s))
  }

  predicate StartsWith(s: string, p: string) {
    |p| <= |s| && s[..|p|] == p
  }

  /** What `.` matches in a pattern: anything but a line terminator. */
  predicate Dot(c: char) {
    c != '\n' && c != '\r' && c != '\U{2028}' && c != '\U{2029}'
  }

  predicate AllDot(s: string) {
    forall i :: 0 <= i < |s| ==> Dot(s[i])
  }

  /** Position of the first occurrence of a character. */
  function IndexOf(s: string, c: char): (r: Option<nat>)
    ensures r.Some? ==> r.value < |s| && s[r.value] == c && c !in s[..r.value]
    ensures r.None? ==> c !in s
  {
    if s == [] then None
    else if s[0] == c then Some(0)
    else
      match IndexOf(s[1..], c)
      case None => None
      case Some(i) => assert s[..i + 1] == [s[0]] + s[1..][..i]; Some(i + 1)
  }

  /** `s.split(sep)`: always at least one piece. */
  function Split(s: string, sep: char): (r: seq<string>)
    ensures |r| > 0
    ensures forall i :: 0 <= i < |r| ==> sep !in r[i]
    ensures Join(r, sep) == s
    decreases |s|
  {
    match IndexOf(s, sep)
    case None => [s]
    case Some(i) =>
      assert s == s[..i] + [sep] + s[i + 1..];
      [s[..i]] + Split(s[i + 1..], sep)
  }

  function Join(pieces: seq<string>, sep: char): string {
    if pieces == [] then ""
    else if |pieces| == 1 then pieces[0]
    else pieces[0] + [sep] + Join(pieces[1..], sep)
  }

  /** Splitting undoes joining when no piece holds the separator. */
  lemma {:induction false} SplitJoin(pieces: seq<string>, sep: char)
    requires |pieces| > 0 && forall i :: 0 <= i < |pieces| ==> sep !in pieces[i]
    ensures Split(Join(pieces, sep), sep) == pieces
  {
    var s := Join(pieces, sep);
    if |pieces| > 1 {
      var n := |pieces[0]|;
      assert s[..n] == pieces[0] && s[n] == sep && s[n + 1..] == Join(pieces[1..], sep);
      FirstIndex(s, sep, n);
      SplitJoin(pieces[1..], sep);
    } else {
      assert s == pieces[0];
    }
  }

  lemma PrefixMembers<T>(s: seq<T>, n: nat)
    requires n <= |s|
    ensures forall k :: 0 <= k < n ==> s[k] in s[..n]
  {
    assert forall k :: 0 <= k < n ==> s[k] == s[..n][k];
  }

  lemma FirstIndex(s: string, c: char, n: nat)
    requires n < |s| && s[n] == c && c !in s[..n]
    ensures IndexOf(s, c) == Some(n)
  {
    var i := IndexOf(s, c).value;
    assert forall k :: 0 <= k < n ==> s[k] in s[..n] by { PrefixMembers(s, n); }
    assert forall k :: 0 <= k < i ==> s[k] in s[..i] by { PrefixMembers(s, i); }
  }

  function SkipSpaces(s: string): (r: string)
    ensures |r| <= |s|
  {
    if s != [] && Space(s[0]) then SkipSpaces(s[1..]) else s
  }

  function TakeWord(s: string): (n: nat)
    ensures n <= |s| && (s != [] && !Space(s[0]) ==> n > 0)
  {
    if s != [] && !Space(s[0]) then 1 + TakeWord(s[1..]) else 0
  }

  /** `s.split(/\s+/)` on a trimmed string. */
  function Words(s: string): seq<string>
    decreases |s|
  {
    var n := TakeWord(s);
    if n == |s| || n == 0 then [s] else [s[..n]] + Words(SkipSpaces(s[n..]))
  }

  predicate IsDigit(c: char) {
    '0' <= c <= '9'
  }

  function DigitOf(c: char): nat
    requires IsDigit(c)
  {
    c as int - 48
  }

  function DigitsPrefix(s: string): (n: nat)
    ensures n <= |s| && forall i :: 0 <= i < n ==> IsDigit(s[i])
  {
    if s != [] && IsDigit(s[0]) then 1 + DigitsPrefix(s[1..]) else 0
  }

  function DigitsValue(s: string): nat
    requires forall i :: 0 <= i < |s| ==> IsDigit(s[i])
  {
    if s == [] then 0 else 10 * DigitsValue(s[..|s| - 1]) + DigitOf(s[|s| - 1])
  }

  /** A natural number as the host prints it. */
  function Decimal(n: nat): (r: string)
    ensures r != "" && forall i :: 0 <= i < |r| ==> IsDigit(r[i])
  {
    if n < 10 then [(48 + n) as char] else Decimal(n / 10) + [(48 + n % 10) as char]
  }

  lemma {:induction false} DecimalValue(n: nat)
    ensures DigitsValue(Decimal(n)) == n
  {
    var r := Decimal(n);
    if n >= 10 {
      DecimalValue(n / 10);
      assert r[..|r| - 1] == Decimal(n / 10);
    } else {
      assert r[..0] == "";
    }
  }

  function UnsignedInt(s: string): Option<nat> {
    var n := DigitsPrefix(s);
    if n == 0 then None else Some(DigitsValue(s[..n]))
  }

  /** `Number.parseInt(s, 10)`: an optional sign and the longest run of digits; None is NaN. */
  function ParseInt(s: string): Option<int> {
    var t := TrimStart(s);
    if t != [] && t[0] == '-' then
      match UnsignedInt(t[1..]) {
        case None => None
        case Some(n) => Some(-(n as int))
      }
    else if t != [] && t[0] == '+' then UnsignedInt(t[1..])
    else UnsignedInt(t)
  }
}
