/** What a canonical text says by the grammar of JSON (RFC 8259): the value it was printed from, keys in order. */
module JsonReading {
  import opened Prelude
  import opened Utf16
  import opened StringText
  import opened CanonicalJson
  import NV = NumeralValues

  /** The code units of a text of ASCII characters. */
  function Ascii(s: string): (t: Text)
    requires forall i :: 0 <= i < |s| ==> s[i] as int < 128
  {
    seq(|s|, i requires 0 <= i < |s| => s[i] as int)
  }

  function Separated(ts: seq<Text>): Text {
    if ts == [] then [] else if |ts| == 1 then ts[0] else ts[0] + Ascii(",") + Separated(ts[1..])
  }

  predicate ReadsString(t: Text, s: Text) {
    t != [] && t[..1] == Ascii("\"") && ReadBody(t[1..]) == Some((s, []))
  }

  const HEX: string := "0123456789abcdef"

  /** How one unit stands in a string: short escapes, lower-case hexadecimal ones, and all others as they are. */
  function Written(u: CodeUnit): Text {
    if u == 8 then Ascii("\\b")
    else if u == 9 then Ascii("\\t")
    else if u == 10 then Ascii("\\n")
    else if u == 12 then Ascii("\\f")
    else if u == 13 then Ascii("\\r")
    else if u == 34 then Ascii("\\\"")
    else if u == 92 then Ascii("\\\\")
    else if u < 32 || 0xD800 <= u < 0xE000 then
      Ascii("\\u" + [HEX[u / 4096], HEX[u / 256 % 16], HEX[u / 16 % 16], HEX[u % 16]])
    else [u]
  }

  /** Half of a surrogate pair: a high unit right before a low one, or a low one right after a high one. */
  predicate Paired(s: Text, i: nat)
    requires i < |s|
  {
    || (HighSurrogate(s[i]) && i + 1 < |s| && LowSurrogate(s[i + 1]))
    || (LowSurrogate(s[i]) && i > 0 && HighSurrogate(s[i - 1]))
  }

  /** From unit `i` on, the units as they are written; the halves of a pair stand as they are. */
  function AllWritten(s: Text, i: nat): Text
    requires i <= |s|
    decreases |s| - i
  {
    if i == |s| then [] else (if Paired(s, i) then [s[i]] else Written(s[i])) + AllWritten(s, i + 1)
  }

  lemma HexIsWritten(n: int)
    requires 0 <= n < 16
    ensures HEX[n] as int < 128 && HexDigit(n) == HEX[n] as int
  {
  }

  lemma UnitIsWritten(u: CodeUnit)
    ensures EscapeUnit(u) == Written(u)
  {
    if ShortEscape(u).None? && (u < 32 || HighSurrogate(u) || LowSurrogate(u)) {
      hide HexDigit;
      HexIsWritten(u / 4096);
      HexIsWritten(u / 256 % 16);
      HexIsWritten(u / 16 % 16);
      HexIsWritten(u % 16);
    }
  }

  /** Every string stands as its units are written, between quotes. */
  lemma StringIsWritten(s: Text)
    ensures Quote(s) == Ascii("\"") + AllWritten(s, 0) + Ascii("\"")
  {
    BodyIsWritten(s, 0);
    assert s[0..] == s;
  }

  lemma {:induction false} BodyIsWritten(s: Text, i: nat)
    requires i <= |s| && (0 < i < |s| ==> !(HighSurrogate(s[i - 1]) && LowSurrogate(s[i])))
    ensures QuoteBody(s[i..]) == AllWritten(s, i)
    decreases |s| - i
  {
    hide Written, EscapeUnit;
    if i < |s| {
      UnitIsWritten(s[i]);
      if i + 1 < |s| && HighSurrogate(s[i]) && LowSurrogate(s[i + 1]) {
        BodyIsWritten(s, i + 2);
        assert s[i..][..2] == [s[i]] + [s[i + 1]] && s[i..][2..] == s[i + 2..];
        assert AllWritten(s, i + 1) == [s[i + 1]] + AllWritten(s, i + 2);
      } else {
        BodyIsWritten(s, i + 1);
        assert s[i..][1..] == s[i + 1..];
      }
    }
  }

  /** The text is a JSON text without white space that says the value, properties in this order. */
  ghost predicate Reads(t: Text, v: Json)
    decreases v
  {
    match v
    case Null => t == Ascii("null")
    case Boolean(b) => t == if b then Ascii("true") else Ascii("false")
    case Number(n) => n.Finite() && NV.ReadNumeral(t) == Some(NV.ValueOf(n))
    case String(s) => ReadsString(t, s)
    case Array(items) =>
      exists ts: seq<Text> ::
        && |ts| == |items| && t == Ascii("[") + Separated(ts) + Ascii("]")
        && forall i :: 0 <= i < |items| ==> Reads(ts[i], items[i])
    case Object(fields) =>
      exists ks: seq<Text>, ts: seq<Text> ::
        && |ks| == |ts| == |fields| && t == Ascii("{") + Separated(Members(ks, ts)) + Ascii("}")
        && forall i :: 0 <= i < |fields| ==> ReadsString(ks[i], fields[i].key) && Reads(ts[i], fields[i].value)
    case NotJson => false
  }

  function Members(ks: seq<Text>, ts: seq<Text>): seq<Text>
    requires |ks| == |ts|
  {
    seq(|ks|, i requires 0 <= i < |ks| => ks[i] + Ascii(":") + ts[i])
  }

  /** The value with the properties of every object in code-unit order of their names. */
  ghost function Canonical(v: Json): Json
    decreases v
  {
    match v
    case Array(items) => Array(seq(|items|, i requires 0 <= i < |items| => Canonical(items[i])))
    case Object(fields) => Object(CanonicalFields(fields))
    case _ => v
  }

  ghost function CanonicalFields(fields: seq<Field>): (r: seq<Field>)
    ensures |r| == |fields|
    decreases fields
  {
    var sorted := SortFields(fields);
    seq(|sorted|, i requires 0 <= i < |sorted| =>
          assert sorted[i] in fields; Field(sorted[i].key, Canonical(sorted[i].value)))
  }

  /** Names strictly ascending, at every depth. */
  ghost predicate Ordered(v: Json)
    decreases v
  {
    match v
    case Array(items) => forall i :: 0 <= i < |items| ==> Ordered(items[i])
    case Object(fields) =>
      && (forall i, j :: 0 <= i < j < |fields| ==> Before(fields[i].key, fields[j].key))
      && forall i :: 0 <= i < |fields| ==> Ordered(fields[i].value)
    case _ => true
  }

  // ---- the pieces ----

  lemma {:induction false} JoinIsSeparated(ts: seq<Text>)
    ensures Join(ts) == Separated(ts)
  {
    assert Ascii(",") == [COMMA];
    if |ts| > 1 {
      JoinIsSeparated(ts[1..]);
    }
  }

  lemma QuotedReads(s: Text)
    ensures ReadsString(Quote(s), s)
  {
    hide ReadBody, QuoteBody;
    QuoteRoundTrip(s, []);
    var t := Quote(s);
    assert t[1..] == QuoteBody(s) + [QUOTE] == QuoteBody(s) + [QUOTE] + [];
    assert Ascii("\"") == [QUOTE] == t[..1];
  }

  lemma LiteralsRead()
    ensures NULL_TEXT == Ascii("null") && TRUE_TEXT == Ascii("true") && FALSE_TEXT == Ascii("false")
    ensures [LEFT_BRACKET] == Ascii("[") && [RIGHT_BRACKET] == Ascii("]")
    ensures [LEFT_BRACE] == Ascii("{") && [RIGHT_BRACE] == Ascii("}") && [COLON] == Ascii(":")
  {
  }

  // ---- printing is read back ----

  /** The canonical text of a value is a JSON text of it, with ordered names. */
  lemma {:induction false} TextReads(v: Json)
    requires WellFormed(v) && Serialize(v).Ok?
    ensures Reads(Serialize(v).value, Canonical(v))
    decreases v, 1
  {
    LiteralsRead();
    match v
    case Number(n) => NV.NumeralDenotesValue(n);
    case String(s) => QuotedReads(s);
    case Array(items) =>
      var ts := ArrayTexts(items);
      forall i | 0 <= i < |items| ensures Reads(ts[i], Canonical(items[i])) {
        TextReads(items[i]);
      }
      JoinIsSeparated(ts);
      ArrayReads(ts, Serialize(v).value, items);
    case Object(fields) => ObjectReads(fields);
    case _ =>
  }

  lemma ArrayReads(ts: seq<Text>, t: Text, items: seq<Json>)
    requires |ts| == |items| && t == Ascii("[") + Separated(ts) + Ascii("]")
    requires forall i :: 0 <= i < |items| ==> Reads(ts[i], Canonical(items[i]))
    ensures Reads(t, Canonical(Array(items)))
  {
    hide Separated, Ascii;
  }

  lemma {:induction false} ObjectReads(fields: seq<Field>)
    requires WellFormed(Object(fields)) && Serialize(Object(fields)).Ok?
    ensures Reads(Serialize(Object(fields)).value, Canonical(Object(fields)))
    decreases Object(fields), 0
  {
    hide Reads, Serialize, SortFields, ReadsString, Quote, Canonical, Ascii;
    var sorted := SortFields(fields);
    var entries := ObjectTexts(fields);
    var ks := seq(|sorted|, i requires 0 <= i < |sorted| => Quote(sorted[i].key));
    var ts := seq(|sorted|, i requires 0 <= i < |sorted| => EntryText(sorted[i], entries[i]));
    forall i | 0 <= i < |sorted|
      ensures ReadsString(ks[i], sorted[i].key) && Reads(ts[i], Canonical(sorted[i].value))
      ensures entries[i] == ks[i] + Ascii(":") + ts[i]
    {
      QuotedReads(sorted[i].key);
      assert sorted[i] in fields;
      EntryReads(sorted[i], entries[i]);
      TextReads(sorted[i].value);
    }
    assert entries == Members(ks, ts);
    JoinIsSeparated(entries);
    LiteralsRead();
    MembersRead(fields, ks, ts);
  }

  ghost function EntryText(f: Field, entry: Text): Text {
    if WellFormed(f.value) && Serialize(f.value).Ok? then Serialize(f.value).value else entry
  }

  lemma EntryReads(f: Field, entry: Text)
    requires WellFormed(f.value) && Entry(f, Serialize(f.value)) == Ok(entry)
    ensures Serialize(f.value).Ok? && entry == Quote(f.key) + Ascii(":") + EntryText(f, entry)
  {
    LiteralsRead();
  }

  lemma MembersRead(fields: seq<Field>, ks: seq<Text>, ts: seq<Text>)
    requires var sorted := SortFields(fields);
             && |ks| == |ts| == |sorted|
             && forall i :: 0 <= i < |sorted| ==>
                  ReadsString(ks[i], sorted[i].key) && Reads(ts[i], Canonical(sorted[i].value))
    ensures Reads(Ascii("{") + Separated(Members(ks, ts)) + Ascii("}"), Canonical(Object(fields)))
  {
    hide Separated, Ascii, SortFields, ReadsString, Members;
    var gs := CanonicalFields(fields);
    assert Canonical(Object(fields)) == Object(gs);
    forall i | 0 <= i < |gs| ensures ReadsString(ks[i], gs[i].key) && Reads(ts[i], gs[i].value) {
    }
  }

  /** It is the same value, */
  lemma {:induction false} CanonicalIsSame(v: Json)
    requires WellFormed(v)
    ensures SameValue(v, Canonical(v))
    decreases v, 1
  {
    match v
    case Array(items) =>
      forall i | 0 <= i < |items| ensures SameValue(items[i], Canonical(items[i])) {
        CanonicalIsSame(items[i]);
      }
    case Object(fields) => SameFields(fields);
    case _ =>
  }

  lemma {:induction false} SameFields(fields: seq<Field>)
    requires WellFormed(Object(fields))
    ensures SameValue(Object(fields), Canonical(Object(fields)))
    decreases Object(fields), 0
  {
    hide SameValue, SortFields, Canonical;
    var sorted, gs := SortFields(fields), CanonicalFields(fields);
    forall k ensures HasKey(fields, k) <==> HasKey(gs, k) {
      SortedKeys(fields, k);
      SameNames(sorted, gs, k);
    }
    forall i, j | 0 <= i < |fields| && 0 <= j < |gs| && fields[i].key == gs[j].key
      ensures SameValue(fields[i].value, gs[j].value)
    {
      assert sorted[j] in fields;
      var k :| 0 <= k < |fields| && fields[k] == sorted[j];
      assert k == i;
      CanonicalIsSame(fields[i].value);
    }
    SameObject(fields, gs);
    CanonicalObject(fields);
  }

  lemma SameNames(fs: seq<Field>, gs: seq<Field>, k: Text)
    requires |fs| == |gs| && forall i :: 0 <= i < |fs| ==> fs[i].key == gs[i].key
    ensures HasKey(fs, k) <==> HasKey(gs, k)
  {
  }

  lemma SameObject(fields: seq<Field>, gs: seq<Field>)
    requires forall k :: HasKey(fields, k) <==> HasKey(gs, k)
    requires forall i, j :: 0 <= i < |fields| && 0 <= j < |gs| && fields[i].key == gs[j].key ==>
               SameValue(fields[i].value, gs[j].value)
    ensures SameValue(Object(fields), Object(gs))
  {
    hide HasKey;
  }

  lemma CanonicalObject(fields: seq<Field>)
    ensures Canonical(Object(fields)) == Object(CanonicalFields(fields))
  {
    hide CanonicalFields;
  }

  /** with its names in ascending order at every depth. */
  lemma {:induction false} CanonicalIsOrdered(v: Json)
    requires WellFormed(v)
    ensures Ordered(Canonical(v))
    decreases v, 1
  {
    match v
    case Array(items) =>
      forall i | 0 <= i < |items| ensures Ordered(Canonical(items[i])) {
        CanonicalIsOrdered(items[i]);
      }
    case Object(fields) => OrderedFields(fields);
    case _ =>
  }

  lemma {:induction false} OrderedFields(fields: seq<Field>)
    requires WellFormed(Object(fields))
    ensures Ordered(Canonical(Object(fields)))
    decreases Object(fields), 0
  {
    hide SortFields, Canonical, Before;
    var sorted, gs := SortFields(fields), CanonicalFields(fields);
    SortKeepsDistinct(fields);
    forall i | 0 <= i < |gs| ensures Ordered(gs[i].value) {
      assert sorted[i] in fields;
      CanonicalIsOrdered(sorted[i].value);
    }
    forall i, j | 0 <= i < j < |gs| ensures Before(gs[i].key, gs[j].key) {
      BeforeTrichotomy(sorted[i].key, sorted[j].key);
    }
    OrderedObject(fields, gs);
  }

  lemma OrderedObject(fields: seq<Field>, gs: seq<Field>)
    requires gs == CanonicalFields(fields)
    requires forall i, j :: 0 <= i < j < |gs| ==> Before(gs[i].key, gs[j].key)
    requires forall i :: 0 <= i < |gs| ==> Ordered(gs[i].value)
    ensures Ordered(Canonical(Object(fields)))
  {
    hide CanonicalFields, Before;
  }

  /** Code-unit order: at the first difference the smaller unit, or the end of the text, comes first. */
  ghost predicate FirstDifference(a: Text, b: Text, k: nat) {
    k <= |a| && k < |b| && a[..k] == b[..k] && (k < |a| ==> a[k] < b[k])
  }

  lemma NoLaterDifference(a: Text, b: Text, k: nat)
    requires a == [] || b == [] || a[0] != b[0]
    ensures k > 0 ==> !FirstDifference(a, b, k)
  {
    if 0 < k <= |a| && k <= |b| {
      assert a[..k][0] == a[0] && b[..k][0] == b[0];
    }
  }

  lemma {:induction false} BeforeIsLexicographic(a: Text, b: Text)
    ensures Before(a, b) <==> exists k: nat :: FirstDifference(a, b, k)
  {
    if a != [] && b != [] && a[0] == b[0] {
      BeforeIsLexicographic(a[1..], b[1..]);
      if k: nat :| FirstDifference(a[1..], b[1..], k) {
        assert a[..k + 1] == [a[0]] + a[1..][..k] && b[..k + 1] == [b[0]] + b[1..][..k];
        assert FirstDifference(a, b, k + 1);
      }
      if k: nat :| FirstDifference(a, b, k) {
        assert k > 0;
        assert a[1..][..k - 1] == a[..k][1..] && b[1..][..k - 1] == b[..k][1..];
        assert FirstDifference(a[1..], b[1..], k - 1);
      }
    } else {
      forall k: nat | k > 0 ensures !FirstDifference(a, b, k) {
        NoLaterDifference(a, b, k);
      }
      assert b != [] && (a == [] || a[0] < b[0]) ==> FirstDifference(a, b, 0);
    }
  }

  /** The canonical text says the value it was printed from, objects as maps, with all names in ascending order. */
  lemma CanonicalTextSaysValue(v: Json)
    requires WellFormed(v) && Serialize(v).Ok?
    ensures exists w :: Reads(Serialize(v).value, w) && SameValue(v, w) && Ordered(w)
  {
    hide Reads, SameValue, Ordered, Serialize;
    TextReads(v);
    CanonicalIsSame(v);
    CanonicalIsOrdered(v);
  }
}
