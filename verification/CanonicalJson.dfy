/**
 * Canonical JSON: the signing form of fleet-agent and the fingerprint form of fleet-bus (the two
 * serializers are the same recursion). The text depends on a value only through the value it denotes,
 * and it determines that value.
 */
module CanonicalJson {
  import opened Prelude
  import opened Utf16
  import opened StringText
  import NT = NumberText

  /**
   * A host value. Objects list their properties in insertion order; `NotJson` stands for undefined, functions
   * and symbols.
   */
  datatype Json =
    | Null
    | Boolean(b: bool)
    | Number(n: NT.Number)
    | String(s: Text)
    | Array(items: seq<Json>)
    | Object(fields: seq<Field>)
    | NotJson

  datatype Field = Field(key: Text, value: Json)

  datatype Error = NonFiniteNumber | NonJsonValue

  const NULL_TEXT: Text := [110, 117, 108, 108]
  const TRUE_TEXT: Text := [116, 114, 117, 101]
  const FALSE_TEXT: Text := [102, 97, 108, 115, 101]

  predicate DistinctKeys(fields: seq<Field>) {
    forall i, j :: 0 <= i < j < |fields| ==> fields[i].key != fields[j].key
  }

  /** What the host guarantees of any value: property names are distinct, numbers are doubles. */
  ghost predicate WellFormed(v: Json) {
    match v
    case Number(n) => n.Shortest()
    case Array(items) => forall i :: 0 <= i < |items| ==> WellFormed(items[i])
    case Object(fields) => DistinctKeys(fields) && forall i :: 0 <= i < |fields| ==> WellFormed(fields[i].value)
    case _ => true
  }

  /** Equality of the denoted JSON values: objects are key-to-value maps, -0 is 0. */
  ghost predicate SameValue(a: Json, b: Json) {
    match (a, b)
    case (Number(x), Number(y)) => NT.SameNumber(x, y)
    case (Array(xs), Array(ys)) => |xs| == |ys| && forall i :: 0 <= i < |xs| ==> SameValue(xs[i], ys[i])
    case (Object(fs), Object(gs)) =>
      && (forall k :: HasKey(fs, k) <==> HasKey(gs, k))
      && forall i, j :: 0 <= i < |fs| && 0 <= j < |gs| && fs[i].key == gs[j].key ==> SameValue(fs[i].value, gs[j].value)
    case _ => a == b
  }

  ghost predicate HasKey(fields: seq<Field>, k: Text) {
    exists i :: 0 <= i < |fields| && fields[i].key == k
  }

  // ---- the serializer ----

  predicate SortedByKey(fields: seq<Field>) {
    forall i, j :: 0 <= i < j < |fields| ==> !Before(fields[j].key, fields[i].key)
  }

  function Insert(f: Field, sorted: seq<Field>): (r: seq<Field>)
    requires SortedByKey(sorted)
    ensures multiset(r) == multiset{f} + multiset(sorted)
    ensures SortedByKey(r)
  {
    if sorted == [] then [f]
    else if !Before(sorted[0].key, f.key) then
      assert SortedByKey([f] + sorted) by { InsertFront(f, sorted); }
      assert multiset([f] + sorted) == multiset{f} + multiset(sorted);
      [f] + sorted
    else
      assert sorted == [sorted[0]] + sorted[1..];
      var rest := Insert(f, sorted[1..]);
      assert SortedByKey([sorted[0]] + rest) by { InsertLater(f, sorted, rest); }
      [sorted[0]] + rest
  }

  lemma InsertFront(f: Field, sorted: seq<Field>)
    requires SortedByKey(sorted) && sorted != [] && !Before(sorted[0].key, f.key)
    ensures SortedByKey([f] + sorted)
  {
    forall j | 0 <= j < |sorted| ensures !Before(sorted[j].key, f.key) {
      if Before(sorted[j].key, f.key) {
        BeforeTrichotomy(sorted[0].key, sorted[j].key);
        if Before(sorted[0].key, sorted[j].key) {
          BeforeTransitive(sorted[0].key, sorted[j].key, f.key);
        }
      }
    }
  }

  lemma InsertLater(f: Field, sorted: seq<Field>, rest: seq<Field>)
    requires SortedByKey(sorted) && sorted != [] && Before(sorted[0].key, f.key)
    requires SortedByKey(rest) && multiset(rest) == multiset{f} + multiset(sorted[1..])
    ensures SortedByKey([sorted[0]] + rest)
  {
    BeforeTrichotomy(sorted[0].key, f.key);
    forall j | 0 <= j < |rest| ensures !Before(rest[j].key, sorted[0].key) {
      assert rest[j] in multiset(rest);
      if rest[j] != f {
        assert rest[j] in sorted[1..];
      }
    }
  }

  /** The properties in code-unit order of their names. */
  function SortFields(fields: seq<Field>): (r: seq<Field>)
    ensures multiset(r) == multiset(fields)
    ensures SortedByKey(r)
    ensures forall f :: f in r <==> f in fields
    ensures |r| == |fields|
  {
    if fields == [] then []
    else
      assert fields == [fields[0]] + fields[1..];
      var r := Insert(fields[0], SortFields(fields[1..]));
      assert multiset(r) == multiset(fields);
      assert |r| == |multiset(r)| && |fields| == |multiset(fields)|;
      assert forall f :: f in r <==> f in multiset(r);
      assert forall f :: f in fields <==> f in multiset(fields);
      r
  }

  /** All the texts, or the first error. */
  function Collect(parts: seq<Result<Text, Error>>): (r: Result<seq<Text>, Error>)
    ensures r.Ok? <==> forall i :: 0 <= i < |parts| ==> parts[i].Ok?
    ensures r.Ok? ==> |r.value| == |parts| && forall i :: 0 <= i < |parts| ==> r.value[i] == parts[i].value
  {
    if parts == [] then Ok([])
    else
      var head :- parts[0];
      var tail :- Collect(parts[1..]);
      Ok([head] + tail)
  }

  function Join(ts: seq<Text>): Text {
    if ts == [] then [] else if |ts| == 1 then ts[0] else ts[0] + [COMMA] + Join(ts[1..])
  }

  function Entry(f: Field, t: Result<Text, Error>): Result<Text, Error> {
    match t
    case Err(e) => Err(e)
    case Ok(text) => Ok(Quote(f.key) + [COLON] + text)
  }

  /** The canonical text of a value, or the error the source throws. */
  function Serialize(v: Json): Result<Text, Error>
    requires WellFormed(v)
    decreases v
  {
    match v
    case Null => Ok(NULL_TEXT)
    case Boolean(b) => Ok(if b then TRUE_TEXT else FALSE_TEXT)
    case Number(n) => if n.Finite() then Ok(NT.NumberToText(n)) else Err(NonFiniteNumber)
    case String(s) => Ok(Quote(s))
    case Array(items) =>
      var parts := seq(|items|, i requires 0 <= i < |items| => Serialize(items[i]));
      var texts :- Collect(parts);
      Ok([LEFT_BRACKET] + Join(texts) + [RIGHT_BRACKET])
    case Object(fields) =>
      var sorted := SortFields(fields);
      assert forall i :: 0 <= i < |sorted| ==> sorted[i] in fields;
      var parts := seq(|sorted|, i requires 0 <= i < |sorted| =>
                         assert sorted[i] in fields; Entry(sorted[i], Serialize(sorted[i].value)));
      var texts :- Collect(parts);
      Ok([LEFT_BRACE] + Join(texts) + [RIGHT_BRACE])
    case NotJson => Err(NonJsonValue)
  }

  // ---- unique readability ----

  /** A text that may follow a complete value: nothing, a separator, or a closing bracket. */
  predicate Delimited(t: Text) {
    t == [] || t[0] == COMMA || t[0] == RIGHT_BRACKET || t[0] == RIGHT_BRACE
  }

  /** Two value texts that can only be confused, before delimiters, when they are the same text. */
  ghost predicate Separable(p: Text, q: Text) {
    forall x, y :: Delimited(x) && Delimited(y) && p + x == q + y ==> p == q
  }

  ghost predicate TextsOf(values: seq<Json>, ts: seq<Text>)
    requires forall i :: 0 <= i < |values| ==> WellFormed(values[i])
  {
    |ts| == |values| && forall i :: 0 <= i < |values| ==> Serialize(values[i]) == Ok(ts[i])
  }

  ghost predicate EntriesOf(fields: seq<Field>, ts: seq<Text>)
    requires forall i :: 0 <= i < |fields| ==> WellFormed(fields[i].value)
  {
    |ts| == |fields| && forall i :: 0 <= i < |fields| ==> Entry(fields[i], Serialize(fields[i].value)) == Ok(ts[i])
  }

  ghost function ItemParts(items: seq<Json>): seq<Result<Text, Error>>
    requires forall i :: 0 <= i < |items| ==> WellFormed(items[i])
  {
    seq(|items|, i requires 0 <= i < |items| => Serialize(items[i]))
  }

  ghost function EntryParts(fields: seq<Field>): seq<Result<Text, Error>>
    requires forall i :: 0 <= i < |fields| ==> WellFormed(fields[i].value)
  {
    seq(|fields|, i requires 0 <= i < |fields| => Entry(fields[i], Serialize(fields[i].value)))
  }

  ghost function Enclose(open: CodeUnit, texts: Result<seq<Text>, Error>, close: CodeUnit): Result<Text, Error> {
    match texts
    case Err(e) => Err(e)
    case Ok(ts) => Ok([open] + Join(ts) + [close])
  }

  lemma SerializeArray(items: seq<Json>)
    requires WellFormed(Array(items))
    ensures Serialize(Array(items)) == Enclose(LEFT_BRACKET, Collect(ItemParts(items)), RIGHT_BRACKET)
  {
    assert ItemParts(items) == seq(|items|, i requires 0 <= i < |items| => Serialize(items[i]));
  }

  lemma SerializeObject(fields: seq<Field>)
    requires WellFormed(Object(fields))
    ensures forall i :: 0 <= i < |SortFields(fields)| ==> WellFormed(SortFields(fields)[i].value)
    ensures Serialize(Object(fields)) == Enclose(LEFT_BRACE, Collect(EntryParts(SortFields(fields))), RIGHT_BRACE)
  {
    SortedWellFormed(fields);
    var sorted := SortFields(fields);
    assert EntryParts(sorted) == seq(|sorted|,
                                     i requires 0 <= i < |sorted| => Entry(sorted[i], Serialize(sorted[i].value)));
  }

  lemma ArrayTexts(items: seq<Json>) returns (ts: seq<Text>)
    requires WellFormed(Array(items)) && Serialize(Array(items)).Ok?
    ensures TextsOf(items, ts)
    ensures Serialize(Array(items)) == Ok([LEFT_BRACKET] + Join(ts) + [RIGHT_BRACKET])
  {
    SerializeArray(items);
    ts := Collect(ItemParts(items)).value;
  }

  lemma SortedWellFormed(fields: seq<Field>)
    requires WellFormed(Object(fields))
    ensures forall i :: 0 <= i < |SortFields(fields)| ==> WellFormed(SortFields(fields)[i].value)
  {
    var sorted := SortFields(fields);
    forall i | 0 <= i < |sorted| ensures WellFormed(sorted[i].value) {
      assert sorted[i] in fields;
    }
  }

  lemma ObjectTexts(fields: seq<Field>) returns (ts: seq<Text>)
    requires WellFormed(Object(fields)) && Serialize(Object(fields)).Ok?
    ensures forall i :: 0 <= i < |SortFields(fields)| ==> WellFormed(SortFields(fields)[i].value)
    ensures EntriesOf(SortFields(fields), ts)
    ensures Serialize(Object(fields)) == Ok([LEFT_BRACE] + Join(ts) + [RIGHT_BRACE])
  {
    SerializeObject(fields);
    ts := Collect(EntryParts(SortFields(fields))).value;
  }

  /** The first unit of a text tells which kind of value it prints. */
  lemma FirstUnit(v: Json)
    requires WellFormed(v) && Serialize(v).Ok?
    ensures var t := Serialize(v).value;
            && t != []
            && (v.Null? <==> t[0] == 110)
            && (v == Boolean(true) <==> t[0] == 116)
            && (v == Boolean(false) <==> t[0] == 102)
            && (v.String? <==> t[0] == QUOTE)
            && (v.Array? <==> t[0] == LEFT_BRACKET)
            && (v.Object? <==> t[0] == LEFT_BRACE)
            && (v.Number? <==> t[0] == MINUS || ZERO <= t[0] <= ZERO + 9)
            && !Delimited(t)
  {
    match v
    case Number(n) =>
      if n.Decimal? {
        NT.LayoutMarks(n.digits, n.point);
        NT.UnsignedFirst(n.digits, n.point);
      }
    case Array(items) =>
      var ts := ArrayTexts(items);
    case Object(fields) =>
      var ts := ObjectTexts(fields);
    case _ =>
  }

  /** A numeral ends where the first delimiter begins. */
  lemma NumeralReadable(p: Text, u: Text, q: Text, w: Text)
    requires forall c :: c in p ==> NT.NumeralUnit(c)
    requires forall c :: c in q ==> NT.NumeralUnit(c)
    requires Delimited(u) && Delimited(w) && p + u == q + w
    ensures p == q && u == w
  {
    var t := p + u;
    assert t == q + w;
    assert forall i :: 0 <= i < |p| ==> t[i] == p[i] && NT.NumeralUnit(t[i]);
    assert forall i :: 0 <= i < |q| ==> t[i] == q[i] && NT.NumeralUnit(t[i]);
    assert u != [] ==> t[|p|] == u[0] && !NT.NumeralUnit(t[|p|]);
    assert w != [] ==> t[|q|] == w[0] && !NT.NumeralUnit(t[|q|]);
    assert |p| == |q|;
    assert p == t[..|p|] && q == t[..|q|] && u == t[|p|..] && w == t[|q|..];
  }

  /** What follows the first part of a joined list. */
  function AfterFirst(ts: seq<Text>, close: CodeUnit, u: Text): Text
    requires ts != []
  {
    if |ts| == 1 then [close] + u else [COMMA] + (Join(ts[1..]) + [close] + u)
  }

  lemma JoinFirst(ts: seq<Text>, close: CodeUnit, u: Text)
    requires ts != []
    ensures Join(ts) + [close] + u == ts[0] + AfterFirst(ts, close, u)
  {
    if |ts| > 1 {
      FirstApart(ts[0], [COMMA], Join(ts[1..]), [close], u);
    }
  }

  lemma FirstApart(a: Text, b: Text, c: Text, d: Text, u: Text)
    ensures (a + b + c) + d + u == a + (b + (c + d + u))
  {
    assert (a + b + c) + d + u == (a + b) + (c + d + u);
    assert (a + b) + (c + d + u) == a + (b + (c + d + u));
  }

  lemma JoinStart(ts: seq<Text>, close: CodeUnit, u: Text)
    requires close == RIGHT_BRACKET || close == RIGHT_BRACE
    requires forall i :: 0 <= i < |ts| ==> !Delimited(ts[i])
    ensures ts == [] <==> (Join(ts) + [close] + u)[0] == close
  {
    if ts != [] {
      assert Join(ts)[0] == ts[0][0];
    }
  }

  lemma SeparableSplit(p: Text, x: Text, q: Text, y: Text)
    requires Separable(p, q) && Delimited(x) && Delimited(y) && p + x == q + y
    ensures p == q && x == y
  {
    assert p == q;
    assert x == (p + x)[|p|..] && y == (q + y)[|q|..];
  }

  /** Joined lists of separable parts are uniquely readable up to their closing bracket. */
  lemma {:induction false} JoinReadable(ts: seq<Text>, u: Text, ss: seq<Text>, w: Text, close: CodeUnit)
    requires close == RIGHT_BRACKET || close == RIGHT_BRACE
    requires forall i :: 0 <= i < |ts| ==> !Delimited(ts[i])
    requires forall i :: 0 <= i < |ss| ==> !Delimited(ss[i])
    requires forall i :: 0 <= i < |ts| && i < |ss| ==> Separable(ts[i], ss[i])
    requires Join(ts) + [close] + u == Join(ss) + [close] + w
    ensures ts == ss && u == w
  {
    JoinStart(ts, close, u);
    JoinStart(ss, close, w);
    if ts == [] {
      assert u == (Join(ts) + [close] + u)[1..] && w == (Join(ss) + [close] + w)[1..];
    } else {
      var x, y := AfterFirst(ts, close, u), AfterFirst(ss, close, w);
      JoinFirst(ts, close, u);
      JoinFirst(ss, close, w);
      SeparableSplit(ts[0], x, ss[0], y);
      assert |ts| == 1 <==> x[0] == close;
      assert |ss| == 1 <==> y[0] == close;
      if |ts| == 1 {
        assert u == x[1..] && w == y[1..];
      } else {
        assert Join(ts[1..]) + [close] + u == x[1..];
        assert Join(ss[1..]) + [close] + w == y[1..];
        JoinReadable(ts[1..], u, ss[1..], w, close);
      }
      assert ts == [ts[0]] + ts[1..] && ss == [ss[0]] + ss[1..];
    }
  }

  lemma EnclosedReadable(open: CodeUnit, ts: seq<Text>, u: Text, ss: seq<Text>, w: Text, close: CodeUnit)
    requires close == RIGHT_BRACKET || close == RIGHT_BRACE
    requires forall i :: 0 <= i < |ts| ==> !Delimited(ts[i])
    requires forall i :: 0 <= i < |ss| ==> !Delimited(ss[i])
    requires forall i :: 0 <= i < |ts| && i < |ss| ==> Separable(ts[i], ss[i])
    requires [open] + Join(ts) + [close] + u == [open] + Join(ss) + [close] + w
    ensures ts == ss && u == w
  {
    DropFirst(open, Join(ts), [close], Join(ss), [close], u, w);
    JoinReadable(ts, u, ss, w, close);
  }

  /** Unique readability: before delimiters, a canonical text fixes the value it prints and where it ends. */
  lemma {:induction false} Readable(a: Json, u: Text, b: Json, w: Text)
    requires WellFormed(a) && WellFormed(b)
    requires Serialize(a).Ok? && Serialize(b).Ok?
    requires Delimited(u) && Delimited(w)
    requires Serialize(a).value + u == Serialize(b).value + w
    ensures SameValue(a, b)
    ensures Serialize(a) == Serialize(b) && u == w
    decreases a, 2
  {
    var p, q := Serialize(a).value, Serialize(b).value;
    FirstUnit(a);
    FirstUnit(b);
    assert (p + u)[0] == p[0] && (q + w)[0] == q[0];
    match a
    case Number(m) =>
      NT.NumberTextUnits(m);
      NT.NumberTextUnits(b.n);
      NumeralReadable(p, u, q, w);
      NT.NumberTextInjective(m, b.n);
    case String(s) =>
      QuoteReadable(s, u, b.s, w);
    case Array(xs) =>
      ArrayReadable(xs, u, b.items, w);
    case Object(fs) =>
      ObjectReadable(fs, u, b.fields, w);
    case Null =>
      assert u == (p + u)[4..] && w == (q + w)[4..];
    case Boolean(_) =>
      assert a == b;
      assert u == (p + u)[|p|..] && w == (q + w)[|q|..];
    case NotJson =>
  }

  lemma {:induction false} ArrayReadable(xs: seq<Json>, u: Text, ys: seq<Json>, w: Text)
    requires WellFormed(Array(xs)) && WellFormed(Array(ys))
    requires Serialize(Array(xs)).Ok? && Serialize(Array(ys)).Ok?
    requires Serialize(Array(xs)).value + u == Serialize(Array(ys)).value + w
    ensures SameValue(Array(xs), Array(ys))
    ensures Serialize(Array(xs)) == Serialize(Array(ys)) && u == w
    decreases Array(xs), 1
  {
    var ts := ArrayTexts(xs);
    var ss := ArrayTexts(ys);
    forall i | 0 <= i < |ts| ensures !Delimited(ts[i]) {
      FirstUnit(xs[i]);
    }
    forall i | 0 <= i < |ss| ensures !Delimited(ss[i]) {
      FirstUnit(ys[i]);
    }
    forall i | 0 <= i < |ts| && i < |ss| ensures Separable(ts[i], ss[i]) {
      forall x, y | Delimited(x) && Delimited(y) && ts[i] + x == ss[i] + y ensures ts[i] == ss[i] {
        Readable(xs[i], x, ys[i], y);
      }
    }
    EnclosedReadable(LEFT_BRACKET, ts, u, ss, w, RIGHT_BRACKET);
    forall i | 0 <= i < |xs| ensures SameValue(xs[i], ys[i]) {
      Readable(xs[i], [], ys[i], []);
    }
  }

  lemma EntryReadable(k: Text, p: Text, l: Text, q: Text, x: Text, y: Text)
    requires (Quote(k) + [COLON] + p) + x == (Quote(l) + [COLON] + q) + y
    ensures k == l && p + x == q + y
  {
    assert Quote(k) + ([COLON] + (p + x)) == (Quote(k) + [COLON] + p) + x;
    assert Quote(l) + ([COLON] + (q + y)) == (Quote(l) + [COLON] + q) + y;
    QuoteReadable(k, [COLON] + (p + x), l, [COLON] + (q + y));
    assert p + x == ([COLON] + (p + x))[1..] && q + y == ([COLON] + (q + y))[1..];
  }

  lemma {:induction false} ObjectReadable(fs: seq<Field>, u: Text, gs: seq<Field>, w: Text)
    requires WellFormed(Object(fs)) && WellFormed(Object(gs))
    requires Serialize(Object(fs)).Ok? && Serialize(Object(gs)).Ok?
    requires Serialize(Object(fs)).value + u == Serialize(Object(gs)).value + w
    ensures SameValue(Object(fs), Object(gs))
    ensures Serialize(Object(fs)) == Serialize(Object(gs)) && u == w
    decreases Object(fs), 1
  {
    var ts := ObjectTexts(fs);
    var ss := ObjectTexts(gs);
    EntriesSeparable(fs, ts, gs, ss);
    EnclosedReadable(LEFT_BRACE, ts, u, ss, w, RIGHT_BRACE);
    EqualTextsAgree(fs, gs, ts);
    SortedSame(fs, gs);
  }

  lemma EntriesStart(fields: seq<Field>, ts: seq<Text>)
    requires forall i :: 0 <= i < |fields| ==> WellFormed(fields[i].value)
    requires EntriesOf(fields, ts)
    ensures forall i :: 0 <= i < |ts| ==> !Delimited(ts[i])
  {
    forall i | 0 <= i < |ts| ensures !Delimited(ts[i]) {
      assert ts[i][0] == QUOTE;
    }
  }

  lemma {:induction false} EntriesSeparable(fs: seq<Field>, ts: seq<Text>, gs: seq<Field>, ss: seq<Text>)
    requires WellFormed(Object(fs)) && WellFormed(Object(gs))
    requires forall i :: 0 <= i < |SortFields(fs)| ==> WellFormed(SortFields(fs)[i].value)
    requires forall i :: 0 <= i < |SortFields(gs)| ==> WellFormed(SortFields(gs)[i].value)
    requires EntriesOf(SortFields(fs), ts) && EntriesOf(SortFields(gs), ss)
    ensures forall i :: 0 <= i < |ts| ==> !Delimited(ts[i])
    ensures forall i :: 0 <= i < |ss| ==> !Delimited(ss[i])
    ensures forall i :: 0 <= i < |ts| && i < |ss| ==> Separable(ts[i], ss[i])
    decreases Object(fs), 0, 1
  {
    var xs, ys := SortFields(fs), SortFields(gs);
    EntriesStart(xs, ts);
    EntriesStart(ys, ss);
    forall i | 0 <= i < |ts| && i < |ss| ensures Separable(ts[i], ss[i]) {
      SortedEntriesSeparable(fs, xs[i], ts[i], ys[i], ss[i]);
    }
  }

  lemma {:induction false} EqualTextsAgree(fs: seq<Field>, gs: seq<Field>, ts: seq<Text>)
    requires WellFormed(Object(fs)) && WellFormed(Object(gs))
    requires forall i :: 0 <= i < |SortFields(fs)| ==> WellFormed(SortFields(fs)[i].value)
    requires forall i :: 0 <= i < |SortFields(gs)| ==> WellFormed(SortFields(gs)[i].value)
    requires EntriesOf(SortFields(fs), ts) && EntriesOf(SortFields(gs), ts)
    ensures SortedAgree(fs, gs)
    decreases Object(fs), 0, 1
  {
    var xs, ys := SortFields(fs), SortFields(gs);
    forall i | 0 <= i < |xs| ensures xs[i].key == ys[i].key && SameValue(xs[i].value, ys[i].value) {
      EqualEntries(fs, xs[i], ts[i], ys[i]);
    }
  }

  lemma {:induction false} EqualEntries(fs: seq<Field>, f: Field, t: Text, g: Field)
    requires f in fs && WellFormed(f.value) && WellFormed(g.value)
    requires Entry(f, Serialize(f.value)) == Ok(t) && Entry(g, Serialize(g.value)) == Ok(t)
    ensures f.key == g.key && SameValue(f.value, g.value)
    decreases Object(fs), 0, 0
  {
    var p, q := Serialize(f.value).value, Serialize(g.value).value;
    assert Quote(f.key) + [COLON] + p + [] == Quote(g.key) + [COLON] + q + [];
    EntryReadable(f.key, p, g.key, q, [], []);
    Readable(f.value, [], g.value, []);
  }

  lemma {:induction false} SortedEntriesSeparable(fs: seq<Field>, f: Field, t: Text, g: Field, s: Text)
    requires f in fs && WellFormed(f.value) && WellFormed(g.value)
    requires Entry(f, Serialize(f.value)) == Ok(t) && Entry(g, Serialize(g.value)) == Ok(s)
    ensures Separable(t, s)
    decreases Object(fs), 0, 0
  {
    forall x, y | Delimited(x) && Delimited(y) && t + x == s + y ensures t == s {
      EntryReadable(f.key, Serialize(f.value).value, g.key, Serialize(g.value).value, x, y);
      Readable(f.value, x, g.value, y);
    }
  }

  lemma SortedKeys(fs: seq<Field>, k: Text)
    ensures HasKey(fs, k) <==> HasKey(SortFields(fs), k)
  {
    var xs := SortFields(fs);
    if HasKey(fs, k) {
      var i :| 0 <= i < |fs| && fs[i].key == k;
      assert fs[i] in xs;
    }
    if HasKey(xs, k) {
      var i :| 0 <= i < |xs| && xs[i].key == k;
      assert xs[i] in fs;
    }
  }

  /** The sorted properties of two objects agree one by one. */
  ghost predicate SortedAgree(fs: seq<Field>, gs: seq<Field>) {
    var xs, ys := SortFields(fs), SortFields(gs);
    |xs| == |ys| && forall i :: 0 <= i < |xs| ==> xs[i].key == ys[i].key && SameValue(xs[i].value, ys[i].value)
  }

  lemma SortedAgreeKeys(fs: seq<Field>, gs: seq<Field>, k: Text)
    requires SortedAgree(fs, gs) && HasKey(fs, k)
    ensures HasKey(gs, k)
  {
    SortedKeys(fs, k);
    SortedKeys(gs, k);
    var n :| 0 <= n < |SortFields(fs)| && SortFields(fs)[n].key == k;
    assert SortFields(gs)[n].key == k;
  }

  lemma SortedAgreeValues(fs: seq<Field>, f: Field, gs: seq<Field>, g: Field)
    requires SortedAgree(fs, gs) && DistinctKeys(gs)
    requires f in fs && g in gs && f.key == g.key
    ensures SameValue(f.value, g.value)
  {
    var xs, ys := SortFields(fs), SortFields(gs);
    assert f in xs;
    var n :| 0 <= n < |xs| && xs[n] == f;
    assert ys[n] in ys && ys[n] in gs;
    assert ys[n] == g;
  }

  /** Objects whose sorted properties agree one by one denote the same map. */
  lemma SortedSame(fs: seq<Field>, gs: seq<Field>)
    requires DistinctKeys(fs) && DistinctKeys(gs) && SortedAgree(fs, gs)
    ensures SameValue(Object(fs), Object(gs))
  {
    forall k ensures HasKey(fs, k) <==> HasKey(gs, k) {
      if HasKey(fs, k) {
        SortedAgreeKeys(fs, gs, k);
      }
      if HasKey(gs, k) {
        SortedKeys(gs, k);
        var n :| 0 <= n < |SortFields(gs)| && SortFields(gs)[n].key == k;
        assert SortFields(fs)[n].key == k;
        SortedKeys(fs, k);
      }
    }
    forall i, j | 0 <= i < |fs| && 0 <= j < |gs| && fs[i].key == gs[j].key ensures SameValue(fs[i].value, gs[j].value) {
      SortedAgreeValues(fs, fs[i], gs, gs[j]);
    }
  }

  // ---- order-blindness ----

  /** Sorted lists with the same distinct keys list them alike. */
  lemma {:induction false} SortedKeysEqual(xs: seq<Field>, ys: seq<Field>)
    requires SortedByKey(xs) && SortedByKey(ys) && DistinctKeys(xs) && DistinctKeys(ys)
    requires forall k :: HasKey(xs, k) <==> HasKey(ys, k)
    ensures |xs| == |ys| && forall i :: 0 <= i < |xs| ==> xs[i].key == ys[i].key
  {
    assert forall i :: 0 <= i < |xs| ==> HasKey(xs, xs[i].key);
    assert forall i :: 0 <= i < |ys| ==> HasKey(ys, ys[i].key);
    if xs != [] {
      hide HasKey;
      LeastKeysEqual(xs, ys);
      forall k ensures HasKey(xs[1..], k) <==> HasKey(ys[1..], k) {
        TailKeys(xs, k);
        TailKeys(ys, k);
      }
      SortedKeysEqual(xs[1..], ys[1..]);
      assert forall i :: 1 <= i < |xs| ==> xs[i] == xs[1..][i - 1] && ys[i] == ys[1..][i - 1];
    }
  }

  lemma LeastKeysEqual(xs: seq<Field>, ys: seq<Field>)
    requires SortedByKey(xs) && SortedByKey(ys) && xs != [] && ys != []
    requires HasKey(ys, xs[0].key) && HasKey(xs, ys[0].key)
    ensures xs[0].key == ys[0].key
  {
    BeforeTrichotomy(xs[0].key, ys[0].key);
  }

  lemma TailKeys(xs: seq<Field>, k: Text)
    requires xs != [] && DistinctKeys(xs)
    ensures HasKey(xs[1..], k) <==> HasKey(xs, k) && k != xs[0].key
  {
    if HasKey(xs, k) && k != xs[0].key {
      var i :| 0 <= i < |xs| && xs[i].key == k;
      assert xs[1..][i - 1].key == k;
    }
  }

  lemma SortKeepsDistinct(fs: seq<Field>)
    requires DistinctKeys(fs)
    ensures DistinctKeys(SortFields(fs))
  {
    var xs := SortFields(fs);
    forall i, j | 0 <= i < j < |xs| ensures xs[i].key != xs[j].key {
      if xs[i].key == xs[j].key {
        assert xs[i] in fs && xs[j] in fs;
        assert xs[i] == xs[j];
        TwiceInSequence(xs, i, j);
        OnceInDistinct(fs, xs[i]);
      }
    }
  }

  lemma TwiceInSequence<T>(xs: seq<T>, i: nat, j: nat)
    requires i < j < |xs| && xs[i] == xs[j]
    ensures multiset(xs)[xs[i]] >= 2
  {
    assert xs == xs[..j] + [xs[j]] + xs[j + 1..];
    assert xs[i] in xs[..j];
  }

  lemma {:induction false} OnceInDistinct(fs: seq<Field>, f: Field)
    requires DistinctKeys(fs)
    ensures multiset(fs)[f] <= 1
  {
    if fs != [] {
      OnceInDistinct(fs[1..], f);
      assert fs == [fs[0]] + fs[1..];
      assert f == fs[0] ==> f !in fs[1..];
    }
  }

  /** Values that denote the same JSON value print alike, errors included. */
  lemma {:induction false} SameValueSameText(a: Json, b: Json)
    requires WellFormed(a) && WellFormed(b) && SameValue(a, b)
    ensures Serialize(a) == Serialize(b)
    decreases a, 1
  {
    match a
    case Number(m) =>
      if m.Finite() {
        NT.NumberTextInjective(m, b.n);
      }
    case Array(xs) =>
      forall i | 0 <= i < |xs| ensures Serialize(xs[i]) == Serialize(b.items[i]) {
        SameValueSameText(xs[i], b.items[i]);
      }
      SerializeArray(xs);
      SerializeArray(b.items);
      assert ItemParts(xs) == ItemParts(b.items);
    case Object(fs) =>
      SameObjectSameText(fs, b.fields);
    case _ =>
  }

  lemma SameSortedKeys(fs: seq<Field>, gs: seq<Field>)
    requires DistinctKeys(fs) && DistinctKeys(gs) && forall k :: HasKey(fs, k) <==> HasKey(gs, k)
    ensures var xs, ys := SortFields(fs), SortFields(gs);
            |xs| == |ys| && forall i :: 0 <= i < |xs| ==> xs[i].key == ys[i].key
  {
    hide HasKey, DistinctKeys;
    var xs, ys := SortFields(fs), SortFields(gs);
    SortKeepsDistinct(fs);
    SortKeepsDistinct(gs);
    forall k ensures HasKey(xs, k) <==> HasKey(ys, k) {
      SortedKeys(fs, k);
      SortedKeys(gs, k);
    }
    SortedKeysEqual(xs, ys);
  }

  lemma {:induction false} SameObjectSameText(fs: seq<Field>, gs: seq<Field>)
    requires WellFormed(Object(fs)) && WellFormed(Object(gs)) && SameValue(Object(fs), Object(gs))
    ensures Serialize(Object(fs)) == Serialize(Object(gs))
    decreases Object(fs), 0, 1
  {
    hide HasKey, SortFields, Serialize;
    var xs, ys := SortFields(fs), SortFields(gs);
    SameSortedKeys(fs, gs);
    SerializeObject(fs);
    SerializeObject(gs);
    forall i | 0 <= i < |xs| ensures Serialize(xs[i].value) == Serialize(ys[i].value) {
      SameFieldSameText(fs, xs[i], gs, ys[i]);
    }
    assert EntryParts(xs) == EntryParts(ys);
  }

  lemma {:induction false} SameFieldSameText(fs: seq<Field>, f: Field, gs: seq<Field>, g: Field)
    requires WellFormed(Object(fs)) && WellFormed(Object(gs)) && SameValue(Object(fs), Object(gs))
    requires f in fs && g in gs && f.key == g.key
    ensures Serialize(f.value) == Serialize(g.value)
    decreases Object(fs), 0, 0
  {
    SameValueSameText(f.value, g.value);
  }

  // ---- main results ----

  /** No number anywhere in the value is NaN or infinite, and everything in it is JSON. */
  ghost predicate Signable(v: Json) {
    match v
    case Number(n) => n.Finite()
    case Array(items) => forall i :: 0 <= i < |items| ==> Signable(items[i])
    case Object(fields) => forall i :: 0 <= i < |fields| ==> Signable(fields[i].value)
    case NotJson => false
    case _ => true
  }

  /** Serialization fails loudly exactly on values that hold a non-finite number or something that is not JSON. */
  lemma {:induction false} SerializeFailsExactly(v: Json)
    requires WellFormed(v)
    ensures Serialize(v).Ok? <==> Signable(v)
  {
    match v
    case Array(items) =>
      forall i | 0 <= i < |items| ensures Serialize(items[i]).Ok? <==> Signable(items[i]) {
        SerializeFailsExactly(items[i]);
      }
      SerializeArray(items);
      assert forall i :: 0 <= i < |items| ==> ItemParts(items)[i] == Serialize(items[i]);
    case Object(fields) =>
      forall f | f in fields ensures Serialize(f.value).Ok? <==> Signable(f.value) {
        SerializeFailsExactly(f.value);
      }
      ObjectFailsExactly(fields);
    case _ =>
  }

  lemma ObjectFailsExactly(fields: seq<Field>)
    requires WellFormed(Object(fields))
    requires forall f :: f in fields ==> (Serialize(f.value).Ok? <==> Signable(f.value))
    ensures Serialize(Object(fields)).Ok? <==> Signable(Object(fields))
  {
    SerializeObject(fields);
    var sorted := SortFields(fields);
    var parts := EntryParts(sorted);
    if Collect(parts).Ok? {
      forall i | 0 <= i < |fields| ensures Signable(fields[i].value) {
        assert fields[i] in sorted;
        var n :| 0 <= n < |sorted| && sorted[n] == fields[i];
        assert parts[n].Ok?;
      }
    } else {
      var n :| 0 <= n < |parts| && parts[n].Err?;
      assert sorted[n] in fields;
    }
  }

  /**
   * Canonical JSON is injective and order-blind: two values print the same text exactly when they
   * denote the same JSON value.
   */
  lemma CanonicalTextDeterminesValue(a: Json, b: Json)
    requires WellFormed(a) && WellFormed(b)
    requires Serialize(a).Ok? && Serialize(b).Ok?
    ensures Serialize(a) == Serialize(b) <==> SameValue(a, b)
  {
    if Serialize(a) == Serialize(b) {
      Readable(a, [], b, []);
    }
    if SameValue(a, b) {
      SameValueSameText(a, b);
    }
  }

  lemma {:induction false} SameValueReflexive(v: Json)
    requires WellFormed(v)
    ensures SameValue(v, v)
  {
    match v
    case Array(items) =>
      forall i | 0 <= i < |items| ensures SameValue(items[i], items[i]) {
        SameValueReflexive(items[i]);
      }
    case Object(fields) =>
      forall i | 0 <= i < |fields| ensures SameValue(fields[i].value, fields[i].value) {
        SameValueReflexive(fields[i].value);
      }
    case _ =>
  }

  /** Listing the properties of an object in another order changes nothing. */
  lemma PropertyOrderIrrelevant(fs: seq<Field>, gs: seq<Field>)
    requires WellFormed(Object(fs)) && WellFormed(Object(gs))
    requires multiset(fs) == multiset(gs)
    ensures Serialize(Object(fs)) == Serialize(Object(gs))
  {
    assert forall f :: f in fs <==> f in multiset(fs);
    assert forall f :: f in gs <==> f in multiset(gs);
    forall k ensures HasKey(fs, k) <==> HasKey(gs, k) {
      if HasKey(fs, k) {
        var i :| 0 <= i < |fs| && fs[i].key == k;
        assert fs[i] in gs;
      }
      if HasKey(gs, k) {
        var i :| 0 <= i < |gs| && gs[i].key == k;
        assert gs[i] in fs;
      }
    }
    forall i, j | 0 <= i < |fs| && 0 <= j < |gs| && fs[i].key == gs[j].key ensures SameValue(fs[i].value, gs[j].value) {
      assert fs[i] in gs;
      SameValueReflexive(fs[i].value);
    }
    SameObjectSameText(fs, gs);
  }
}
