/** Judging completion evidence against the pass range of an artifact contract. */
module ArtifactContracts {
  import opened Prelude
  import opened Strings
  import opened TaskTree
  import opened TasksService

  datatype Operator = Ge | Le | Gt | Lt | Eq | Ne

  /** The host's numbers. */
  datatype Number = NaN | Real(value: real) | Infinity(positive: bool)

  /** The host's conversions: `Number` of a text, and a real number as text. */
  datatype Host = Host(number: string -> Number, show: real -> string)

  function Symbol(op: Operator): string {
    match op
    case Ge => ">="
    case Le => "<="
    case Gt => ">"
    case Lt => "<"
    case Eq => "=="
    case Ne => "!="
  }

  predicate Below(a: Number, b: Number)
    requires !a.NaN? && !b.NaN?
  {
    match (a, b)
    case (Real(x), Real(y)) => x < y
    case (Infinity(p), Infinity(q)) => !p && q
    case (Infinity(p), Real(_)) => !p
    case (Real(_), Infinity(q)) => q
  }

  predicate Holds(op: Operator, a: Number, b: Number)
    requires !a.NaN? && !b.NaN?
  {
    match op
    case Ge => !Below(a, b)
    case Le => !Below(b, a)
    case Gt => Below(b, a)
    case Lt => Below(a, b)
    case Eq => a == b
    case Ne => a != b
  }

  /** The operator a range starts with, longer symbols first, and the text behind it. */
  function Leading(range: string): Option<(Operator, string)> {
    if StartsWith(range, ">=") then Some((Ge, range[2..]))
    else if StartsWith(range, "<=") then Some((Le, range[2..]))
    else if StartsWith(range, ">") then Some((Gt, range[1..]))
    else if StartsWith(range, "<") then Some((Lt, range[1..]))
    else if StartsWith(range, "==") then Some((Eq, range[2..]))
    else if StartsWith(range, "!=") then Some((Ne, range[2..]))
    else None
  }

  /** The operator and the trimmed text after it; none when a line terminator is in the way. */
  function ReadOperator(range: string): Option<(Operator, string)> {
    var found := Leading(range);
    if found.Some? && AllDot(TrimStart(found.value.1)) then Some((found.value.0, Trim(TrimStart(found.value.1))))
      else None
  }

  function NumberOf(host: Host, m: Metric): Number {
    match m
    case Undefined => NaN
    case NullValue => Real(0.0)
    case Text(s) => host.number(s)
    case Flag(b) => Real(if b then 1.0 else 0.0)
    case Numeric(v) => Real(v)
    case NotANumber => NaN
    case Infinite(p) => Infinity(p)
  }

  function TextOf(host: Host, m: Metric): string {
    match m
    case Undefined => "undefined"
    case NullValue => "null"
    case Text(s) => s
    case Flag(b) => if b then "true" else "false"
    case Numeric(v) => host.show(v)
    case NotANumber => "NaN"
    case Infinite(p) => if p then "Infinity" else "-Infinity"
  }

  predicate IsNumber(m: Metric) {
    m.Numeric? || m.NotANumber? || m.Infinite?
  }

  /** The verdict on present evidence. */
  predicate Judged(host: Host, contract: Contract, actual: Metric) {
    var range := Trim(contract.passRange);
    match ReadOperator(range)
    case Some((op, text)) =>
      !host.number(text).NaN? && !NumberOf(host, actual).NaN? && Holds(op, NumberOf(host, actual), host.number(text))
    case None =>
      if !host.number(range).NaN? && IsNumber(actual) then NumberOf(host, actual) == host.number(range)
      else TextOf(host, actual) == range
  }

  /** The task service's judge. */
  function TheJudge(host: Host): Judge {
    (contract: Contract, actual: Metric) => Judged(host, contract, actual)
  }

  predicate AllSpace(s: string) {
    forall i :: 0 <= i < |s| ==> Space(s[i])
  }

  /** A text that trimming leaves alone. */
  predicate Trimmed(s: string) {
    s == "" || (!Space(s[0]) && !Space(s[|s| - 1]))
  }

  lemma {:induction false} TrimStartBehind(pad: string, s: string)
    requires AllSpace(pad) && (s == "" || !Space(s[0]))
    ensures TrimStart(pad + s) == s
  {
    if pad == "" {
      assert pad + s == s;
    } else {
      assert (pad + s)[1..] == pad[1..] + s;
      TrimStartBehind(pad[1..], s);
    }
  }

  lemma {:induction false} TrimEndBefore(s: string, pad: string)
    requires AllSpace(pad) && (s == "" || !Space(s[|s| - 1]))
    ensures TrimEnd(s + pad) == s
  {
    if pad == "" {
      assert s + pad == s;
    } else {
      assert (s + pad)[..|s + pad| - 1] == s + pad[..|pad| - 1];
      TrimEndBefore(s, pad[..|pad| - 1]);
    }
  }

  lemma TrimTrimmed(s: string)
    requires Trimmed(s)
    ensures TrimStart(s) == s && TrimEnd(s) == s && Trim(s) == s
  {
  }

  /** An operator, any spaces and a numeral read back as that operator and that numeral. */
  lemma OperatorReadsBack(op: Operator, gap: string, numeral: string)
    requires AllSpace(gap) && Trimmed(numeral) && AllDot(numeral)
    requires gap == "" && (op == Gt || op == Lt) ==> numeral == "" || numeral[0] != '='
    ensures ReadOperator(Symbol(op) + gap + numeral) == Some((op, numeral))
  {
    hide TrimStart, TrimEnd, Trim, Leading, Symbol;
    var rest := gap + numeral;
    assert Symbol(op) + gap + numeral == Symbol(op) + rest;
    assert rest != "" ==> rest[0] == if gap != "" then gap[0] else numeral[0];
    assert gap != "" ==> Space(gap[0]) && gap[0] != '=';
    LeadingReadsBack(op, rest);
    TrimStartBehind(gap, numeral);
    TrimTrimmed(numeral);
  }

  lemma LeadingReadsBack(op: Operator, rest: string)
    requires op == Gt || op == Lt ==> rest == "" || rest[0] != '='
    ensures Leading(Symbol(op) + rest) == Some((op, rest))
  {
    var range := Symbol(op) + rest;
    assert range[|Symbol(op)|..] == rest;
    match op {
      case Ge => assert range[..2] == ">=";
      case Le => assert range[0] == '<' && range[..2] == "<=";
      case Gt => assert range[..1] == ">" && (rest != "" ==> range[1] == rest[0]);
      case Lt => assert range[0] == '<' && range[..1] == "<" && (rest != "" ==> range[1] == rest[0]);
      case Eq => assert range[0] == '=' && range[..2] == "==";
      case Ne => assert range[0] == '!' && range[..2] == "!=";
    }
  }

  /**
   * The meaning of a pass range: whatever spaces surround operator and numeral, evidence that converts to a
   * number passes exactly when it stands in that relation to the numeral.
   */
  lemma RangeMeans(host: Host, contract: Contract, before: string, op: Operator, gap: string, numeral: string,
          after: string, m: Metric)
    requires contract.passRange == before + (Symbol(op) + gap + numeral) + after
    requires AllSpace(before) && AllSpace(gap) && AllSpace(after) && Trimmed(numeral) && AllDot(numeral)
    requires numeral != "" && numeral[0] != '=' && !host.number(numeral).NaN? && !NumberOf(host, m).NaN?
    ensures forall submittedAt, submittedBy ::
      Satisfies(TheJudge(host), contract, Some(Evidence(m, submittedAt, submittedBy)))
      <==> Holds(op, NumberOf(host, m), host.number(numeral))
  {
    hide ReadOperator, Trim, Symbol, Holds;
    SpacedRangeReads(before, op, gap, numeral, after);
  }

  /** Spaces around an operator range change nothing. */
  lemma SpacedRangeReads(before: string, op: Operator, gap: string, numeral: string, after: string)
    requires AllSpace(before) && AllSpace(gap) && AllSpace(after) && Trimmed(numeral) && AllDot(numeral)
    requires numeral != "" && numeral[0] != '='
    ensures ReadOperator(Trim(before + (Symbol(op) + gap + numeral) + after)) == Some((op, numeral))
  {
    hide TrimStart, TrimEnd, ReadOperator, Symbol;
    var range := Symbol(op) + gap + numeral;
    SymbolInk(op);
    assert range[0] == Symbol(op)[0] && range[|range| - 1] == numeral[|numeral| - 1];
    assert before + range + after == before + (range + after);
    assert range + after != "" && (range + after)[0] == range[0];
    TrimStartBehind(before, range + after);
    TrimEndBefore(range, after);
    OperatorReadsBack(op, gap, numeral);
  }

  lemma SymbolInk(op: Operator)
    ensures Symbol(op) != "" && !Space(Symbol(op)[0])
  {
  }

  /** Evidence that is no number never passes an operator range, not even "!=". */
  lemma NoNumberNeverPasses(host: Host, contract: Contract, actual: Metric)
    requires ReadOperator(Trim(contract.passRange)).Some? && NumberOf(host, actual).NaN?
    ensures !Judged(host, contract, actual)
  {
  }

  /** Stored null counts as zero: evidence that is not a finite number, once stored, meets the range "== 0". */
  lemma StoredNullMeetsZero(host: Host, contract: Contract, m: Metric)
    requires contract.passRange == "== 0" && host.number("0") == Real(0.0) && !Finite(m)
    ensures Present(m) && !Present(Stored(m)) && Judged(host, contract, Stored(m))
  {
    hide TrimStart, TrimEnd, ReadOperator, Symbol, Leading;
    assert Symbol(Eq) == "==" by { EqSymbol(); }
    assert "" + (Symbol(Eq) + " " + "0") + "" == "== 0";
    RangeMeans(host, contract, "", Eq, " ", "0", "", Stored(m));
    assert Satisfies(TheJudge(host), contract, Some(Evidence(Stored(m), None, None)));
  }

  lemma EqSymbol()
    ensures Symbol(Eq) == "=="
  {
  }

  // ---- in plain terms ----

  /** Between real numbers the operators are the usual relations. */
  lemma RangeOnReals(host: Host, contract: Contract, before: string, op: Operator, gap: string, numeral: string,
          after: string, x: real, y: real)
    requires contract.passRange == before + (Symbol(op) + gap + numeral) + after
    requires AllSpace(before) && AllSpace(gap) && AllSpace(after) && Trimmed(numeral) && AllDot(numeral)
    requires numeral != "" && numeral[0] != '=' && host.number(numeral) == Real(y)
    ensures forall submittedAt, submittedBy ::
      Satisfies(TheJudge(host), contract, Some(Evidence(Numeric(x), submittedAt, submittedBy)))
      <==> match op
           case Ge => x >= y
           case Le => x <= y
           case Gt => x > y
           case Lt => x < y
           case Eq => x == y
           case Ne => x != y
  {
    hide Satisfies;
    RangeMeans(host, contract, before, op, gap, numeral, after, Numeric(x));
  }

  /** Other evidence counts as the number it converts to: true is 1, false is 0, a text what the host reads. */
  lemma ConvertedEvidence(host: Host)
    ensures NumberOf(host, Flag(true)) == Real(1.0) && NumberOf(host, Flag(false)) == Real(0.0)
    ensures forall x: real :: NumberOf(host, Numeric(x)) == Real(x)
    ensures forall s: string :: NumberOf(host, Text(s)) == host.number(s)
    ensures NumberOf(host, NullValue) == Real(0.0) && NumberOf(host, NotANumber) == NaN
    ensures forall p: bool :: NumberOf(host, Infinite(p)) == Infinity(p)
  {
  }

  /** A range without an operator names a value: numbers are compared as numbers, everything else as text. */
  lemma PlainRangeMeans(host: Host, contract: Contract, m: Metric, submittedAt: Option<int>, submittedBy: Option<Agent>)
    requires var range := Trim(contract.passRange); Leading(range).None?
    ensures var range := Trim(contract.passRange);
            Satisfies(TheJudge(host), contract, Some(Evidence(m, submittedAt, submittedBy))) <==>
              match m
              case Undefined => false
              case Text(s) => s == range
              case Flag(b) => range == (if b then "true" else "false")
              case NullValue => range == "null"
              case Numeric(x) =>
                if host.number(range).NaN? then host.show(x) == range else host.number(range) == Real(x)
              case NotANumber => host.number(range).NaN? && range == "NaN"
              case Infinite(p) => if host.number(range).NaN? then range == (if p then "Infinity" else "-Infinity")
                                  else host.number(range) == Infinity(p)
  {
    hide Trim;
  }
}
