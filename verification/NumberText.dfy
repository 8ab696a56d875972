/**
 * Finite doubles and the text `String(value)` gives them.
 *
 * A finite non-zero double is represented by the digits the host prints for it: its shortest
 * round-trip decimal 0.d1d2...dk * 10^point with d1 and dk non-zero (ECMA-262, Number::toString,
 * which section 3.2.2.3 of RFC 8785 adopts). Distinct doubles have distinct shortest decimals, so the
 * representation is exact; what is proved here is that the printed layouts never collide.
 */
module NumberText {
  import opened Prelude
  import opened Utf16

  type Digit = d: int | 0 <= d < 10

  datatype Number =
    | NaN
    | Infinity(negative: bool)
    | Zero(negative: bool)
    | Decimal(negative: bool, digits: seq<Digit>, point: int)
  {
    predicate Shortest() {
      Decimal? ==> ShortestDigits(digits)
    }

    predicate Finite() {
      Zero? || Decimal?
    }
  }

  predicate ShortestDigits(digits: seq<Digit>) {
    |digits| > 0 && digits[0] != 0 && digits[|digits| - 1] != 0
  }

  /** Numeric equality on finite numbers: 0 and -0 are the same number. */
  predicate SameNumber(x: Number, y: Number) {
    x == y || (x.Zero? && y.Zero?)
  }

  function DigitsText(digits: seq<Digit>): (t: Text)
    ensures |t| == |digits|
    ensures forall i :: 0 <= i < |digits| ==> t[i] == ZERO + digits[i]
  {
    seq(|digits|, i requires 0 <= i < |digits| => (ZERO + digits[i]) as CodeUnit)
  }

  function Zeros(n: nat): (t: Text)
    ensures |t| == n && forall i :: 0 <= i < n ==> t[i] == ZERO
  {
    seq(n, i => ZERO)
  }

  /** The decimal numeral of a natural number. */
  function NatText(n: nat): (t: Text)
    ensures |t| > 0 && forall i :: 0 <= i < |t| ==> ZERO <= t[i] <= ZERO + 9
  {
    if n < 10 then [ZERO + n] else NatText(n / 10) + [ZERO + n % 10]
  }

  function Mantissa(d: Text): Text
    requires |d| > 0
  {
    if |d| == 1 then d else d[..1] + [DOT] + d[1..]
  }

  function Exponent(e: int): Text {
    if e < 0 then [MINUS] + NatText(-e) else [PLUS] + NatText(e)
  }

  /** The layout of Number::toString for a positive number. */
  function Unsigned(digits: seq<Digit>, point: int): Text
    requires |digits| > 0
  {
    var d := DigitsText(digits);
    var k := |digits|;
    if -5 <= point <= 21 then
      if point >= k then d + Zeros(point - k)
      else if point > 0 then d[..point] + [DOT] + d[point..]
      else [ZERO] + [DOT] + (Zeros(-point) + d)
    else
      Mantissa(d) + [LETTER_E] + Exponent(point - 1)
  }

  /** `String(value)` for a finite number; -0 prints as 0. */
  function NumberToText(x: Number): Text
    requires x.Finite() && x.Shortest()
  {
    if x.Zero? then [ZERO]
    else (if x.negative then [MINUS] else []) + Unsigned(x.digits, x.point)
  }

  predicate NumeralUnit(u: CodeUnit) {
    ZERO <= u <= ZERO + 9 || u == DOT || u == MINUS || u == PLUS || u == LETTER_E
  }

  lemma {:induction false} NatTextInjective(m: nat, n: nat)
    requires NatText(m) == NatText(n)
    ensures m == n
  {
    var s, t := NatText(m), NatText(n);
    assert (m < 10 <==> |s| == 1) && (n < 10 <==> |t| == 1);
    assert s[|s| - 1] == t[|t| - 1];
    if m >= 10 {
      assert s[..|s| - 1] == NatText(m / 10) && t[..|t| - 1] == NatText(n / 10);
      NatTextInjective(m / 10, n / 10);
    }
  }

  lemma MantissaInjective(d: Text, e: Text)
    requires |d| > 0 && |e| > 0 && DOT !in d && DOT !in e
    requires Mantissa(d) == Mantissa(e)
    ensures d == e
  {
    var t := Mantissa(d);
    assert t == Mantissa(e);
    assert (|d| == 1 <==> |t| == 1) && (|e| == 1 <==> |t| == 1);
    if |t| > 1 {
      assert d == t[..1] + t[2..] && e == t[..1] + t[2..];
    }
  }

  lemma ExponentInjective(e: int, f: int)
    requires Exponent(e) == Exponent(f)
    ensures e == f
  {
    assert Exponent(e)[0] == Exponent(f)[0];
    var m := if e < 0 then -e else e;
    var n := if f < 0 then -f else f;
    assert NatText(m) == Exponent(e)[1..] && NatText(n) == Exponent(f)[1..];
    NatTextInjective(m, n);
  }

  lemma DigitsTextInjective(ds: seq<Digit>, es: seq<Digit>)
    requires DigitsText(ds) == DigitsText(es)
    ensures ds == es
  {
    assert |ds| == |es|;
    forall i | 0 <= i < |ds| ensures ds[i] == es[i] {
      assert DigitsText(ds)[i] == DigitsText(es)[i];
    }
  }

  lemma MantissaUnits(d: Text)
    requires |d| > 0 && forall i :: 0 <= i < |d| ==> ZERO <= d[i] <= ZERO + 9
    ensures forall i :: 0 <= i < |Mantissa(d)| ==> ZERO <= Mantissa(d)[i] <= ZERO + 9 || Mantissa(d)[i] == DOT
    ensures |Mantissa(d)| > 0 && Mantissa(d)[0] == d[0]
  {
  }

  lemma ScientificMarks(digits: seq<Digit>, point: int)
    requires ShortestDigits(digits) && !(-5 <= point <= 21)
    ensures var t := Unsigned(digits, point);
            && LETTER_E in t
            && |t| > 0 && t[0] == ZERO + digits[0]
            && (forall i :: 0 <= i < |t| ==> NumeralUnit(t[i]))
  {
    var d := DigitsText(digits);
    var m, e := Mantissa(d), Exponent(point - 1);
    MantissaUnits(d);
    assert forall i :: 0 <= i < |e| ==> NumeralUnit(e[i]);
    var t := m + [LETTER_E] + e;
    assert t[|m|] == LETTER_E;
    assert forall i :: 0 <= i < |t| ==>
      t[i] == if i < |m| then m[i] else if i == |m| then LETTER_E else e[i - |m| - 1];
  }

  lemma FixedMarks(digits: seq<Digit>, point: int)
    requires ShortestDigits(digits) && -5 <= point <= 21
    ensures var t := Unsigned(digits, point);
            && |t| > 0
            && (forall i :: 0 <= i < |t| ==> ZERO <= t[i] <= ZERO + 9 || t[i] == DOT)
            && (t[0] == ZERO <==> point <= 0)
            && t[0] != DOT
            && (DOT in t <==> point < |digits|)
  {
    hide DigitsText, Zeros;
    var d := DigitsText(digits);
    DigitsTextUnits(digits);
    if point >= |digits| {
      PaddedMarks(d, point - |digits|);
    } else if point > 0 {
      SplitMarks(d, point);
    } else {
      SmallMarks(d, -point);
    }
  }

  predicate Decimals(d: Text) {
    forall i :: 0 <= i < |d| ==> ZERO <= d[i] <= ZERO + 9
  }

  lemma DigitsTextUnits(digits: seq<Digit>)
    ensures Decimals(DigitsText(digits)) && |DigitsText(digits)| == |digits|
    ensures digits != [] ==> DigitsText(digits)[0] == ZERO + digits[0]
  {
  }

  lemma PaddedMarks(d: Text, zeros: nat)
    requires Decimals(d) && d != []
    ensures var t := d + Zeros(zeros); t[0] == d[0] && Decimals(t)
  {
  }

  lemma SplitMarks(d: Text, point: nat)
    requires Decimals(d) && 0 < point < |d|
    ensures var t := d[..point] + [DOT] + d[point..];
            t[0] == d[0] && DOT in t && forall i :: 0 <= i < |t| ==> ZERO <= t[i] <= ZERO + 9 || t[i] == DOT
  {
    var t := d[..point] + [DOT] + d[point..];
    assert t[point] == DOT;
    assert forall i :: 0 <= i < |t| && i != point ==> t[i] == if i < point then d[i] else d[i - 1];
  }

  lemma SmallMarks(d: Text, zeros: nat)
    requires Decimals(d)
    ensures var t := [ZERO] + [DOT] + (Zeros(zeros) + d);
            t[0] == ZERO && DOT in t && forall i :: 0 <= i < |t| ==> ZERO <= t[i] <= ZERO + 9 || t[i] == DOT
  {
    var z := Zeros(zeros) + d;
    assert ([ZERO] + [DOT] + z)[1] == DOT;
    assert forall i :: 0 <= i < |z| ==> ZERO <= z[i] <= ZERO + 9;
  }

  /** Where the printed layout has an exponent, and where it has a decimal point. */
  lemma LayoutMarks(digits: seq<Digit>, point: int)
    requires ShortestDigits(digits)
    ensures var t := Unsigned(digits, point);
            && |t| > 0
            && (LETTER_E in t <==> !(-5 <= point <= 21))
            && (-5 <= point <= 21 ==> (DOT in t <==> point < |digits|))
            && MINUS != t[0]
            && (t[0] == ZERO <==> -5 <= point <= 0)
            && (forall u :: u in t ==> NumeralUnit(u))
  {
    hide Unsigned;
    if -5 <= point <= 21 {
      FixedMarks(digits, point);
    } else {
      ScientificMarks(digits, point);
    }
  }

  lemma UnsignedFirst(digits: seq<Digit>, point: int)
    requires |digits| > 0
    ensures var t := Unsigned(digits, point); |t| > 0 && ZERO <= t[0] <= ZERO + 9
  {
    assert DigitsText(digits)[0] == ZERO + digits[0];
  }

  lemma IntegerLayoutInjective(d: Text, m: nat, e: Text, n: nat)
    requires |d| > 0 && |e| > 0 && d[|d| - 1] != ZERO && e[|e| - 1] != ZERO
    requires d + Zeros(m) == e + Zeros(n)
    ensures d == e
  {
    var t := d + Zeros(m);
    assert t == e + Zeros(n);
    assert t[|d| - 1] == d[|d| - 1] && t[|e| - 1] == e[|e| - 1];
    assert forall i :: |d| <= i < |t| ==> t[i] == ZERO;
    assert forall i :: |e| <= i < |t| ==> t[i] == ZERO;
    assert d == t[..|d|] && e == t[..|e|];
  }

  lemma FractionLayoutInjective(d: Text, m: nat, e: Text, n: nat)
    requires |d| > 0 && |e| > 0 && d[0] != ZERO && e[0] != ZERO
    requires Zeros(m) + d == Zeros(n) + e
    ensures d == e && m == n
  {
    var t := Zeros(m) + d;
    assert t == Zeros(n) + e;
    assert t[m] == d[0] && t[n] == e[0];
    assert forall i :: 0 <= i < m ==> t[i] == ZERO;
    assert forall i :: 0 <= i < n ==> t[i] == ZERO;
    assert d == t[m..] && e == t[n..];
  }

  lemma FixedLayoutKinds(ds: seq<Digit>, p: int, es: seq<Digit>, q: int)
    requires ShortestDigits(ds) && ShortestDigits(es)
    requires -5 <= p <= 21 && -5 <= q <= 21
    requires Unsigned(ds, p) == Unsigned(es, q)
    ensures p <= 0 <==> q <= 0
    ensures p < |ds| <==> q < |es|
  {
    hide Unsigned;
    FixedMarks(ds, p);
    FixedMarks(es, q);
  }

  lemma FixedLayoutInjective(ds: seq<Digit>, p: int, es: seq<Digit>, q: int)
    requires ShortestDigits(ds) && ShortestDigits(es)
    requires -5 <= p <= 21 && -5 <= q <= 21
    requires Unsigned(ds, p) == Unsigned(es, q)
    ensures ds == es && p == q
  {
    FixedLayoutKinds(ds, p, es, q);
    var d, e := DigitsText(ds), DigitsText(es);
    if p >= |ds| {
      IntegerLayoutInjective(d, p - |ds|, e, q - |es|);
    } else if p > 0 {
      SplitAtSeparator(d[..p], d[p..], e[..q], e[q..], DOT);
      assert d == d[..p] + d[p..] && e == e[..q] + e[q..];
    } else {
      SplitAtSeparator([ZERO], Zeros(-p) + d, [ZERO], Zeros(-q) + e, DOT);
      FractionLayoutInjective(d, -p, e, -q);
    }
    DigitsTextInjective(ds, es);
  }

  lemma ScientificParts(d: Text, x: Text, e: Text, y: Text)
    requires |d| > 0 && forall i :: 0 <= i < |d| ==> ZERO <= d[i] <= ZERO + 9
    requires |e| > 0 && forall i :: 0 <= i < |e| ==> ZERO <= e[i] <= ZERO + 9
    requires Mantissa(d) + [LETTER_E] + x == Mantissa(e) + [LETTER_E] + y
    ensures d == e && x == y
  {
    hide Mantissa;
    MantissaUnits(d);
    MantissaUnits(e);
    SplitAtSeparator(Mantissa(d), x, Mantissa(e), y, LETTER_E);
    MantissaInjective(d, e);
  }

  lemma ScientificLayoutInjective(ds: seq<Digit>, p: int, es: seq<Digit>, q: int)
    requires ShortestDigits(ds) && ShortestDigits(es)
    requires !(-5 <= p <= 21) && !(-5 <= q <= 21)
    requires Unsigned(ds, p) == Unsigned(es, q)
    ensures ds == es && p == q
  {
    hide Mantissa, Exponent;
    ScientificParts(DigitsText(ds), Exponent(p - 1), DigitsText(es), Exponent(q - 1));
    DigitsTextInjective(ds, es);
    ExponentInjective(p - 1, q - 1);
  }

  /** The text tells which of the two kinds of layout was chosen. */
  lemma SameLayoutKind(ds: seq<Digit>, p: int, es: seq<Digit>, q: int)
    requires ShortestDigits(ds) && ShortestDigits(es)
    requires Unsigned(ds, p) == Unsigned(es, q)
    ensures -5 <= p <= 21 <==> -5 <= q <= 21
  {
    hide Unsigned;
    LayoutMarks(ds, p);
    LayoutMarks(es, q);
  }

  lemma UnsignedInjective(ds: seq<Digit>, p: int, es: seq<Digit>, q: int)
    requires ShortestDigits(ds) && ShortestDigits(es)
    requires Unsigned(ds, p) == Unsigned(es, q)
    ensures ds == es && p == q
  {
    hide Unsigned;
    SameLayoutKind(ds, p, es, q);
    if -5 <= p <= 21 {
      FixedLayoutInjective(ds, p, es, q);
    } else {
      ScientificLayoutInjective(ds, p, es, q);
    }
  }

  lemma SingleZeroIsZero(digits: seq<Digit>, point: int)
    requires ShortestDigits(digits)
    ensures Unsigned(digits, point) != [ZERO]
  {
    LayoutMarks(digits, point);
    if -5 <= point <= 0 {
      assert DOT in Unsigned(digits, point);
    }
  }

  /** Two finite numbers print alike exactly when they are numerically equal. */
  lemma NumberTextInjective(x: Number, y: Number)
    requires x.Finite() && x.Shortest() && y.Finite() && y.Shortest()
    ensures NumberToText(x) == NumberToText(y) <==> SameNumber(x, y)
  {
    hide Unsigned;
    if x.Decimal? {
      SingleZeroIsZero(x.digits, x.point);
      SignReads(x);
    }
    if y.Decimal? {
      SingleZeroIsZero(y.digits, y.point);
      SignReads(y);
    }
    if x.Decimal? && y.Decimal? && NumberToText(x) == NumberToText(y) {
      UnsignedInjective(x.digits, x.point, y.digits, y.point);
    }
  }

  /** The sign and the unsigned numeral can be read off the numeral. */
  lemma SignReads(x: Number)
    requires x.Finite() && x.Shortest() && x.Decimal?
    ensures var s := NumberToText(x);
            && s != [] && (x.negative <==> s[0] == MINUS)
            && Unsigned(x.digits, x.point) == if x.negative then s[1..] else s
  {
    hide Unsigned;
    UnsignedFirst(x.digits, x.point);
  }

  /** A numeral is made of numeral units only, so it never contains a separator. */
  lemma NumberTextUnits(x: Number)
    requires x.Finite() && x.Shortest()
    ensures |NumberToText(x)| > 0
    ensures forall u :: u in NumberToText(x) ==> NumeralUnit(u)
  {
    if x.Decimal? {
      LayoutMarks(x.digits, x.point);
    }
  }
}
