/** The number a numeral denotes, read as the grammar of JSON numbers reads it (RFC 8259, section 6). */
module NumeralValues {
  import opened Prelude
  import opened Utf16
  import opened NumberText

  function Pow10(e: int): real
    decreases if e < 0 then -e else e
  {
    if e == 0 then 1.0 else if e > 0 then 10.0 * Pow10(e - 1) else Pow10(e + 1) / 10.0
  }

  /** n * 10^e */
  function Scaled(n: nat, e: int): real {
    n as real * Pow10(e)
  }

  /** The number a run of digits denotes. */
  function Whole(t: Text): nat
    requires Decimals(t)
  {
    if t == [] then 0 else 10 * Whole(t[..|t| - 1]) + (t[|t| - 1] - ZERO)
  }

  /** How many digits a text begins with. */
  function DigitRun(t: Text): (n: nat)
    ensures n <= |t| && Decimals(t[..n])
  {
    if t != [] && ZERO <= t[0] <= ZERO + 9 then
      assert forall i :: 0 < i < 1 + DigitRun(t[1..]) ==> t[i] == t[1..][..DigitRun(t[1..])][i - 1];
      1 + DigitRun(t[1..])
    else 0
  }

  /** An exponent after its "e": an optional sign and digits to the end. */
  function ReadExponent(t: Text): Option<int> {
    var signed := t != [] && (t[0] == PLUS || t[0] == MINUS);
    var digits := if signed then t[1..] else t;
    if digits == [] || DigitRun(digits) < |digits| then None
    else
      assert digits[..|digits|] == digits;
      var n := Whole(digits) as int;
      Some(if signed && t[0] == MINUS then -n else n)
  }

  /** A numeral's digits before and after the dot, whether there is a dot, and what follows. */
  datatype Parts = Parts(whole: Text, dotted: bool, fraction: Text, rest: Text)

  function PartsOf(t: Text): (p: Parts)
    ensures Decimals(p.whole) && Decimals(p.fraction)
  {
    var n := DigitRun(t);
    if n < |t| && t[n] == DOT then
      var f := DigitRun(t[n + 1..]);
      Parts(t[..n], true, t[n + 1..][..f], t[n + 1..][f..])
    else Parts(t[..n], false, [], t[n..])
  }

  /** Digits without a leading zero, a fraction and an exponent; None on anything else. */
  function ReadParts(p: Parts): Option<real>
    requires Decimals(p.whole) && Decimals(p.fraction)
  {
    if p.whole == [] || (|p.whole| > 1 && p.whole[0] == ZERO) || (p.dotted && p.fraction == []) then None
    else
      var e := if p.rest == [] then Some(0) else if p.rest[0] == LETTER_E then ReadExponent(p.rest[1..]) else None;
      if e.None? then None else Some(Scaled(Whole(p.whole + p.fraction), e.value - |p.fraction|))
  }

  function ReadUnsigned(t: Text): Option<real> {
    ReadParts(PartsOf(t))
  }

  function ReadNumeral(t: Text): Option<real> {
    if t != [] && t[0] == MINUS then
      match ReadUnsigned(t[1..]) {
        case None => None
        case Some(v) => Some(-v)
      }
    else ReadUnsigned(t)
  }

  /** The value 0.d1..dk * 10^point of a finite number, with its sign. */
  function ValueOf(x: Number): real
    requires x.Finite()
  {
    match x
    case Zero(_) => 0.0
    case Decimal(negative, digits, point) =>
      DigitsTextUnits(digits);
      var v := Scaled(Whole(DigitsText(digits)), point - |digits|);
      if negative then -v else v
  }

  // ---- reading what is printed ----

  lemma {:induction false} RunEnds(a: Text, b: Text)
    requires Decimals(a) && (b == [] || !(ZERO <= b[0] <= ZERO + 9))
    ensures DigitRun(a + b) == |a|
  {
    if a == [] {
      assert a + b == b;
    } else {
      assert (a + b)[0] == a[0] && (a + b)[1..] == a[1..] + b;
      RunEnds(a[1..], b);
    }
  }

  lemma ScaledStep(n: nat, z: nat)
    requires z > 0
    ensures Scaled(n, z) == Scaled(10 * n, z - 1)
  {
    var p := Pow10(z - 1);
    assert Pow10(z) == 10.0 * p;
    assert n as real * (10.0 * p) == (10.0 * n as real) * p;
  }

  lemma Unscaled(n: nat)
    ensures Scaled(n, 0) == n as real
  {
  }

  /** A zero at the end is a factor of ten. */
  lemma {:induction false} ZerosScale(d: Text, z: nat)
    requires Decimals(d)
    ensures Decimals(d + Zeros(z)) && Whole(d + Zeros(z)) as real == Scaled(Whole(d), z)
    decreases z
  {
    hide Scaled;
    if z == 0 {
      assert d + Zeros(0) == d;
      Unscaled(Whole(d));
    } else {
      var e := d + [ZERO];
      assert e[..|d|] == d;
      ZerosScale(e, z - 1);
      assert d + Zeros(z) == e + Zeros(z - 1);
      ScaledStep(Whole(d), z);
    }
  }

  lemma {:induction false} LeadingZeros(z: Text, d: Text)
    requires (forall i :: 0 <= i < |z| ==> z[i] == ZERO) && Decimals(d)
    ensures Decimals(z + d) && Whole(z + d) == Whole(d)
  {
    if d != [] {
      LeadingZeros(z, d[..|d| - 1]);
      assert (z + d)[..|z + d| - 1] == z + d[..|d| - 1];
    } else if z != [] {
      LeadingZeros(z[..|z| - 1], []);
      assert z + d == z && z[..|z| - 1] + [] == z[..|z| - 1];
    }
  }

  lemma {:induction false} NatTextReads(n: nat)
    ensures Decimals(NatText(n)) && Whole(NatText(n)) == n
  {
    var t := NatText(n);
    if n >= 10 {
      NatTextReads(n / 10);
      assert t[..|t| - 1] == NatText(n / 10);
    } else {
      assert t[..0] == [];
    }
  }

  lemma ExponentReads(e: int)
    ensures ReadExponent(Exponent(e)) == Some(e)
  {
    hide NatText, Whole;
    var n := if e < 0 then -e else e;
    var t := Exponent(e);
    NatTextReads(n);
    assert t[1..] == NatText(n);
    RunEnds(NatText(n), []);
    assert NatText(n) + [] == NatText(n);
  }

  lemma PlainParts(a: Text, rest: Text)
    requires Decimals(a) && (rest == [] || (rest[0] != DOT && !(ZERO <= rest[0] <= ZERO + 9)))
    ensures PartsOf(a + rest) == Parts(a, false, [], rest)
  {
    hide DigitRun;
    RunEnds(a, rest);
    assert (a + rest)[..|a|] == a && (a + rest)[|a|..] == rest;
  }

  lemma DottedParts(a: Text, b: Text, rest: Text)
    requires Decimals(a) && Decimals(b) && (rest == [] || !(ZERO <= rest[0] <= ZERO + 9))
    ensures PartsOf(a + ([DOT] + (b + rest))) == Parts(a, true, b, rest)
  {
    hide DigitRun;
    var t := a + ([DOT] + (b + rest));
    RunEnds(a, [DOT] + (b + rest));
    RunEnds(b, rest);
    assert t[..|a|] == a && t[|a| + 1..] == b + rest;
    assert (b + rest)[..|b|] == b && (b + rest)[|b|..] == rest;
  }

  lemma NoFraction(a: Text)
    ensures a + [] == a
  {
  }

  /** Digits alone. */
  lemma WholeReads(t: Text)
    requires Decimals(t) && t != [] && t[0] != ZERO
    ensures ReadUnsigned(t) == Some(Whole(t) as real)
  {
    hide Whole, Scaled, PartsOf;
    PlainParts(t, []);
    NoFraction(t);
    Unscaled(Whole(t));
  }

  /** Digits, a dot, digits. */
  lemma FractionReads(a: Text, b: Text)
    requires Decimals(a) && Decimals(b) && a != [] && b != [] && (a[0] == ZERO ==> |a| == 1)
    ensures Decimals(a + b) && ReadUnsigned(a + [DOT] + b) == Some(Scaled(Whole(a + b), -|b|))
  {
    hide Whole, Scaled, PartsOf;
    DottedParts(a, b, []);
    NoFraction(b);
    assert a + [DOT] + b == a + ([DOT] + b);
  }

  /** One digit, perhaps a fraction, and an exponent. */
  lemma ScientificReads(d: Text, e: int)
    requires Decimals(d) && d != [] && d[0] != ZERO
    ensures ReadUnsigned(Mantissa(d) + [LETTER_E] + Exponent(e)) == Some(Scaled(Whole(d), e - |d| + 1))
  {
    hide *;
    var exp := [LETTER_E] + Exponent(e);
    ScientificParts(d, exp);
    ReadsParts(Mantissa(d), exp);
    if |d| == 1 {
      NoFraction(d);
      PowerRead(d, false, [], e);
    } else {
      PowerRead(d[..1], true, d[1..], e);
      FirstAndRest(d);
    }
    assert Mantissa(d) + [LETTER_E] + Exponent(e) == Mantissa(d) + exp;
  }

  lemma ReadsParts(a: Text, b: Text)
    ensures ReadUnsigned(a + b) == ReadParts(PartsOf(a + b))
  {
  }

  lemma FirstAndRest(d: Text)
    requires d != []
    ensures d[..1] + d[1..] == d
  {
  }

  lemma ScientificParts(d: Text, exp: Text)
    requires Decimals(d) && d != [] && exp != [] && exp[0] == LETTER_E
    ensures PartsOf(Mantissa(d) + exp)
              == if |d| == 1 then Parts(d, false, [], exp) else Parts(d[..1], true, d[1..], exp)
    ensures |d| > 1 ==> Decimals(d[..1]) && Decimals(d[1..])
  {
    hide PartsOf;
    if |d| == 1 {
      PlainParts(d, exp);
    } else {
      DottedParts(d[..1], d[1..], exp);
      assert Mantissa(d) + exp == d[..1] + ([DOT] + (d[1..] + exp));
    }
  }

  lemma PowerRead(a: Text, dotted: bool, b: Text, e: int)
    requires Decimals(a) && Decimals(b) && |a| == 1 && (dotted <==> b != [])
    ensures Decimals(a + b)
    ensures ReadParts(Parts(a, dotted, b, [LETTER_E] + Exponent(e))) == Some(Scaled(Whole(a + b), e - |b|))
  {
    hide Whole, Scaled, Exponent, ReadExponent;
    ExponentReads(e);
    assert ([LETTER_E] + Exponent(e))[1..] == Exponent(e);
  }

  lemma UnsignedReads(digits: seq<Digit>, point: int)
    requires ShortestDigits(digits)
    ensures Decimals(DigitsText(digits))
    ensures ReadUnsigned(Unsigned(digits, point)) == Some(Scaled(Whole(DigitsText(digits)), point - |digits|))
  {
    hide Whole, Scaled, ReadUnsigned, DigitsText, Zeros, Mantissa, Exponent, Decimals;
    var d, k := DigitsText(digits), |digits|;
    DigitsTextUnits(digits);
    if !(-5 <= point <= 21) {
      ScientificReads(d, point - 1);
    } else if point >= k {
      PaddedReads(d, point - k);
    } else if point > 0 {
      PointedReads(d, point);
    } else {
      SmallReads(d, -point);
    }
  }

  /** Zeros after the last digit. */
  lemma PaddedReads(d: Text, zeros: nat)
    requires Decimals(d) && d != [] && d[0] != ZERO
    ensures ReadUnsigned(d + Zeros(zeros)) == Some(Scaled(Whole(d), zeros))
  {
    hide Whole, Scaled, ReadUnsigned, Zeros, Decimals;
    ZerosScale(d, zeros);
    WholeReads(d + Zeros(zeros));
  }

  /** A point between two digits. */
  lemma PointedReads(d: Text, point: nat)
    requires Decimals(d) && 0 < point < |d| && d[0] != ZERO
    ensures ReadUnsigned(d[..point] + [DOT] + d[point..]) == Some(Scaled(Whole(d), point - |d|))
  {
    hide Whole, Scaled, ReadUnsigned;
    FractionReads(d[..point], d[point..]);
    assert d[..point] + d[point..] == d;
  }

  /** Zeros between the point and the first digit. */
  lemma SmallReads(d: Text, zeros: nat)
    requires Decimals(d) && d != []
    ensures ReadUnsigned([ZERO] + [DOT] + (Zeros(zeros) + d)) == Some(Scaled(Whole(d), 0 - zeros - |d|))
  {
    hide Whole, Scaled, ReadUnsigned;
    LeadingZeros([ZERO] + Zeros(zeros), d);
    LeadingZeros(Zeros(zeros), d);
    FractionReads([ZERO], Zeros(zeros) + d);
    assert [ZERO] + (Zeros(zeros) + d) == [ZERO] + Zeros(zeros) + d;
  }

  /** Every printed finite number reads back as its own value. */
  lemma NumeralDenotesValue(x: Number)
    requires x.Finite() && x.Shortest()
    ensures ReadNumeral(NumberToText(x)) == Some(ValueOf(x))
  {
    hide Whole, Scaled, ReadUnsigned, Unsigned;
    if x.Zero? {
      ZeroReads();
    } else {
      UnsignedReads(x.digits, x.point);
      SignReads(x);
    }
  }

  lemma ZeroReads()
    ensures ReadUnsigned([ZERO]) == Some(0.0)
  {
    hide PartsOf;
    PlainParts([ZERO], []);
    NoFraction([ZERO]);
    assert [ZERO][..0] == [] && Whole([ZERO]) == 0;
  }
}
