/** Which layout a canonical number has, from its value alone (section 3.2.2.3 of RFC 8785). */
module CanonicalLayout {
  import opened Json
  import opened Text
  import opened CanonicalNumber
  import Decimal

  ghost function Magnitude(v: real): real {
    if v < 0.0 then -v else v
  }

  lemma ScaledMonotone(a: int, b: int, e: int)
    requires a < b
    ensures Scaled(a, e) < Scaled(b, e)
  {
    if e >= 0 {
      var p := Decimal.Pow10(e);
      assert b * p - a * p == (b - a) * p > 0;
    }
  }

  lemma PowerMonotone(e: int, f: int)
    requires e <= f
    ensures Scaled(1, e) <= Scaled(1, f)
  {
    hide Scaled;
    ScaledShift(1, e, f - e);
    if Decimal.Pow10(f - e) > 1 {
      ScaledMonotone(1, Decimal.Pow10(f - e), e);
    }
  }

  /** A double with its point after digit `n` lies between two powers of ten. */
  lemma DoubleBounds(digits: string, n: int)
    requires Normalized(digits)
    ensures Scaled(1, n - 1) <= Scaled(Decimal.ValueOf(digits), n - |digits|) < Scaled(1, n)
  {
    hide Scaled, Decimal.Pow10, Decimal.ValueOf;
    var k := |digits|;
    Decimal.ValueBound(digits);
    ScaledShift(1, n - k, k);
    ScaledShift(1, n - k, k - 1);
    ScaledMonotone(Decimal.ValueOf(digits), Decimal.Pow10(k), n - k);
    if Decimal.Pow10(k - 1) < Decimal.ValueOf(digits) {
      ScaledMonotone(Decimal.Pow10(k - 1), Decimal.ValueOf(digits), n - k);
    }
  }

  lemma Landmarks()
    ensures Scaled(1, 21) == 1_000_000_000_000_000_000_000.0
    ensures Scaled(1, -6) == 0.000_001
  {
    assert Decimal.Pow10(6) == 1_000_000;
    Decimal.PowAdds(6, 1);
    Decimal.PowAdds(7, 7);
    Decimal.PowAdds(14, 7);
    assert Decimal.Pow10(21) == 1_000_000_000_000_000_000_000;
  }

  lemma DigitsHaveNoExponent(digits: string)
    requires Decimal.AllDigits(digits)
    ensures 'e' !in digits
  {
  }

  lemma LayoutHasExponent(digits: string, n: int)
    requires Normalized(digits)
    ensures 'e' in Layout(digits, n) <==> n <= -6 || n > 21
  {
    DigitsHaveNoExponent(digits);
    if -6 < n <= 0 {
      DigitsHaveNoExponent(Decimal.Zeros(-n));
    } else if |digits| <= n <= 21 {
      DigitsHaveNoExponent(Decimal.Zeros(n - |digits|));
    } else if n <= -6 || n > 21 {
      assert Layout(digits, n)[|OneDigitPoint(digits)|] == 'e';
    }
  }

  lemma DoubleHasExponent(digits: string, n: int)
    requires Normalized(digits)
    ensures var v := Scaled(Decimal.ValueOf(digits), n - |digits|);
      'e' in Layout(digits, n) <==> v < 0.000_001 || v >= 1_000_000_000_000_000_000_000.0
  {
    hide Scaled, Layout, Decimal.ValueOf;
    LayoutHasExponent(digits, n);
    DoubleBounds(digits, n);
    Landmarks();
    if n <= -6 {
      PowerMonotone(n, -6);
    } else if n <= 21 {
      PowerMonotone(-6, n - 1);
      PowerMonotone(n, 21);
    } else {
      PowerMonotone(21, n - 1);
    }
  }

  /** A number has an exponent exactly when it is not zero, and below 10^-6 or at least 10^21 in magnitude. */
  lemma ExponentIff(x: Number)
    requires Valid(x)
    ensures 'e' in Print(x) <==>
      ValueOf(x) != 0.0 && (Magnitude(ValueOf(x)) < 0.000_001 ||
                            Magnitude(ValueOf(x)) >= 1_000_000_000_000_000_000_000.0)
  {
    hide Scaled, Layout, Decimal.ValueOf;
    match x
    case Exact(i) =>
      DigitsHaveNoExponent(Decimal.Print(if i < 0 then -i else i));
      if i != 0 {
        ExactMagnitude(i);
      }
    case ZeroDouble(_) =>
    case Double(negative, digits, n) =>
      DoubleHasExponent(digits, n);
      PositiveDigits(digits);
      ScaledSign(Decimal.ValueOf(digits), n - |digits|);
  }

  lemma ExactMagnitude(i: int)
    requires -EXACT <= i <= EXACT && i != 0
    ensures 1.0 <= Magnitude(i as real) < 1_000_000_000_000_000_000_000.0
  {
  }

  // ---- The shape of the text ----

  ghost function Unsigned(t: string): string {
    if t != "" && t[0] == '-' then t[1..] else t
  }

  /** No zero ends the fraction, and an exponent follows one digit, not zero, and has no leading zero. */
  ghost predicate IsShortest(t: string) {
    var e := Find(t, 'e');
    var dot := Find(t[..e], '.');
    && (dot < e ==> t[e - 1] != '0')
    && (e < |t| ==> dot == 1 && t[0] != '0' && e + 2 <= |t| && IsWhole(t[e + 2..]))
  }

  lemma WithoutExponent(t: string)
    requires 'e' !in t && ('.' in t ==> t[|t| - 1] != '0')
    ensures IsShortest(t)
  {
    FindIs(t, 'e', |t|);
    assert t[..|t|] == t;
  }

  lemma ScientificIsShortest(digits: string, e: int)
    requires Normalized(digits)
    ensures IsShortest(OneDigitPoint(digits) + "e" + SignedExponent(e))
  {
    var m, x := OneDigitPoint(digits), SignedExponent(e);
    var t := m + "e" + x;
    ExponentIsWhole(e);
    DigitsHaveNoExponent(digits);
    FindIs(t, 'e', |m|);
    assert t[..|m|] == m && t[|m| + 2..] == x[1..];
    FindIs(m, '.', 1);
  }

  lemma ExponentIsWhole(e: int)
    ensures |SignedExponent(e)| > 1 && IsWhole(SignedExponent(e)[1..])
  {
    var n := if e >= 0 then e else -e;
    assert SignedExponent(e)[1..] == Decimal.Print(n);
    assert Decimal.Print(0) == "0";
  }

  lemma LayoutIsShortest(digits: string, n: int)
    requires Normalized(digits)
    ensures IsShortest(Layout(digits, n))
  {
    hide IsShortest;
    LayoutHasExponent(digits, n);
    var t := Layout(digits, n);
    if n <= -6 || n > 21 {
      ScientificIsShortest(digits, n - 1);
    } else if n >= |digits| {
      assert Decimal.AllDigits(t);
      assert '.' !in t;
      WithoutExponent(t);
    } else {
      assert t[|t| - 1] == digits[|digits| - 1];
      WithoutExponent(t);
    }
  }

  lemma DigitsAreShortest(t: string)
    requires Decimal.AllDigits(t)
    ensures IsShortest(t)
  {
    hide IsShortest;
    DigitsHaveNoExponent(t);
    assert '.' !in t;
    WithoutExponent(t);
  }

  lemma SignComesOff(t: string)
    requires t != "" && t[0] != '-'
    ensures Unsigned("-" + t) == t && Unsigned("" + t) == t
  {
    assert ("-" + t)[1..] == t && "" + t == t;
  }

  lemma LayoutStarts(digits: string, n: int)
    requires Normalized(digits)
    ensures Layout(digits, n) != "" && Layout(digits, n)[0] != '-'
  {
  }

  /** The text of a number is as short as its layout allows, and signed exactly when the number is negative. */
  lemma PrintIsShortest(x: Number)
    requires Valid(x)
    ensures IsShortest(Unsigned(Print(x)))
    ensures Print(x) != "" && (Print(x)[0] == '-' <==> ValueOf(x) < 0.0)
  {
    hide Scaled, Layout, Decimal.ValueOf, IsShortest, Unsigned;
    match x
    case Exact(i) =>
      var t := Decimal.Print(if i < 0 then -i else i);
      DigitsAreShortest(t);
      SignComesOff(t);
      assert "" + t == t;
    case ZeroDouble(_) =>
      DigitsAreShortest("0");
      SignComesOff("0");
      assert "" + "0" == "0";
    case Double(negative, digits, n) =>
      LayoutStarts(digits, n);
      SignComesOff(Layout(digits, n));
      LayoutIsShortest(digits, n);
      PositiveDigits(digits);
      ScaledSign(Decimal.ValueOf(digits), n - |digits|);
  }
}
