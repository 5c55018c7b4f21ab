/**
 Numbers in canonical JSON (section 3.2.2.3 of RFC 8785): the ECMAScript
 `Number.prototype.toString` layouts of `es_number`, and the exact integers.
 */
module CanonicalNumber {
  import opened Json
  import opened Text
  import Decimal

  /** Integers at most this far from zero print exactly. */
  const EXACT: int := 0x20_0000_0000_0000

  /** Shortest digits never start or end with a zero. */
  predicate Normalized(digits: string) {
    && digits != "" && Decimal.AllDigits(digits)
    && digits[0] != '0' && digits[|digits| - 1] != '0'
  }

  predicate Valid(x: Number) {
    match x
    case Exact(i) => -EXACT <= i <= EXACT
    case ZeroDouble(_) => true
    case Double(_, digits, _) => Normalized(digits)
  }

  /** The layout of a positive double with these digits. */
  function Layout(digits: string, n: int): string
    requires Normalized(digits)
  {
    var k := |digits|;
    if k <= n <= 21 then digits + Decimal.Zeros(n - k)
    else if 0 < n <= 21 then digits[..n] + "." + digits[n..]
    else if -6 < n <= 0 then "0." + Decimal.Zeros(-n) + digits
    else OneDigitPoint(digits) + "e" + SignedExponent(n - 1)
  }

  /** The digits with a point after the first, if others follow it. */
  function OneDigitPoint(digits: string): string
    requires digits != ""
  {
    if |digits| == 1 then digits else digits[..1] + "." + digits[1..]
  }

  function SignedExponent(e: int): string {
    if e >= 0 then "+" + Decimal.Print(e) else "-" + Decimal.Print(-e)
  }

  function Integer(i: int): string {
    if i < 0 then "-" + Decimal.Print(-i) else Decimal.Print(i)
  }

  function Print(x: Number): string
    requires Valid(x)
  {
    match x
    case Exact(i) => Integer(i)
    case ZeroDouble(_) => "0"
    case Double(negative, digits, n) => (if negative then "-" else "") + Layout(digits, n)
  }

  // ---- What numbers and their texts denote ----

  /** `m * 10^e` */
  ghost function Scaled(m: int, e: int): real {
    if e >= 0 then (m * Decimal.Pow10(e)) as real
    else m as real / Decimal.Pow10(-e) as real
  }

  ghost function ValueOf(x: Number): real
    requires Valid(x)
  {
    match x
    case Exact(i) => i as real
    case ZeroDouble(_) => 0.0
    case Double(negative, digits, n) =>
      var v: int := Decimal.ValueOf(digits);
      Scaled(if negative then -v else v, n - |digits|)
  }

  /** A number in the grammar of section 6 of RFC 8259, with a signed exponent if it has one. */
  ghost predicate IsDecimal(t: string) {
    var u := if t != "" && t[0] == '-' then t[1..] else t;
    var e := Find(u, 'e');
    && IsMantissa(u[..e])
    && (e < |u| ==>
      && |u| > e + 2 && (u[e + 1] == '+' || u[e + 1] == '-')
      && Decimal.AllDigits(u[e + 2..]))
  }

  ghost predicate IsMantissa(m: string) {
    var dot := Find(m, '.');
    && IsWhole(m[..dot])
    && (dot < |m| ==> m[dot + 1..] != "" && Decimal.AllDigits(m[dot + 1..]))
  }

  /** Digits, of which the first is no zero unless it is the only one. */
  predicate IsWhole(t: string) {
    t != "" && Decimal.AllDigits(t) && (t == "0" || t[0] != '0')
  }

  /** The digits of a mantissa, and how many of them follow the point. */
  ghost function MantissaDigits(m: string): nat
    requires IsMantissa(m)
  {
    var dot := Find(m, '.');
    Decimal.ValueOf(if dot < |m| then m[..dot] + m[dot + 1..] else m)
  }

  ghost function Fraction(m: string): int {
    var dot := Find(m, '.');
    if dot < |m| then |m| - dot - 1 else 0
  }

  ghost function Exponent(t: string): int
    requires |t| > 0 && Decimal.AllDigits(t[1..])
  {
    var v: int := Decimal.ValueOf(t[1..]);
    if t[0] == '-' then -v else v
  }

  /** What a decimal text denotes. */
  ghost function TextValue(t: string): real
    requires IsDecimal(t)
  {
    var negative := t != "" && t[0] == '-';
    var u := if negative then t[1..] else t;
    var e := Find(u, 'e');
    var m: int := MantissaDigits(u[..e]);
    var exponent := if e < |u| then Exponent(u[e + 1..]) else 0;
    Scaled(if negative then -m else m, exponent - Fraction(u[..e]))
  }

  // ---- Scaling ----

  lemma ScaledShift(m: int, e: int, k: nat)
    ensures Scaled(m * Decimal.Pow10(k), e) == Scaled(m, e + k)
  {
    hide Decimal.Pow10;
    var p := Decimal.Pow10(k);
    if e >= 0 {
      Decimal.PowAdds(e, k);
      Regroup(m, p, Decimal.Pow10(e));
    } else if e + k >= 0 {
      Decimal.PowAdds(e + k, -e);
      DivideOut(m * Decimal.Pow10(e + k), Decimal.Pow10(-e));
      Regroup(m, Decimal.Pow10(-e), Decimal.Pow10(e + k));
    } else {
      Decimal.PowAdds(-e - k, k);
      CancelFactor(m, p, Decimal.Pow10(-e - k));
    }
  }

  lemma Regroup(m: int, p: nat, q: nat)
    ensures m * p * q == m * (q * p) == m * q * p
  {
  }

  lemma DivideOut(a: int, b: nat)
    requires b > 0
    ensures (a * b) as real / b as real == a as real
  {
    assert (a * b) as real == a as real * b as real;
  }

  lemma CancelFactor(m: int, p: nat, q: nat)
    requires p > 0 && q > 0
    ensures (m * p) as real / (q * p) as real == m as real / q as real
  {
    var x, y, z := m as real, p as real, q as real;
    assert (m * p) as real == x * y && (q * p) as real == z * y;
    assert z * y > 0.0;
    assert x / z * (z * y) == x * y by {
      assert x / z * z == x;
      assert x / z * (z * y) == (x / z * z) * y;
    }
  }

  lemma ScaledZeroExponent(m: int)
    ensures Scaled(m, 0) == m as real
  {
  }

  /** Equal values at different scales differ by a power of ten. */
  lemma ScaledEqual(m: int, e: int, m': int, e': int)
    requires e <= e' && Scaled(m, e) == Scaled(m', e')
    ensures m == m' * Decimal.Pow10(e' - e)
  {
    ScaledShift(m', e, e' - e);
    ScaledInjective(m, m' * Decimal.Pow10(e' - e), e);
  }

  lemma ScaledInjective(m: int, m': int, e: int)
    requires Scaled(m, e) == Scaled(m', e)
    ensures m == m'
  {
    if e >= 0 {
      var p := Decimal.Pow10(e);
      assert (m - m') * p == m * p - m' * p == 0;
    } else {
      var p := Decimal.Pow10(-e) as real;
      assert m as real / p * p == m as real && m' as real / p * p == m' as real;
    }
  }

  // ---- The printed text denotes the number ----

  /** A text without a point or an exponent. */
  lemma PlainDigits(t: string)
    requires IsWhole(t)
    ensures IsDecimal(t) && TextValue(t) == Scaled(Decimal.ValueOf(t), 0)
  {
    hide Scaled, Decimal.Pow10;
    FindIs(t, 'e', |t|);
    FindIs(t, '.', |t|);
    assert t[..|t|] == t;
  }

  lemma Pointed(a: string, b: string)
    requires IsWhole(a) && Decimal.AllDigits(b) && b != ""
    ensures var m := a + "." + b;
      IsMantissa(m) && MantissaDigits(m) == Decimal.ValueOf(a + b) && Fraction(m) == |b|
      && Find(m, 'e') == |m|
  {
    var m := a + "." + b;
    FindIs(m, '.', |a|);
    FindIs(m, 'e', |m|);
    assert m[..|a|] == a && m[|a| + 1..] == b;
  }

  lemma Unpointed(a: string)
    requires IsWhole(a)
    ensures IsMantissa(a) && MantissaDigits(a) == Decimal.ValueOf(a) && Fraction(a) == 0
    ensures Find(a, 'e') == |a|
  {
    FindIs(a, '.', |a|);
    FindIs(a, 'e', |a|);
    assert a[..|a|] == a;
  }

  lemma MantissaOnly(m: string)
    requires m != "" && m[0] != '-' && IsMantissa(m) && Find(m, 'e') == |m|
    ensures IsDecimal(m) && TextValue(m) == Scaled(MantissaDigits(m), -Fraction(m))
  {
    hide Scaled, IsMantissa, MantissaDigits, Fraction, Find, Decimal.Pow10, Decimal.ValueOf, Decimal.AllDigits,
      Exponent;
    var whole := m[..|m|];
    assert whole == m;
    assert TextValue(m) == Scaled(MantissaDigits(whole), 0 - Fraction(whole));
  }

  lemma ExponentDenotes(e: int)
    ensures var x := SignedExponent(e);
      |x| > 1 && (x[0] == '+' || x[0] == '-') && Decimal.AllDigits(x[1..]) && Exponent(x) == e
  {
    assert SignedExponent(e)[1..] == Decimal.Print(if e >= 0 then e else -e);
  }

  lemma WithExponent(m: string, e: int, v: nat, f: int)
    requires m != "" && m[0] != '-' && IsMantissa(m) && Find(m, 'e') == |m|
    requires MantissaDigits(m) == v && e - Fraction(m) == f
    ensures var t := m + "e" + SignedExponent(e);
      IsDecimal(t) && t[0] == m[0] && TextValue(t) == Scaled(v, f)
  {
    hide Scaled, IsMantissa, MantissaDigits, Fraction, Find, Exponent, SignedExponent, Decimal.Pow10;
    var x := SignedExponent(e);
    ExponentDenotes(e);
    var t := m + "e" + x;
    FindIs(t, 'e', |m|);
    assert t[..|m|] == m && t[|m| + 1..] == x && t[|m| + 2..] == x[1..];
  }

  lemma IntegralLayout(digits: string, n: int)
    requires Normalized(digits) && |digits| <= n
    ensures var t := digits + Decimal.Zeros(n - |digits|);
      IsDecimal(t) && t[0] != '-' && TextValue(t) == Scaled(Decimal.ValueOf(digits), n - |digits|)
  {
    hide Scaled, TextValue, IsDecimal, Decimal.Pow10, Decimal.ValueOf;
    PlainDigits(digits + Decimal.Zeros(n - |digits|));
    Decimal.TrailingZeros(digits, n - |digits|);
    ScaledShift(Decimal.ValueOf(digits), 0, n - |digits|);
  }

  lemma PointLayout(digits: string, n: int)
    requires Normalized(digits) && 0 < n < |digits|
    ensures var t := digits[..n] + "." + digits[n..];
      IsDecimal(t) && t[0] != '-' && TextValue(t) == Scaled(Decimal.ValueOf(digits), n - |digits|)
  {
    hide Scaled, TextValue, IsDecimal, IsMantissa, MantissaDigits, Fraction, Find, Decimal.ValueOf;
    Pointed(digits[..n], digits[n..]);
    MantissaOnly(digits[..n] + "." + digits[n..]);
    assert digits[..n] + digits[n..] == digits;
  }

  /** Each layout denotes its digits times a power of ten. */
  lemma LayoutDenotes(digits: string, n: int)
    requires Normalized(digits)
    ensures var t := Layout(digits, n);
      IsDecimal(t) && t != "" && t[0] != '-'
      && TextValue(t) == Scaled(Decimal.ValueOf(digits), n - |digits|)
  {
    hide Scaled, TextValue, IsDecimal, IsMantissa, MantissaDigits, Fraction, Find, Decimal.Pow10, Decimal.ValueOf;
    if |digits| <= n <= 21 {
      IntegralLayout(digits, n);
    } else if 0 < n <= 21 {
      PointLayout(digits, n);
    } else if -6 < n <= 0 {
      SmallLayout(digits, n);
    } else {
      ScientificLayout(digits, n);
    }
  }

  lemma SmallLayout(digits: string, n: int)
    requires Normalized(digits) && -6 < n <= 0
    ensures var t := "0." + Decimal.Zeros(-n) + digits;
      IsDecimal(t) && t[0] != '-' && TextValue(t) == Scaled(Decimal.ValueOf(digits), n - |digits|)
  {
    hide Scaled, TextValue, IsDecimal, IsMantissa, MantissaDigits, Fraction, Find, Decimal.Pow10, Decimal.ValueOf;
    var b := Decimal.Zeros(-n) + digits;
    Pointed("0", b);
    MantissaOnly("0" + "." + b);
    Decimal.LeadingZeros(-n + 1, digits);
    assert Decimal.Zeros(-n + 1) + digits == "0" + b;
    assert "0" + "." + b == "0." + Decimal.Zeros(-n) + digits;
  }

  lemma ScientificLayout(digits: string, n: int)
    requires Normalized(digits)
    ensures var t := OneDigitPoint(digits) + "e" + SignedExponent(n - 1);
      IsDecimal(t) && t[0] != '-' && TextValue(t) == Scaled(Decimal.ValueOf(digits), n - |digits|)
  {
    hide Scaled, TextValue, IsDecimal, IsMantissa, MantissaDigits, Fraction, Find, Decimal.Pow10, Decimal.ValueOf,
      SignedExponent, OneDigitPoint;
    OneDigitMantissa(digits);
    WithExponent(OneDigitPoint(digits), n - 1, Decimal.ValueOf(digits), n - |digits|);
  }

  /** A mantissa with all but its first digit after the point. */
  lemma OneDigitMantissa(digits: string)
    requires Normalized(digits)
    ensures var m := OneDigitPoint(digits);
      && m != "" && m[0] != '-' && IsMantissa(m) && Find(m, 'e') == |m|
      && MantissaDigits(m) == Decimal.ValueOf(digits) && Fraction(m) == |digits| - 1
  {
    hide IsMantissa, MantissaDigits, Fraction, Find;
    if |digits| == 1 {
      Unpointed(digits);
    } else {
      Pointed(digits[..1], digits[1..]);
      assert digits[..1] + digits[1..] == digits;
    }
  }

  lemma Negated(t: string)
    requires IsDecimal(t) && t != "" && t[0] != '-'
    ensures IsDecimal("-" + t) && TextValue("-" + t) == -TextValue(t)
  {
    hide Scaled, IsMantissa, MantissaDigits, Fraction, Find, Exponent, Decimal.ValueOf;
    var u := "-" + t;
    assert u[1..] == t;
    var e := Find(t, 'e');
    ScaledSign(MantissaDigits(t[..e]), (if e < |t| then Exponent(t[e + 1..]) else 0) - Fraction(t[..e]));
  }

  lemma ZeroDenotes()
    ensures IsDecimal("0") && TextValue("0") == 0.0
  {
    PlainDigits("0");
    assert Decimal.ValueOf("0") == 0 by { assert "0"[..0] == ""; }
  }

  /** Every printed number is a decimal text that denotes it. */
  lemma PrintDenotes(x: Number)
    requires Valid(x)
    ensures IsDecimal(Print(x)) && TextValue(Print(x)) == ValueOf(x)
  {
    hide Scaled, TextValue, IsDecimal, IsMantissa, MantissaDigits, Fraction, Find, Decimal.Pow10, Decimal.ValueOf,
      Layout;
    match x
    case Exact(i) =>
      var t := Decimal.Print(if i < 0 then -i else i);
      PlainDigits(t);
      ScaledZeroExponent(if i < 0 then -i else i);
      if i < 0 {
        Negated(t);
      }
    case ZeroDouble(_) =>
      ZeroDenotes();
    case Double(negative, digits, n) =>
      LayoutDenotes(digits, n);
      ScaledSign(Decimal.ValueOf(digits), n - |digits|);
      if negative {
        Negated(Layout(digits, n));
      } else {
        assert "" + Layout(digits, n) == Layout(digits, n);
      }
  }

  // ---- Numbers that denote the same value print the same ----

  lemma TenTimes(m: nat, k: nat)
    requires k > 0
    ensures m * Decimal.Pow10(k) == 10 * (m * Decimal.Pow10(k - 1))
  {
    var p := Decimal.Pow10(k - 1);
    assert Decimal.Pow10(k) == 10 * p;
  }

  /** Digits that do not end in zero are no multiple of ten. */
  lemma NotDivisible(digits: string, m: nat, k: nat)
    requires Normalized(digits) && k > 0
    ensures Decimal.ValueOf(digits) != m * Decimal.Pow10(k)
  {
    hide Decimal.Pow10;
    var a := Decimal.ValueOf(digits[..|digits| - 1]);
    var q := m * Decimal.Pow10(k - 1);
    TenTimes(m, k);
    var d := Decimal.DigitValue(digits[|digits| - 1]);
    assert 10 * (q - a) != d;
  }

  lemma NormalFormIsUnique(a: string, e: int, b: string, f: int)
    requires Normalized(a) && Normalized(b)
    requires Scaled(Decimal.ValueOf(a), e) == Scaled(Decimal.ValueOf(b), f)
    ensures a == b && e == f
  {
    hide Scaled, Decimal.Pow10;
    if e < f {
      ScaledEqual(Decimal.ValueOf(a), e, Decimal.ValueOf(b), f);
      NotDivisible(a, Decimal.ValueOf(b), f - e);
    } else if f < e {
      ScaledEqual(Decimal.ValueOf(b), f, Decimal.ValueOf(a), e);
      NotDivisible(b, Decimal.ValueOf(a), e - f);
    } else {
      ScaledInjective(Decimal.ValueOf(a), Decimal.ValueOf(b), e);
      Decimal.DigitsAreUnique(a, b);
    }
  }

  lemma ScaledSign(m: int, e: int)
    ensures m > 0 ==> Scaled(m, e) > 0.0
    ensures m < 0 ==> Scaled(m, e) < 0.0
    ensures m == 0 ==> Scaled(m, e) == 0.0
    ensures Scaled(-m, e) == -Scaled(m, e)
  {
    if e >= 0 {
      var p := Decimal.Pow10(e);
      assert m > 0 ==> m * p > 0;
      assert m < 0 ==> m * p < 0;
      assert (-m) * p == -(m * p);
    }
  }

  /** A double that denotes an integer has no digits after the point. */
  lemma IntegerHasNoFraction(i: nat, digits: string, n: int)
    requires Normalized(digits) && Scaled(Decimal.ValueOf(digits), n - |digits|) == i as real
    ensures |digits| <= n && Decimal.ValueOf(digits + Decimal.Zeros(n - |digits|)) == i
  {
    hide Scaled, Decimal.Pow10, Decimal.ValueOf, Decimal.Zeros;
    var v, k := Decimal.ValueOf(digits), |digits|;
    ScaledZeroExponent(i);
    if n < k {
      ScaledEqual(v, n - k, i, 0);
      NotDivisible(digits, i, k - n);
    } else {
      ScaledEqual(i, 0, v, n - k);
      Decimal.TrailingZeros(digits, n - k);
    }
  }

  /** A double that denotes a small positive integer prints like the integer. */
  lemma IntegerLayout(i: nat, digits: string, n: int)
    requires 0 < i <= EXACT && Normalized(digits)
    requires Scaled(Decimal.ValueOf(digits), n - |digits|) == i as real
    ensures Layout(digits, n) == Decimal.Print(i)
  {
    hide Scaled, Decimal.Pow10, Decimal.ValueOf, Decimal.Zeros, Decimal.Print;
    IntegerHasNoFraction(i, digits, n);
    var t := digits + Decimal.Zeros(n - |digits|);
    Decimal.ValueBound(t);
    if n > 21 {
      Decimal.PowGrows(21, n - 1);
      BigPower();
    }
    Decimal.DigitsAreUnique(t, Decimal.Print(i));
  }

  lemma BigPower()
    ensures Decimal.Pow10(21) > EXACT
  {
    assert Decimal.Pow10(7) == 10000000;
    Decimal.PowAdds(7, 7);
    Decimal.PowAdds(14, 7);
  }

  lemma PositiveDigits(digits: string)
    requires Normalized(digits)
    ensures Decimal.ValueOf(digits) > 0
  {
    Decimal.ValueBound(digits);
  }

  lemma SameValueSameText(x: Number, y: Number)
    requires Valid(x) && Valid(y) && ValueOf(x) == ValueOf(y)
    ensures Print(x) == Print(y)
  {
    hide Scaled, Layout, Decimal.ValueOf;
    if x.Double? {
      PositiveDigits(x.digits);
      ScaledSign(Decimal.ValueOf(x.digits), x.n - |x.digits|);
    }
    if y.Double? {
      PositiveDigits(y.digits);
      ScaledSign(Decimal.ValueOf(y.digits), y.n - |y.digits|);
    }
    if x.Double? && y.Double? {
      NormalFormIsUnique(x.digits, x.n - |x.digits|, y.digits, y.n - |y.digits|);
    } else if x.Double? {
      MixedText(x, y);
    } else if y.Double? {
      MixedText(y, x);
    } else {
      assert Integer(0) == "0";
    }
  }

  lemma MixedText(x: Number, y: Number)
    requires Valid(x) && Valid(y) && x.Double? && !y.Double? && ValueOf(x) == ValueOf(y)
    ensures Print(x) == Print(y)
  {
    hide Scaled, Decimal.Pow10;
    PositiveDigits(x.digits);
    ScaledSign(Decimal.ValueOf(x.digits), x.n - |x.digits|);
    var i := if x.negative then -y.i else y.i;
    assert i > 0;
    IntegerLayout(i, x.digits, x.n);
  }

  /** Two numbers print the same text exactly when they denote the same value. */
  lemma SameTextIffSameValue(x: Number, y: Number)
    requires Valid(x) && Valid(y)
    ensures Print(x) == Print(y) <==> ValueOf(x) == ValueOf(y)
  {
    PrintDenotes(x);
    PrintDenotes(y);
    if ValueOf(x) == ValueOf(y) {
      SameValueSameText(x, y);
    }
  }
}
