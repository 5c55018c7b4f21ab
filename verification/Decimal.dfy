/** Decimal digits and what they denote. */
module Decimal {
  predicate IsDigit(c: char) { '0' <= c <= '9' }

  predicate AllDigits(s: string) { forall i :: 0 <= i < |s| ==> IsDigit(s[i]) }

  function DigitValue(c: char): (v: nat)
    requires IsDigit(c)
    ensures v < 10
  {
    c as int - '0' as int
  }

  function Digit(v: nat): (c: char)
    requires v < 10
    ensures IsDigit(c) && DigitValue(c) == v
  {
    ('0' as int + v) as char
  }

  /** The number a digit string denotes; the empty string denotes zero. */
  function ValueOf(s: string): nat
    requires AllDigits(s)
  {
    if s == "" then 0 else ValueOf(s[..|s| - 1]) * 10 + DigitValue(s[|s| - 1])
  }

  /** `n` in decimal, without leading zeros. */
  function Print(n: nat): (s: string)
    ensures s != "" && AllDigits(s) && ValueOf(s) == n
    ensures n > 0 ==> s[0] != '0'
  {
    if n < 10 then [Digit(n)] else
      var head := Print(n / 10);
      assert (head + [Digit(n % 10)])[..|head|] == head;
      head + [Digit(n % 10)]
  }

  function Zeros(n: nat): (s: string)
    ensures |s| == n && AllDigits(s) && forall i :: 0 <= i < n ==> s[i] == '0'
  {
    if n == 0 then "" else Zeros(n - 1) + "0"
  }

  function Pow10(n: nat): (p: nat)
    ensures p >= 1
  {
    if n == 0 then 1 else 10 * Pow10(n - 1)
  }

  lemma {:induction false} PowAdds(a: nat, b: nat)
    ensures Pow10(a + b) == Pow10(a) * Pow10(b)
  {
    if a > 0 {
      PowAdds(a - 1, b);
      assert 10 * (Pow10(a - 1) * Pow10(b)) == (10 * Pow10(a - 1)) * Pow10(b);
    }
  }

  /** Trailing zeros scale what a digit string denotes. */
  lemma {:induction false} TrailingZeros(s: string, n: nat)
    requires AllDigits(s)
    ensures ValueOf(s + Zeros(n)) == ValueOf(s) * Pow10(n)
  {
    if n == 0 {
      assert s + "" == s;
    } else {
      TrailingZeros(s, n - 1);
      var t := s + Zeros(n);
      assert t[..|t| - 1] == s + Zeros(n - 1);
    }
  }

  /** Leading zeros do not matter. */
  lemma {:induction false} LeadingZeros(n: nat, s: string)
    requires AllDigits(s)
    ensures ValueOf(Zeros(n) + s) == ValueOf(s)
  {
    if s != "" {
      LeadingZeros(n, s[..|s| - 1]);
      var t := Zeros(n) + s;
      assert t[..|t| - 1] == Zeros(n) + s[..|s| - 1];
    } else if n > 0 {
      LeadingZeros(n - 1, "");
      assert Zeros(n) + "" == Zeros(n) && Zeros(n)[..n - 1] == Zeros(n - 1) + "";
    } else {
      assert Zeros(0) + "" == "";
    }
  }

  lemma {:induction false} ValueBound(s: string)
    requires AllDigits(s)
    ensures ValueOf(s) < Pow10(|s|)
    ensures s != "" && s[0] != '0' ==> ValueOf(s) >= Pow10(|s| - 1)
  {
    if |s| > 0 {
      ValueBound(s[..|s| - 1]);
    }
  }

  lemma {:induction false} PowGrows(a: nat, b: nat)
    requires a <= b
    ensures Pow10(a) <= Pow10(b)
  {
    if a < b {
      PowGrows(a, b - 1);
    }
  }

  /** Two digit strings without leading zeros that denote the same number are the same. */
  lemma {:induction false} DigitsAreUnique(s: string, t: string)
    requires AllDigits(s) && AllDigits(t) && ValueOf(s) == ValueOf(t)
    requires s != "" ==> s[0] != '0'
    requires t != "" ==> t[0] != '0'
    ensures s == t
    decreases |s| + |t|
  {
    ValueBound(s);
    ValueBound(t);
    if s != "" && t != "" {
      SameDigits(s, t);
      var a, b := s[..|s| - 1], t[..|t| - 1];
      if a != "" && b != "" { assert a[0] == s[0] && b[0] == t[0]; }
      DigitsAreUnique(a, b);
      assert s == a + [s[|s| - 1]] && t == b + [t[|t| - 1]];
    }
  }

  lemma SameDigits(s: string, t: string)
    requires AllDigits(s) && AllDigits(t) && ValueOf(s) == ValueOf(t) && s != "" && t != ""
    ensures ValueOf(s[..|s| - 1]) == ValueOf(t[..|t| - 1])
    ensures s[|s| - 1] == t[|t| - 1]
  {
  }
}
