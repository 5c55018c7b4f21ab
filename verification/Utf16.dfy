/** Keys in the order canonical JSON sorts them: by UTF-16 code units. */
module Utf16 {
  function Units(c: char): (u: seq<int>)
    ensures |u| > 0
  {
    var x := c as int;
    if x < 0x10000 then [x]
    else [0xD800 + (x - 0x10000) / 0x400, 0xDC00 + (x - 0x10000) % 0x400]
  }

  function Encode(s: string): seq<int> {
    if s == "" then [] else Units(s[0]) + Encode(s[1..])
  }

  /** Lexicographic order, a proper prefix first. */
  predicate Before(a: seq<int>, b: seq<int>) {
    if b == [] then false
    else if a == [] then true
    else a[0] < b[0] || (a[0] == b[0] && Before(a[1..], b[1..]))
  }

  predicate Less(a: string, b: string) {
    Before(Encode(a), Encode(b))
  }

  lemma {:induction false} BeforeIsTotal(a: seq<int>, b: seq<int>)
    ensures a == b || Before(a, b) || Before(b, a)
    ensures !(Before(a, b) && Before(b, a))
    ensures !Before(a, a)
  {
    if a != [] {
      BeforeIsTotal(a[1..], if b == [] then [] else b[1..]);
      if b != [] && a[0] == b[0] && a[1..] == b[1..] {
        assert a == [a[0]] + a[1..] && b == [b[0]] + b[1..];
      }
    }
  }

  lemma {:induction false} BeforeIsTransitive(a: seq<int>, b: seq<int>, c: seq<int>)
    requires Before(a, b) && Before(b, c)
    ensures Before(a, c)
  {
    if a != [] && a[0] == b[0] == c[0] {
      BeforeIsTransitive(a[1..], b[1..], c[1..]);
    }
  }

  lemma UnitsArePrefixFree(c: char, d: char, s: seq<int>, t: seq<int>)
    requires Units(c) + s == Units(d) + t
    ensures c == d && s == t
  {
    var x, y := Units(c) + s, Units(d) + t;
    assert x[0] == Units(c)[0] && y[0] == Units(d)[0];
    if |Units(c)| == 2 && |Units(d)| == 2 {
      assert x[1] == Units(c)[1] && y[1] == Units(d)[1];
    }
    assert x[|Units(c)|..] == s && y[|Units(d)|..] == t;
  }

  lemma {:induction false} EncodeIsInjective(a: string, b: string)
    requires Encode(a) == Encode(b)
    ensures a == b
  {
    if a != "" && b != "" {
      UnitsArePrefixFree(a[0], b[0], Encode(a[1..]), Encode(b[1..]));
      EncodeIsInjective(a[1..], b[1..]);
      assert a == [a[0]] + a[1..] && b == [b[0]] + b[1..];
    }
  }

  /** Keys are strictly ordered, and any two different keys are. */
  lemma LessIsTotal(a: string, b: string)
    ensures a == b || Less(a, b) || Less(b, a)
    ensures !(Less(a, b) && Less(b, a))
    ensures !Less(a, a)
  {
    BeforeIsTotal(Encode(a), Encode(b));
    BeforeIsTotal(Encode(a), Encode(a));
    if Encode(a) == Encode(b) {
      EncodeIsInjective(a, b);
    }
  }

  lemma LessIsTransitive(a: string, b: string, c: string)
    requires Less(a, b) && Less(b, c)
    ensures Less(a, c)
  {
    BeforeIsTransitive(Encode(a), Encode(b), Encode(c));
  }

  /** Strictly increasing. */
  ghost predicate Sorted(keys: seq<string>) {
    forall i, j :: 0 <= i < j < |keys| ==> Less(keys[i], keys[j])
  }

  /** Two sorted lists of the same keys are the same list. */
  lemma {:induction false} SortedIsUnique(a: seq<string>, b: seq<string>)
    requires Sorted(a) && Sorted(b)
    requires forall k :: k in a <==> k in b
    ensures a == b
    decreases |a|
  {
    hide Less;
    if a != [] || b != [] {
      assert a != [] ==> a[0] in b;
      assert b != [] ==> b[0] in a;
      SameFirst(a, b);
      var s, t := a[1..], b[1..];
      assert a == [a[0]] + s && b == [b[0]] + t;
      LessIsTotal(a[0], a[0]);
      assert a[0] !in s && b[0] !in t;
      forall k ensures k in s <==> k in t {
        assert k in a <==> k == a[0] || k in s;
        assert k in b <==> k == b[0] || k in t;
      }
      SortedIsUnique(s, t);
    }
  }

  lemma SameFirst(a: seq<string>, b: seq<string>)
    requires Sorted(a) && Sorted(b) && a != [] && b != []
    requires a[0] in b && b[0] in a
    ensures a[0] == b[0]
  {
    if a[0] != b[0] {
      var i :| 0 <= i < |b| && b[i] == a[0];
      var j :| 0 <= j < |a| && a[j] == b[0];
      assert Less(b[0], a[0]) && Less(a[0], b[0]);
      LessIsTotal(a[0], b[0]);
    }
  }

  // ---- The order of characters ----

  /** Characters beyond the basic plane come after U+D7FF and before U+E000; otherwise code points decide. */
  predicate CharBefore(c: char, d: char) {
    if c as int >= 0x10000 && d as int < 0x10000 then d as int >= 0xE000
    else if c as int < 0x10000 && d as int >= 0x10000 then c as int < 0xE000
    else c < d
  }

  lemma {:induction false} BeforeSkips(p: seq<int>, a: seq<int>, b: seq<int>)
    ensures Before(p + a, p + b) <==> Before(a, b)
  {
    if p == [] {
      assert p + a == a && p + b == b;
    } else {
      BeforeSkips(p[1..], a, b);
      assert (p + a)[1..] == p[1..] + a && (p + b)[1..] == p[1..] + b;
    }
  }

  lemma {:induction false} EncodeJoins(a: string, b: string)
    ensures Encode(a + b) == Encode(a) + Encode(b)
  {
    hide Units;
    if a == "" {
      assert a + b == b;
    } else {
      EncodeJoins(a[1..], b);
      assert (a + b)[1..] == a[1..] + b;
      assert Units(a[0]) + (Encode(a[1..]) + Encode(b)) == Units(a[0]) + Encode(a[1..]) + Encode(b);
    }
  }

  lemma UnitsOrder(c: char, s: seq<int>, d: char, t: seq<int>)
    requires c != d
    ensures Before(Units(c) + s, Units(d) + t) <==> CharBefore(c, d)
  {
    var x, y := Units(c) + s, Units(d) + t;
    assert x[0] == Units(c)[0] && y[0] == Units(d)[0];
    if x[0] == y[0] {
      assert x[1..][0] == Units(c)[1] && y[1..][0] == Units(d)[1];
    }
  }

  /** Keys are ordered by the first character in which they differ; a proper prefix comes first. */
  lemma LessIff(p: string, c: char, s: string, d: char, t: string)
    requires c != d
    ensures Less(p + ([c] + s), p + ([d] + t)) <==> CharBefore(c, d)
    ensures Less(p, p + ([c] + s)) && !Less(p + ([c] + s), p)
  {
    hide Units, CharBefore;
    var a, b := [c] + s, [d] + t;
    EncodeJoins(p, a);
    EncodeJoins(p, b);
    BeforeSkips(Encode(p), Encode(a), Encode(b));
    assert a[1..] == s && b[1..] == t;
    UnitsOrder(c, Encode(s), d, Encode(t));
    assert Encode(p) + [] == Encode(p);
    BeforeSkips(Encode(p), [], Encode(a));
    BeforeSkips(Encode(p), Encode(a), []);
  }
}
