/** Sorting texts by their characters, as `sort` does for IDs. */
module Sorting {
  /** `a` comes before `b`, or is `b`. */
  predicate AtMost(a: string, b: string) {
    a == "" || (b != "" && (a[0] < b[0] || (a[0] == b[0] && AtMost(a[1..], b[1..]))))
  }

  predicate Sorted(xs: seq<string>) {
    forall i, j :: 0 <= i < j < |xs| ==> AtMost(xs[i], xs[j])
  }

  lemma {:induction false} AtMostIsTotal(a: string, b: string)
    ensures AtMost(a, b) || AtMost(b, a)
    ensures AtMost(a, b) && AtMost(b, a) ==> a == b
  {
    if a != "" && b != "" && a[0] == b[0] {
      AtMostIsTotal(a[1..], b[1..]);
      assert a == [a[0]] + a[1..] && b == [b[0]] + b[1..];
    }
  }

  lemma {:induction false} AtMostIsTransitive(a: string, b: string, c: string)
    requires AtMost(a, b) && AtMost(b, c)
    ensures AtMost(a, c)
  {
    if a != "" && a[0] == b[0] == c[0] {
      AtMostIsTransitive(a[1..], b[1..], c[1..]);
    }
  }

  function Insert(x: string, xs: seq<string>): (r: seq<string>)
    ensures multiset(r) == multiset(xs) + multiset{x}
  {
    if xs == [] || AtMost(x, xs[0]) then [x] + xs
    else
      assert xs == [xs[0]] + xs[1..];
      [xs[0]] + Insert(x, xs[1..])
  }

  function Sort(xs: seq<string>): (r: seq<string>)
    ensures multiset(r) == multiset(xs)
  {
    if xs == [] then []
    else
      assert xs == [xs[0]] + xs[1..];
      Insert(xs[0], Sort(xs[1..]))
  }

  lemma FirstIsLeast(x: string, xs: seq<string>)
    requires Sorted(xs) && forall y :: y in xs ==> AtMost(x, y)
    ensures Sorted([x] + xs)
  {
    hide AtMost;
    var all := [x] + xs;
    forall i, j | 0 <= i < j < |all| ensures AtMost(all[i], all[j]) {
      assert all[j] == xs[j - 1];
      if i > 0 {
        assert all[i] == xs[i - 1];
      }
    }
  }

  lemma {:induction false} InsertIsSorted(x: string, xs: seq<string>)
    requires Sorted(xs)
    ensures Sorted(Insert(x, xs))
  {
    hide AtMost;
    if xs == [] || AtMost(x, xs[0]) {
      forall y | y in xs ensures AtMost(x, y) {
        var i :| 0 <= i < |xs| && xs[i] == y;
        if i > 0 {
          AtMostIsTransitive(x, xs[0], y);
        }
      }
      FirstIsLeast(x, xs);
    } else {
      AtMostIsTotal(x, xs[0]);
      InsertIsSorted(x, xs[1..]);
      var rest := Insert(x, xs[1..]);
      forall y | y in rest ensures AtMost(xs[0], y) {
        assert y in multiset(rest);
        assert y == x || y in multiset(xs[1..]);
      }
      FirstIsLeast(xs[0], rest);
    }
  }

  lemma {:induction false} SortIsSorted(xs: seq<string>)
    ensures Sorted(Sort(xs))
  {
    if xs != [] {
      SortIsSorted(xs[1..]);
      InsertIsSorted(xs[0], Sort(xs[1..]));
    }
  }

  lemma FirstAndRest(xs: seq<string>)
    requires xs != []
    ensures multiset(xs) == multiset(xs[1..]) + multiset{xs[0]}
  {
    assert xs == [xs[0]] + xs[1..];
  }

  lemma SameMembers(a: seq<string>, b: seq<string>, x: string)
    requires multiset(a) == multiset(b) && x in a
    ensures x in b
  {
    assert x in multiset(a);
  }

  /** The same texts have one sorted order. */
  lemma {:induction false} SortedIsUnique(a: seq<string>, b: seq<string>)
    requires Sorted(a) && Sorted(b) && multiset(a) == multiset(b)
    ensures a == b
  {
    hide AtMost;
    if a != [] {
      SameMembers(a, b, a[0]);
      SameMembers(b, a, b[0]);
      FirstIsFirst(a, b[0]);
      FirstIsFirst(b, a[0]);
      AtMostIsTotal(a[0], b[0]);
      FirstAndRest(a);
      FirstAndRest(b);
      hide Sorted;
      Cancels(multiset{a[0]}, multiset(a[1..]), multiset(b[1..]));
      RestIsSorted(a);
      RestIsSorted(b);
      SortedIsUnique(a[1..], b[1..]);
    }
  }

  lemma Cancels<T>(x: multiset<T>, a: multiset<T>, b: multiset<T>)
    requires a + x == b + x
    ensures a == b
  {
    assert a + x - x == a && b + x - x == b;
  }

  lemma RestIsSorted(xs: seq<string>)
    requires Sorted(xs) && xs != []
    ensures Sorted(xs[1..])
  {
  }

  lemma FirstIsFirst(xs: seq<string>, x: string)
    requires Sorted(xs) && x in xs
    ensures AtMost(xs[0], x)
  {
    var i :| 0 <= i < |xs| && xs[i] == x;
    if i == 0 {
      AtMostIsTotal(x, x);
    }
  }

  /** Sorting forgets the order. */
  lemma SortForgetsOrder(a: seq<string>, b: seq<string>)
    requires multiset(a) == multiset(b)
    ensures Sort(a) == Sort(b)
  {
    SortIsSorted(a);
    SortIsSorted(b);
    SortedIsUnique(Sort(a), Sort(b));
  }
}
