/**
 Canonical JSON (RFC 8785): `crates/core/src/canonical.rs`.

 The printed text is proved injective: two documents print alike exactly when
 they are equal up to the order of members and the way numbers are written.
 */
module Canonical {
  import opened Json
  import opened Text
  import CanonicalNumber
  import Decimal
  import Utf16

  /** A document after sorting members and formatting numbers. */
  datatype Tree =
    | Atom(text: string)
    | Text(s: string)
    | List(items: seq<Tree>)
    | Record(members: seq<Member>)

  datatype Member = Member(key: string, value: Tree)

  /** A document a parser can produce: finite numbers, and no key twice. */
  predicate Valid(v: Value) {
    match v
    case Num(x) => CanonicalNumber.Valid(x)
    case Arr(items) => forall i :: 0 <= i < |items| ==> Valid(items[i])
    case Obj(fields) => UniqueKeys(fields) && forall i :: 0 <= i < |fields| ==> Valid(fields[i].value)
    case _ => true
  }

  /** The values the program holds: every one was parsed or built from parsed ones. */
  type Document = v: Value | Valid(v) witness Null

  // ---- Sorting members ----

  function Insert(f: Field, fields: seq<Field>): (r: seq<Field>)
    ensures multiset(r) == multiset(fields) + multiset{f}
  {
    if fields == [] then [f]
    else if Utf16.Less(f.key, fields[0].key) then [f] + fields
    else
      assert fields == [fields[0]] + fields[1..];
      [fields[0]] + Insert(f, fields[1..])
  }

  /** The members sorted by the UTF-16 code units of their keys. */
  function Sort(fields: seq<Field>): (r: seq<Field>)
    ensures multiset(r) == multiset(fields)
  {
    if fields == [] then []
    else
      assert fields == [fields[0]] + fields[1..];
      Insert(fields[0], Sort(fields[1..]))
  }

  lemma SortKeepsMembers(fields: seq<Field>)
    ensures forall f :: f in Sort(fields) <==> f in fields
    ensures |Sort(fields)| == |fields|
  {
    assert forall f :: f in Sort(fields) <==> f in multiset(Sort(fields));
    assert |multiset(Sort(fields))| == |multiset(fields)|;
  }

  ghost function Keys(fields: seq<Field>): (k: seq<string>)
    ensures |k| == |fields| && forall i :: 0 <= i < |k| ==> k[i] == fields[i].key
  {
    seq(|fields|, i requires 0 <= i < |fields| => fields[i].key)
  }

  lemma ConsIsSorted(f: Field, fields: seq<Field>)
    requires Utf16.Sorted(Keys(fields))
    requires forall g :: g in fields ==> Utf16.Less(f.key, g.key)
    ensures Utf16.Sorted(Keys([f] + fields))
  {
    hide Utf16.Less;
    var all := [f] + fields;
    forall i, j | 0 <= i < j < |all| ensures Utf16.Less(Keys(all)[i], Keys(all)[j]) {
      assert fields[j - 1] in fields;
      if i > 0 {
        assert Utf16.Less(Keys(fields)[i - 1], Keys(fields)[j - 1]);
      }
    }
  }

  /** A sorted list's first key is below all that follow. */
  lemma FirstIsLeast(fields: seq<Field>)
    requires Utf16.Sorted(Keys(fields)) && fields != []
    ensures Utf16.Sorted(Keys(fields[1..]))
    ensures forall g :: g in fields[1..] ==> Utf16.Less(fields[0].key, g.key)
  {
    hide Utf16.Less;
    var rest := fields[1..];
    assert forall i :: 0 <= i < |rest| ==> Keys(rest)[i] == Keys(fields)[i + 1];
    forall g | g in rest ensures Utf16.Less(fields[0].key, g.key) {
      var k :| 0 <= k < |rest| && rest[k] == g;
      assert Utf16.Less(Keys(fields)[0], Keys(fields)[k + 1]);
    }
  }

  lemma {:induction false} InsertIsSorted(f: Field, fields: seq<Field>)
    requires Utf16.Sorted(Keys(fields))
    requires forall g :: g in fields ==> g.key != f.key
    ensures Utf16.Sorted(Keys(Insert(f, fields)))
  {
    hide Utf16.Less;
    if fields == [] {
    } else if Utf16.Less(f.key, fields[0].key) {
      FirstIsLeast(fields);
      forall g | g in fields ensures Utf16.Less(f.key, g.key) {
        if g != fields[0] {
          Utf16.LessIsTransitive(f.key, fields[0].key, g.key);
        }
      }
      ConsIsSorted(f, fields);
    } else {
      Utf16.LessIsTotal(f.key, fields[0].key);
      FirstIsLeast(fields);
      InsertIsSorted(f, fields[1..]);
      var r := Insert(f, fields[1..]);
      assert forall g :: g in r ==> g in multiset(r);
      ConsIsSorted(fields[0], r);
    }
  }

  lemma {:induction false} SortIsSorted(fields: seq<Field>)
    requires UniqueKeys(fields)
    ensures Utf16.Sorted(Keys(Sort(fields)))
  {
    if fields != [] {
      SortIsSorted(fields[1..]);
      SortKeepsMembers(fields[1..]);
      InsertIsSorted(fields[0], Sort(fields[1..]));
    }
  }

  // ---- The canonical tree and its text ----

  function ToTree(v: Value): Tree
    requires Valid(v)
    decreases v
  {
    match v
    case Null => Atom("null")
    case Bool(b) => Atom(if b then "true" else "false")
    case Num(x) => Atom(CanonicalNumber.Print(x))
    case Str(s) => Text(s)
    case Arr(items) =>
      List(seq(|items|, i requires 0 <= i < |items| => ToTree(items[i])))
    case Obj(fields) =>
      SortKeepsMembers(fields);
      var entries := Sort(fields);
      Record(seq(|entries|, i requires 0 <= i < |entries| =>
        assert entries[i] in fields;
        Member(entries[i].key, ToTree(entries[i].value))))
  }

  /** The character after the backslash of a two-character escape. */
  function ShortEscape(c: char): (r: char) {
    if c == '"' then '"'
    else if c == '\\' then '\\'
    else if c as int == 8 then 'b'
    else if c as int == 12 then 'f'
    else if c == '\n' then 'n'
    else if c == '\r' then 'r'
    else if c == '\t' then 't'
    else 'u'
  }

  function HexDigit(x: nat): char
    requires x < 16
  {
    if x < 10 then ('0' as int + x) as char else ('a' as int + (x - 10)) as char
  }

  function EscapeChar(c: char): (r: string)
    ensures r != "" && r[0] != '"'
  {
    if ShortEscape(c) != 'u' then ['\\', ShortEscape(c)]
    else if c as int < 0x20 then "\\u00" + [HexDigit(c as int / 16), HexDigit(c as int % 16)]
    else [c]
  }

  function Escape(s: string): string {
    if s == "" then "" else EscapeChar(s[0]) + Escape(s[1..])
  }

  function Quote(s: string): string {
    "\"" + Escape(s) + "\""
  }

  function Write(t: Tree): string
    decreases t, 0
  {
    match t
    case Atom(text) => text
    case Text(s) => Quote(s)
    case List(items) => "[" + WriteItems(items) + "]"
    case Record(members) => "{" + WriteMembers(members) + "}"
  }

  function WriteItems(items: seq<Tree>): string
    decreases items, 1
  {
    if items == [] then ""
    else if |items| == 1 then Write(items[0])
    else Write(items[0]) + "," + WriteItems(items[1..])
  }

  function WriteMember(m: Member): string
    decreases m, 1
  {
    Quote(m.key) + ":" + Write(m.value)
  }

  function WriteMembers(members: seq<Member>): string
    decreases members, 2
  {
    if members == [] then ""
    else if |members| == 1 then WriteMember(members[0])
    else WriteMember(members[0]) + "," + WriteMembers(members[1..])
  }

  /** `to_canonical_string` */
  function ToCanonicalString(v: Value): string
    requires Valid(v)
  {
    Write(ToTree(v))
  }

  // ---- The text can be read back in one way only ----

  /** The characters of `null`, `true`, `false` and numbers. */
  predicate AtomChar(c: char) {
    'a' <= c <= 'z' || '0' <= c <= '9' || c == '+' || c == '-' || c == '.'
  }

  predicate IsAtom(s: string) {
    s != "" && forall i :: 0 <= i < |s| ==> AtomChar(s[i])
  }

  ghost predicate WellFormed(t: Tree) {
    match t
    case Atom(text) => IsAtom(text)
    case Text(_) => true
    case List(items) => forall i :: 0 <= i < |items| ==> WellFormed(items[i])
    case Record(members) => forall i :: 0 <= i < |members| ==> WellFormed(members[i].value)
  }

  /** What may follow a value: the end, or a character no atom goes on with. */
  ghost predicate Stops(s: string) {
    s == "" || !AtomChar(s[0])
  }

  lemma LongerAtomDiffers(x: string, s: string, y: string, t: string)
    requires IsAtom(y) && Stops(s) && |x| < |y|
    ensures x + s != y + t
  {
    if s != "" {
      assert (x + s)[|x|] == s[0] && (y + t)[|x|] == y[|x|];
    }
  }

  lemma AtomsEnd(x: string, s: string, y: string, t: string)
    requires IsAtom(x) && IsAtom(y) && Stops(s) && Stops(t)
    requires x + s == y + t
    ensures x == y && s == t
  {
    var z, w := x + s, y + t;
    if |x| < |y| {
      LongerAtomDiffers(x, s, y, t);
    } else if |y| < |x| {
      LongerAtomDiffers(y, t, x, s);
    }
    assert z[..|x|] == x && w[..|x|] == y;
    assert z[|x|..] == s && w[|x|..] == t;
  }

  lemma EscapesArePrefixFree(c: char, s: string, d: char, t: string)
    requires EscapeChar(c) + s == EscapeChar(d) + t
    ensures c == d && s == t
  {
    var x, y := EscapeChar(c), EscapeChar(d);
    var z := x + s;
    assert z[0] == x[0] && (y + t)[0] == y[0];
    if x[0] == '\\' && y[0] == '\\' {
      assert z[1] == x[1] && (y + t)[1] == y[1];
      if x[1] == 'u' {
        assert z[4] == x[4] && (y + t)[4] == y[4];
        assert z[5] == x[5] && (y + t)[5] == y[5];
      }
    }
    assert c == d;
    assert z[|x|..] == s && (y + t)[|y|..] == t;
  }

  lemma EscapeIsNoQuote(a: string, s: string, t: string)
    requires a != ""
    ensures Escape(a) + "\"" + s != Escape("") + "\"" + t
  {
    var x, y := Escape(a) + "\"" + s, Escape("") + "\"" + t;
    assert x[0] == EscapeChar(a[0])[0] && y[0] == '"';
  }

  lemma EscapeSplits(a: string, s: string)
    requires a != ""
    ensures Escape(a) + "\"" + s == EscapeChar(a[0]) + (Escape(a[1..]) + "\"" + s)
  {
    hide EscapeChar;
    var first, rest := EscapeChar(a[0]), Escape(a[1..]);
    Associative(first, rest, "\"");
    Associative(first, rest + "\"", s);
  }

  lemma {:induction false} EscapesEnd(a: string, s: string, b: string, t: string)
    requires Escape(a) + "\"" + s == Escape(b) + "\"" + t
    ensures a == b && s == t
  {
    if a == "" && b == "" {
      SameTail(Escape("") + "\"", s, t);
    } else if a == "" {
      EscapeIsNoQuote(b, t, s);
    } else if b == "" {
      EscapeIsNoQuote(a, s, t);
    } else {
      hide Escape, EscapeChar;
      EscapeSplits(a, s);
      EscapeSplits(b, t);
      EscapesArePrefixFree(a[0], Escape(a[1..]) + "\"" + s, b[0], Escape(b[1..]) + "\"" + t);
      EscapesEnd(a[1..], s, b[1..], t);
      assert a == [a[0]] + a[1..] && b == [b[0]] + b[1..];
    }
  }

  lemma QuotesEnd(a: string, s: string, b: string, t: string)
    requires Quote(a) + s == Quote(b) + t
    ensures a == b && s == t
  {
    var x, y := Escape(a) + "\"" + s, Escape(b) + "\"" + t;
    assert Quote(a) + s == "\"" + x && Quote(b) + t == "\"" + y;
    assert ("\"" + x)[1..] == x && ("\"" + y)[1..] == y;
    EscapesEnd(a, s, b, t);
  }

  function FirstOf(t: Tree): char
    requires WellFormed(t)
  {
    match t
    case Atom(text) => text[0]
    case Text(_) => '"'
    case List(_) => '['
    case Record(_) => '{'
  }

  lemma WriteStarts(t: Tree, s: string)
    requires WellFormed(t)
    ensures Write(t) != "" && (Write(t) + s)[0] == FirstOf(t)
  {
  }

  lemma Joined(a: string, sep: string, b: string, end: string, s: string)
    ensures a + sep + b + end + s == a + (sep + (b + end + s))
  {
    Associative(a + sep + b, end, s);
    Associative(a + sep, b, end + s);
    Associative(a, sep, b + (end + s));
    Associative(b, end, s);
  }

  /** What follows the first item of a non-empty array. */
  ghost function AfterItem(items: seq<Tree>, s: string): (r: string)
    requires items != []
    ensures Stops(r)
  {
    if |items| == 1 then "]" + s else "," + (WriteItems(items[1..]) + "]" + s)
  }

  lemma ItemsSplit(items: seq<Tree>, s: string)
    requires items != []
    ensures WriteItems(items) + "]" + s == Write(items[0]) + AfterItem(items, s)
  {
    hide Write;
    if |items| == 1 {
      Associative(Write(items[0]), "]", s);
    } else {
      Joined(Write(items[0]), ",", WriteItems(items[1..]), "]", s);
    }
  }

  lemma ItemsAreNotEmpty(items: seq<Tree>, s: string, t: string)
    requires items != [] && WellFormed(items[0])
    ensures WriteItems(items) + "]" + s != WriteItems([]) + "]" + t
  {
    ItemsSplit(items, s);
    WriteStarts(items[0], AfterItem(items, s));
    assert (WriteItems([]) + "]" + t)[0] == ']';
  }

  lemma AfterItemSplits(a: seq<Tree>, s: string, b: seq<Tree>, t: string)
    requires a != [] && b != [] && AfterItem(a, s) == AfterItem(b, t)
    ensures |a| == 1 <==> |b| == 1
    ensures |a| == 1 ==> s == t
    ensures |a| > 1 ==> WriteItems(a[1..]) + "]" + s == WriteItems(b[1..]) + "]" + t
  {
    var x, y := AfterItem(a, s), AfterItem(b, t);
    assert x[0] == y[0] && x[1..] == y[1..];
  }

  /** What follows the first member of a non-empty object. */
  ghost function AfterMember(members: seq<Member>, s: string): (r: string)
    requires members != []
    ensures Stops(r)
  {
    if |members| == 1 then "}" + s else "," + (WriteMembers(members[1..]) + "}" + s)
  }

  lemma MembersSplit(members: seq<Member>, s: string)
    requires members != []
    ensures WriteMembers(members) + "}" + s
      == Quote(members[0].key) + (":" + (Write(members[0].value) + AfterMember(members, s)))
  {
    hide Write, Quote;
    var after := AfterMember(members, s);
    if |members| == 1 {
      Associative(WriteMember(members[0]), "}", s);
    } else {
      Joined(WriteMember(members[0]), ",", WriteMembers(members[1..]), "}", s);
    }
    MemberSplits(members[0], after);
  }

  lemma MemberSplits(m: Member, s: string)
    ensures WriteMember(m) + s == Quote(m.key) + (":" + (Write(m.value) + s))
  {
    hide Write, Quote;
    Associative(Quote(m.key) + ":", Write(m.value), s);
    Associative(Quote(m.key), ":", Write(m.value) + s);
  }

  lemma MembersAreNotEmpty(members: seq<Member>, s: string, t: string)
    requires members != []
    ensures WriteMembers(members) + "}" + s != WriteMembers([]) + "}" + t
  {
    MembersSplit(members, s);
    var x := WriteMembers(members) + "}" + s;
    assert x[0] == Quote(members[0].key)[0] == '"';
    assert (WriteMembers([]) + "}" + t)[0] == '}';
  }

  lemma AfterMemberSplits(a: seq<Member>, s: string, b: seq<Member>, t: string)
    requires a != [] && b != [] && AfterMember(a, s) == AfterMember(b, t)
    ensures |a| == 1 <==> |b| == 1
    ensures |a| == 1 ==> s == t
    ensures |a| > 1 ==> WriteMembers(a[1..]) + "}" + s == WriteMembers(b[1..]) + "}" + t
  {
    var x, y := AfterMember(a, s), AfterMember(b, t);
    assert x[0] == y[0] && x[1..] == y[1..];
  }

  lemma {:induction false} ItemsEnd(a: seq<Tree>, s: string, b: seq<Tree>, t: string)
    requires forall i :: 0 <= i < |a| ==> WellFormed(a[i])
    requires forall i :: 0 <= i < |b| ==> WellFormed(b[i])
    requires WriteItems(a) + "]" + s == WriteItems(b) + "]" + t
    ensures a == b && s == t
    decreases a, 1
  {
    hide Write, WriteItems, AfterItem;
    if a != [] && b != [] {
      ItemsSplit(a, s);
      ItemsSplit(b, t);
      WriteEnds(a[0], AfterItem(a, s), b[0], AfterItem(b, t));
      AfterItemSplits(a, s, b, t);
      if |a| > 1 {
        ItemsEnd(a[1..], s, b[1..], t);
      }
      assert a == [a[0]] + a[1..] && b == [b[0]] + b[1..];
    } else if a != [] {
      ItemsAreNotEmpty(a, s, t);
    } else if b != [] {
      ItemsAreNotEmpty(b, t, s);
    } else {
      SameTail(WriteItems([]) + "]", s, t);
    }
  }

  lemma SameTail(x: string, s: string, t: string)
    requires x + s == x + t
    ensures s == t
  {
    assert (x + s)[|x|..] == s && (x + t)[|x|..] == t;
  }

  lemma {:induction false} MembersEnd(a: seq<Member>, s: string, b: seq<Member>, t: string)
    requires forall i :: 0 <= i < |a| ==> WellFormed(a[i].value)
    requires forall i :: 0 <= i < |b| ==> WellFormed(b[i].value)
    requires WriteMembers(a) + "}" + s == WriteMembers(b) + "}" + t
    ensures a == b && s == t
    decreases a, 1
  {
    hide Write, WriteMembers, AfterMember, Quote;
    if a != [] && b != [] {
      MembersSplit(a, s);
      MembersSplit(b, t);
      var x, y := Write(a[0].value) + AfterMember(a, s), Write(b[0].value) + AfterMember(b, t);
      QuotesEnd(a[0].key, ":" + x, b[0].key, ":" + y);
      SameTail(":", x, y);
      WriteEnds(a[0].value, AfterMember(a, s), b[0].value, AfterMember(b, t));
      AfterMemberSplits(a, s, b, t);
      if |a| > 1 {
        MembersEnd(a[1..], s, b[1..], t);
      }
      assert a == [a[0]] + a[1..] && b == [b[0]] + b[1..];
    } else if a != [] {
      MembersAreNotEmpty(a, s, t);
    } else if b != [] {
      MembersAreNotEmpty(b, t, s);
    } else {
      SameTail(WriteMembers([]) + "}", s, t);
    }
  }

  /** A text starts with at most one document. */
  lemma {:induction false} WriteEnds(a: Tree, s: string, b: Tree, t: string)
    requires WellFormed(a) && WellFormed(b) && Stops(s) && Stops(t)
    requires Write(a) + s == Write(b) + t
    ensures a == b && s == t
    decreases a, 0
  {
    hide Quote, WriteItems, WriteMembers;
    WriteStarts(a, s);
    WriteStarts(b, t);
    match (a, b)
    case (Atom(x), Atom(y)) => AtomsEnd(x, s, y, t);
    case (Text(x), Text(y)) => QuotesEnd(x, s, y, t);
    case (List(x), List(y)) =>
      assert Write(a) + s == "[" + (WriteItems(x) + "]" + s);
      assert Write(b) + t == "[" + (WriteItems(y) + "]" + t);
      SameTail("[", WriteItems(x) + "]" + s, WriteItems(y) + "]" + t);
      ItemsEnd(x, s, y, t);
    case (Record(x), Record(y)) =>
      assert Write(a) + s == "{" + (WriteMembers(x) + "}" + s);
      assert Write(b) + t == "{" + (WriteMembers(y) + "}" + t);
      SameTail("{", WriteMembers(x) + "}" + s, WriteMembers(y) + "}" + t);
      MembersEnd(x, s, y, t);
    case _ =>
  }

  // ---- Equal texts, equal documents ----

  /** Equal up to the order of members and the representation of numbers. */
  ghost predicate Equivalent(a: Value, b: Value)
    requires Valid(a) && Valid(b)
    decreases a
  {
    match (a, b)
    case (Null, Null) => true
    case (Bool(x), Bool(y)) => x == y
    case (Num(x), Num(y)) => CanonicalNumber.ValueOf(x) == CanonicalNumber.ValueOf(y)
    case (Str(x), Str(y)) => x == y
    case (Arr(x), Arr(y)) =>
      |x| == |y| && forall i :: 0 <= i < |x| ==> Equivalent(x[i], y[i])
    case (Obj(x), Obj(y)) => Covered(x, y) && Covers(x, y)
    case _ => false
  }

  ghost predicate SameField(f: Field, g: Field)
    requires Valid(f.value) && Valid(g.value)
    decreases f
  {
    f.key == g.key && Equivalent(f.value, g.value)
  }

  /** Every field of `x` has a partner in `y`. */
  ghost predicate Covered(x: seq<Field>, y: seq<Field>)
    requires Valid(Obj(x)) && Valid(Obj(y))
    decreases x
  {
    forall f :: f in x ==> exists g :: g in y && SameField(f, g)
  }

  /** Every field of `y` has a partner in `x`. */
  ghost predicate Covers(x: seq<Field>, y: seq<Field>)
    requires Valid(Obj(x)) && Valid(Obj(y))
    decreases x
  {
    forall g :: g in y ==> exists f :: f in x && SameField(f, g)
  }

  ghost predicate HasKey(fields: seq<Field>, k: string) {
    exists f :: f in fields && f.key == k
  }

  lemma DigitsAreAtoms(s: string)
    requires Decimal.AllDigits(s) && s != ""
    ensures IsAtom(s)
  {
  }

  lemma AtomsJoin(x: string, y: string)
    requires IsAtom(x) && IsAtom(y)
    ensures IsAtom(x + y)
  {
  }

  lemma NumberIsAtom(x: Number)
    requires CanonicalNumber.Valid(x)
    ensures IsAtom(CanonicalNumber.Print(x))
  {
    if x.Double? {
      LayoutIsAtom(x.digits, x.n);
      var t := CanonicalNumber.Layout(x.digits, x.n);
      if x.negative {
        AtomsJoin("-", t);
      } else {
        assert "" + t == t;
      }
    } else if x.Exact? && x.i < 0 {
      DigitsAreAtoms(Decimal.Print(-x.i));
      AtomsJoin("-", Decimal.Print(-x.i));
    }
  }

  lemma LayoutIsAtom(digits: string, n: int)
    requires CanonicalNumber.Normalized(digits)
    ensures IsAtom(CanonicalNumber.Layout(digits, n))
  {
    hide IsAtom, Decimal.Zeros, Decimal.Print;
    DigitsAreAtoms(digits);
    if |digits| <= n <= 21 {
      DigitsAreAtoms(digits + Decimal.Zeros(n - |digits|));
    } else if 0 < n <= 21 {
      PointIsAtom(digits[..n], digits[n..]);
    } else if -6 < n <= 0 {
      PointIsAtom("0", Decimal.Zeros(-n) + digits);
      assert "0" + "." + (Decimal.Zeros(-n) + digits) == "0." + Decimal.Zeros(-n) + digits;
    } else {
      if |digits| > 1 {
        PointIsAtom(digits[..1], digits[1..]);
      }
      ExponentIsAtom(n - 1);
      AtomsJoin(CanonicalNumber.OneDigitPoint(digits), "e");
      AtomsJoin(CanonicalNumber.OneDigitPoint(digits) + "e", CanonicalNumber.SignedExponent(n - 1));
    }
  }

  lemma PointIsAtom(a: string, b: string)
    requires Decimal.AllDigits(a) && Decimal.AllDigits(b)
    ensures IsAtom(a + "." + b)
  {
  }

  lemma ExponentIsAtom(e: int)
    ensures IsAtom("e") && IsAtom(CanonicalNumber.SignedExponent(e))
  {
    DigitsAreAtoms(Decimal.Print(if e >= 0 then e else -e));
    AtomsJoin(if e >= 0 then "+" else "-", Decimal.Print(if e >= 0 then e else -e));
  }

  lemma {:induction false} TreeIsWellFormed(v: Value)
    requires Valid(v)
    ensures WellFormed(ToTree(v))
    decreases v
  {
    match v
    case Num(x) => NumberIsAtom(x);
    case Arr(items) =>
      forall i | 0 <= i < |items| ensures WellFormed(ToTree(items[i])) {
        TreeIsWellFormed(items[i]);
      }
    case Obj(fields) =>
      SortKeepsMembers(fields);
      forall f | f in fields ensures WellFormed(ToTree(f.value)) {
        TreeIsWellFormed(f.value);
      }
    case _ =>
  }

  lemma {:induction false} SameTree(a: Value, b: Value)
    requires Valid(a) && Valid(b)
    ensures ToTree(a) == ToTree(b) <==> Equivalent(a, b)
    decreases a, 1
  {
    match (a, b)
    case (Num(x), Num(y)) => CanonicalNumber.SameTextIffSameValue(x, y);
    case (Arr(x), Arr(y)) => SameArray(x, y);
    case (Obj(x), Obj(y)) => SameObject(x, y);
    case _ => SimpleTrees(a, b);
  }

  lemma SimpleTrees(a: Value, b: Value)
    requires Valid(a) && Valid(b)
    requires !(a.Num? && b.Num?) && !(a.Arr? && b.Arr?) && !(a.Obj? && b.Obj?)
    ensures ToTree(a) == ToTree(b) <==> Equivalent(a, b)
  {
    if a.Num? { NumberStartsLikeOne(a.num); }
    if b.Num? { NumberStartsLikeOne(b.num); }
    assert "null"[0] == 'n' && "true"[0] == 't' && "false"[0] == 'f';
  }

  lemma NumberStartsLikeOne(x: Number)
    requires CanonicalNumber.Valid(x)
    ensures var t := CanonicalNumber.Print(x); t != "" && (t[0] == '-' || Decimal.IsDigit(t[0]))
  {
    hide CanonicalNumber.Layout;
    if x.Double? {
      LayoutStartsWithDigit(x.digits, x.n);
    }
  }

  lemma LayoutStartsWithDigit(digits: string, n: int)
    requires CanonicalNumber.Normalized(digits)
    ensures CanonicalNumber.Layout(digits, n) != "" && Decimal.IsDigit(CanonicalNumber.Layout(digits, n)[0])
  {
    hide CanonicalNumber.SignedExponent, Decimal.Zeros;
    assert Decimal.IsDigit(digits[0]);
  }

  lemma {:induction false} SameArray(x: seq<Value>, y: seq<Value>)
    requires Valid(Arr(x)) && Valid(Arr(y))
    ensures ToTree(Arr(x)) == ToTree(Arr(y)) <==> Equivalent(Arr(x), Arr(y))
    decreases Arr(x), 0
  {
    var s, t := ToTree(Arr(x)).items, ToTree(Arr(y)).items;
    assert |s| == |x| && |t| == |y|;
    if |x| == |y| {
      forall i | 0 <= i < |x| ensures s[i] == t[i] <==> Equivalent(x[i], y[i]) {
        SameTree(x[i], y[i]);
      }
      if Equivalent(Arr(x), Arr(y)) {
        assert s == t;
      }
    }
  }

  /** The members of an object's tree are its fields, sorted. */
  lemma TreeOfObject(x: seq<Field>)
    requires Valid(Obj(x))
    ensures var t := ToTree(Obj(x)); var a := Sort(x);
      && t.Record? && |t.members| == |a|
      && (forall i :: 0 <= i < |a| ==> a[i] in x && Valid(a[i].value))
      && (forall i :: 0 <= i < |a| ==> t.members[i] == Member(a[i].key, ToTree(a[i].value)))
      && (forall f :: f in x ==> f in a)
      && Utf16.Sorted(Keys(a))
  {
    SortKeepsMembers(x);
    SortIsSorted(x);
  }

  lemma {:induction false} SameObject(x: seq<Field>, y: seq<Field>)
    requires Valid(Obj(x)) && Valid(Obj(y))
    ensures ToTree(Obj(x)) == ToTree(Obj(y)) <==> Equivalent(Obj(x), Obj(y))
    decreases Obj(x), 0
  {
    forall f, g | f in x && g in y
      ensures f.key == g.key && ToTree(f.value) == ToTree(g.value) <==> SameField(f, g)
    {
      SameTree(f.value, g.value);
    }
    if Equivalent(Obj(x), Obj(y)) {
      EquivalentObjectsAgree(x, y);
    }
    if ToTree(Obj(x)) == ToTree(Obj(y)) {
      AgreeingObjectsAreEquivalent(x, y);
    }
  }

  /** Sub-documents of two objects print alike exactly when they are equivalent. */
  ghost predicate FieldsAgree(x: seq<Field>, y: seq<Field>)
    requires Valid(Obj(x)) && Valid(Obj(y))
  {
    forall f, g :: f in x && g in y ==>
      (f.key == g.key && ToTree(f.value) == ToTree(g.value) <==> SameField(f, g))
  }

  lemma PartnerAgrees(x: seq<Field>, y: seq<Field>, f: Field, h: Field)
    requires Valid(Obj(x)) && Valid(Obj(y)) && FieldsAgree(x, y) && Covered(x, y)
    requires f in x && h in y && f.key == h.key
    ensures ToTree(f.value) == ToTree(h.value)
  {
    hide SameField, ToTree;
    var g :| g in y && SameField(f, g);
    KeyIsUnique(y, g, h);
  }

  lemma EquivalentObjectsAgree(x: seq<Field>, y: seq<Field>)
    requires Valid(Obj(x)) && Valid(Obj(y)) && FieldsAgree(x, y)
    requires Covered(x, y) && Covers(x, y)
    ensures ToTree(Obj(x)) == ToTree(Obj(y))
  {
    hide Sort, ToTree, Utf16.Sorted, SameField, Covers, Covered, FieldsAgree;
    CoveredKeys(x, y);
    CoversKeys(x, y);
    SameKeys(x, y);
    TreeOfObject(x);
    TreeOfObject(y);
    var a, b := Sort(x), Sort(y);
    var s, t := ToTree(Obj(x)).members, ToTree(Obj(y)).members;
    assert |a| == |Keys(a)| == |Keys(b)| == |b|;
    forall i | 0 <= i < |a| ensures s[i] == t[i] {
      assert a[i].key == Keys(a)[i] == Keys(b)[i] == b[i].key;
      PartnerAgrees(x, y, a[i], b[i]);
    }
    assert s == t;
  }

  lemma KeyIsUnique(fields: seq<Field>, f: Field, g: Field)
    requires UniqueKeys(fields) && f in fields && g in fields && f.key == g.key
    ensures f == g
  {
    var i :| 0 <= i < |fields| && fields[i] == f;
    var j :| 0 <= j < |fields| && fields[j] == g;
  }

  lemma CoveredKeys(x: seq<Field>, y: seq<Field>)
    requires Valid(Obj(x)) && Valid(Obj(y)) && Covered(x, y)
    ensures forall f :: f in x ==> HasKey(y, f.key)
  {
  }

  lemma CoversKeys(x: seq<Field>, y: seq<Field>)
    requires Valid(Obj(x)) && Valid(Obj(y)) && Covers(x, y)
    ensures forall g :: g in y ==> HasKey(x, g.key)
  {
  }

  lemma SortedHasKeys(x: seq<Field>)
    requires UniqueKeys(x)
    ensures Utf16.Sorted(Keys(Sort(x)))
    ensures forall k :: k in Keys(Sort(x)) <==> HasKey(x, k)
  {
    SortKeepsMembers(x);
    SortIsSorted(x);
    forall k | HasKey(x, k) ensures k in Keys(Sort(x)) {
      var f :| f in x && f.key == k;
      KeyOf(Sort(x), f);
    }
    forall k | k in Keys(Sort(x)) ensures HasKey(x, k) {
      var i :| 0 <= i < |Sort(x)| && Keys(Sort(x))[i] == k;
      assert Sort(x)[i] in x;
    }
  }

  lemma SameKeys(x: seq<Field>, y: seq<Field>)
    requires UniqueKeys(x) && UniqueKeys(y)
    requires forall f :: f in x ==> HasKey(y, f.key)
    requires forall g :: g in y ==> HasKey(x, g.key)
    ensures Keys(Sort(x)) == Keys(Sort(y))
  {
    hide Sort, Utf16.Sorted;
    SortedHasKeys(x);
    SortedHasKeys(y);
    Utf16.SortedIsUnique(Keys(Sort(x)), Keys(Sort(y)));
  }

  lemma KeyOf(fields: seq<Field>, f: Field)
    requires f in fields
    ensures f.key in Keys(fields)
  {
    var i :| 0 <= i < |fields| && fields[i] == f;
    assert Keys(fields)[i] == f.key;
  }

  lemma AgreeingObjectsAreEquivalent(x: seq<Field>, y: seq<Field>)
    requires Valid(Obj(x)) && Valid(Obj(y)) && ToTree(Obj(x)) == ToTree(Obj(y))
    requires FieldsAgree(x, y)
    ensures Covered(x, y) && Covers(x, y)
  {
    hide Sort, ToTree, Utf16.Sorted, SameField, Covered, Covers;
    TreeOfObject(x);
    TreeOfObject(y);
    var a, b := Sort(x), Sort(y);
    assert forall i :: 0 <= i < |a| ==> b[i] in y && SameField(a[i], b[i]);
    PairedIsCovered(x, y, a, b);
    PairedCovers(x, y, a, b);
  }

  lemma PairedIsCovered(x: seq<Field>, y: seq<Field>, a: seq<Field>, b: seq<Field>)
    requires Valid(Obj(x)) && Valid(Obj(y)) && |a| == |b| && (forall f :: f in x ==> f in a)
    requires forall i :: 0 <= i < |a| ==> a[i] in x && b[i] in y
    requires forall i :: 0 <= i < |a| ==> SameField(a[i], b[i])
    ensures Covered(x, y)
  {
    hide SameField;
    forall f | f in x ensures exists g :: g in y && SameField(f, g) {
      var i :| 0 <= i < |a| && a[i] == f;
      assert SameField(f, b[i]);
    }
  }

  lemma PairedCovers(x: seq<Field>, y: seq<Field>, a: seq<Field>, b: seq<Field>)
    requires Valid(Obj(x)) && Valid(Obj(y)) && |a| == |b| && (forall g :: g in y ==> g in b)
    requires forall i :: 0 <= i < |a| ==> a[i] in x && b[i] in y
    requires forall i :: 0 <= i < |a| ==> SameField(a[i], b[i])
    ensures Covers(x, y)
  {
    hide SameField;
    forall g | g in y ensures exists f :: f in x && SameField(f, g) {
      var i :| 0 <= i < |b| && b[i] == g;
      assert SameField(a[i], g);
    }
  }

  /** Two documents print the same text exactly when they are equivalent. */
  lemma SameTextIffEquivalent(a: Value, b: Value)
    requires Valid(a) && Valid(b)
    ensures ToCanonicalString(a) == ToCanonicalString(b) <==> Equivalent(a, b)
  {
    TreeIsWellFormed(a);
    TreeIsWellFormed(b);
    SameTree(a, b);
    if ToCanonicalString(a) == ToCanonicalString(b) {
      assert Write(ToTree(a)) + "" == Write(ToTree(b)) + "";
      WriteEnds(ToTree(a), "", ToTree(b), "");
    }
  }

  // ---- Writing to a buffer ----

  lemma {:induction false} EscapeAppends(s: string, c: char)
    ensures Escape(s + [c]) == Escape(s) + EscapeChar(c)
  {
    var t := s + [c];
    if s == "" {
      assert t[1..] == "";
    } else {
      EscapeAppends(s[1..], c);
      assert t[0] == s[0] && t[1..] == s[1..] + [c];
    }
  }

  lemma {:induction false} ItemsAppend(items: seq<Tree>, t: Tree)
    ensures WriteItems(items + [t])
      == WriteItems(items) + (if items == [] then "" else ",") + Write(t)
  {
    var all := items + [t];
    if items != [] {
      ItemsAppend(items[1..], t);
      assert all[0] == items[0] && all[1..] == items[1..] + [t];
    }
  }

  lemma {:induction false} MembersAppend(members: seq<Member>, m: Member)
    ensures WriteMembers(members + [m])
      == WriteMembers(members) + (if members == [] then "" else ",") + WriteMember(m)
  {
    var all := members + [m];
    if members != [] {
      MembersAppend(members[1..], m);
      assert all[0] == members[0] && all[1..] == members[1..] + [m];
    }
  }

  method WriteString(s: string, out: string) returns (r: string)
    ensures r == out + Quote(s)
  {
    hide EscapeChar, Escape;
    ghost var start := out + "\"";
    r := out + "\"";
    NothingEscaped(start);
    for i := 0 to |s|
      invariant r == start + Escape(s[..i])
    {
      EscapeAppends(s[..i], s[i]);
      assert s[..i + 1] == s[..i] + [s[i]];
      Associative(start, Escape(s[..i]), EscapeChar(s[i]));
      r := r + EscapeChar(s[i]);
    }
    assert s[..|s|] == s;
    Associative(out, "\"", Escape(s));
    Associative(out, "\"" + Escape(s), "\"");
    r := r + "\"";
  }

  lemma NothingEscaped(start: string)
    ensures start + Escape("") == start
  {
  }

  /** Appends the canonical text of `v` to `out`. */
  method WriteValue(v: Value, out: string) returns (r: string)
    requires Valid(v)
    ensures r == out + ToCanonicalString(v)
    decreases v, 1
  {
    match v
    case Null => r := out + "null";
    case Bool(b) => r := out + (if b then "true" else "false");
    case Num(x) => r := out + CanonicalNumber.Print(x);
    case Str(s) => r := WriteString(s, out);
    case Arr(items) => r := WriteArray(items, out);
    case Obj(fields) => r := WriteObject(fields, out);
  }

  /** One more item after those already written. */
  lemma ItemAdded(start: string, trees: seq<Tree>, i: nat, r: string)
    requires i < |trees| && r == start + WriteItems(trees[..i])
    ensures (if i > 0 then r + "," else r) + Write(trees[i]) == start + WriteItems(trees[..i + 1])
  {
    hide Write, WriteItems;
    ItemsAppend(trees[..i], trees[i]);
    assert trees[..i + 1] == trees[..i] + [trees[i]];
    var w := WriteItems(trees[..i]);
    if i > 0 {
      Associative(start, w, ",");
      Associative(start, w + ",", Write(trees[i]));
    } else {
      assert w + "" == w;
      Associative(start, w, Write(trees[i]));
    }
  }

  method WriteArray(items: seq<Value>, out: string) returns (r: string)
    requires Valid(Arr(items))
    ensures r == out + ToCanonicalString(Arr(items))
    decreases Arr(items), 0
  {
    hide ToTree, Write, WriteItems, ToCanonicalString;
    TextOfArray(items);
    ghost var trees := ToTree(Arr(items)).items;
    ghost var start := out + "[";
    r := out + "[";
    assert trees[..0] == [] && WriteItems([]) == "" by { NothingWritten(); }
    for i := 0 to |items|
      invariant r == start + WriteItems(trees[..i])
    {
      ItemAdded(start, trees, i, r);
      if i > 0 {
        r := r + ",";
      }
      r := WriteValue(items[i], r);
    }
    assert trees[..|items|] == trees;
    r := r + "]";
    Associative(out, "[", WriteItems(trees));
    Associative(out, "[" + WriteItems(trees), "]");
  }

  lemma TextOfArray(items: seq<Value>)
    requires Valid(Arr(items))
    ensures ToTree(Arr(items)).List?
    ensures var trees := ToTree(Arr(items)).items;
      && |trees| == |items| && (forall i :: 0 <= i < |items| ==> Write(trees[i]) == ToCanonicalString(items[i]))
      && ToCanonicalString(Arr(items)) == "[" + WriteItems(trees) + "]"
  {
    hide WriteItems;
  }

  lemma NothingWritten()
    ensures WriteItems([]) == "" && WriteMembers([]) == ""
  {
  }

  lemma MemberAdded(start: string, members: seq<Member>, i: nat, r: string)
    requires i < |members| && r == start + WriteMembers(members[..i])
    ensures (if i > 0 then r + "," else r) + WriteMember(members[i]) == start + WriteMembers(members[..i + 1])
  {
    hide WriteMember, WriteMembers;
    MembersAppend(members[..i], members[i]);
    assert members[..i + 1] == members[..i] + [members[i]];
    var w := WriteMembers(members[..i]);
    if i > 0 {
      Associative(start, w, ",");
      Associative(start, w + ",", WriteMember(members[i]));
    } else {
      assert w + "" == w;
      Associative(start, w, WriteMember(members[i]));
    }
  }

  lemma ObjectText(fields: seq<Field>)
    requires Valid(Obj(fields))
    ensures ToCanonicalString(Obj(fields)) == "{" + WriteMembers(ToTree(Obj(fields)).members) + "}"
  {
  }

  method WriteObject(fields: seq<Field>, out: string) returns (r: string)
    requires Valid(Obj(fields))
    ensures r == out + ToCanonicalString(Obj(fields))
    decreases Obj(fields), 0
  {
    hide Valid, Sort, ToTree, Write, WriteMember, WriteMembers, ToCanonicalString, Keys, Utf16.Sorted;
    TreeOfObject(fields);
    ObjectText(fields);
    NothingWritten();
    var entries := Sort(fields);
    ghost var members := ToTree(Obj(fields)).members;
    ghost var start := out + "{";
    r := out + "{";
    assert members[..0] == [];
    for i := 0 to |entries|
      invariant r == start + WriteMembers(members[..i])
    {
      MemberAdded(start, members, i, r);
      if i > 0 {
        r := r + ",";
      }
      r := WriteMemberText(entries[i], r);
    }
    assert members[..|entries|] == members;
    r := r + "}";
    Associative(out, "{", WriteMembers(members));
    Associative(out, "{" + WriteMembers(members), "}");
  }

  method WriteMemberText(f: Field, out: string) returns (r: string)
    requires Valid(f.value)
    ensures r == out + WriteMember(Member(f.key, ToTree(f.value)))
    decreases f, 0
  {
    hide ToTree, Write, Quote;
    r := WriteString(f.key, out);
    r := r + ":";
    r := WriteValue(f.value, r);
    Associative(out, Quote(f.key), ":");
    Associative(out, Quote(f.key) + ":", Write(ToTree(f.value)));
  }
}
