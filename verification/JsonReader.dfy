/**
 Reading JSON text by the grammar of RFC 8259: values without white space, the
 escapes of its section 7, and numbers as the reals they denote. It undoes the
 canonical writer.
 */
module JsonReader {
  import opened Basics
  import opened Json
  import opened Text
  import CanonicalNumber
  import C = Canonical
  import Utf16

  datatype Doc =
    | Nothing
    | Truth(b: bool)
    | Quantity(value: real)
    | Words(s: string)
    | List(items: seq<Doc>)
    | Record(members: seq<Entry>)

  datatype Entry = Entry(key: string, value: Doc)

  // ---- Strings ----

  /** What the character after a backslash stands for (section 7). */
  function Escaped(c: char): Option<char> {
    match c
    case '"' => Some('"')
    case '\\' => Some('\\')
    case '/' => Some('/')
    case 'b' => Some(8 as char)
    case 'f' => Some(12 as char)
    case 'n' => Some(10 as char)
    case 'r' => Some(13 as char)
    case 't' => Some(9 as char)
    case _ => None
  }

  function HexValue(c: char): Option<nat> {
    if '0' <= c <= '9' then Some(c as int - '0' as int)
    else if 'a' <= c <= 'f' then Some(c as int - 'a' as int + 10)
    else if 'A' <= c <= 'F' then Some(c as int - 'A' as int + 10)
    else None
  }

  /** The character with four hexadecimal digits; half of a surrogate pair is none. */
  function CodePoint(a: char, b: char, c: char, d: char): Option<char> {
    match (HexValue(a), HexValue(b), HexValue(c), HexValue(d))
    case (Some(w), Some(x), Some(y), Some(z)) =>
      var code := ((w * 16 + x) * 16 + y) * 16 + z;
      if code < 0xD800 || 0xE000 <= code < 0x10000 then Some(code as char) else None
    case _ => None
  }

  /** The first character of a string, and what follows. */
  function ReadChar(t: string): (r: Option<(char, string)>)
    requires t != ""
    ensures r.Some? ==> |r.value.1| < |t|
  {
    if t[0] != '\\' then
      if t[0] as int < 0x20 then None else Some((t[0], t[1..]))
    else if |t| >= 6 && t[1] == 'u' then
      var c := CodePoint(t[2], t[3], t[4], t[5]);
      if c.Some? then Some((c.value, t[6..])) else None
    else if |t| >= 2 && Escaped(t[1]).Some? then Some((Escaped(t[1]).value, t[2..]))
    else None
  }

  /** A string up to its closing quote, and what follows. */
  function ReadString(t: string): (r: Option<(string, string)>)
    ensures r.Some? ==> |r.value.1| < |t|
    decreases |t|
  {
    if t == "" then None
    else if t[0] == '"' then Some(("", t[1..]))
    else
      var first := ReadChar(t);
      if first.None? then None
      else
        var rest := ReadString(first.value.1);
        if rest.None? then None else Some(([first.value.0] + rest.value.0, rest.value.1))
  }

  // ---- Values ----

  /** The length of the literal or number at the start. */
  function WordEnd(t: string): (n: nat)
    ensures n <= |t|
  {
    if t == "" || !C.AtomChar(t[0]) then 0 else 1 + WordEnd(t[1..])
  }

  ghost function ReadWord(w: string): Option<Doc> {
    if w == "null" then Some(Nothing)
    else if w == "true" then Some(Truth(true))
    else if w == "false" then Some(Truth(false))
    else if CanonicalNumber.IsDecimal(w) then Some(Quantity(CanonicalNumber.TextValue(w)))
    else None
  }

  /** The first value of a text, and what follows it. */
  ghost function Read(t: string): (r: Option<(Doc, string)>)
    ensures r.Some? ==> |r.value.1| < |t|
    decreases |t|, 0
  {
    if t == "" then None
    else if t[0] == '"' then
      var s := ReadString(t[1..]);
      if s.None? then None else Some((Words(s.value.0), s.value.1))
    else if t[0] == '[' then
      if |t| > 1 && t[1] == ']' then Some((List([]), t[2..]))
      else
        var items := ReadItems(t[1..]);
        if items.None? then None else Some((List(items.value.0), items.value.1))
    else if t[0] == '{' then
      if |t| > 1 && t[1] == '}' then Some((Record([]), t[2..]))
      else
        var members := ReadMembers(t[1..]);
        if members.None? then None else Some((Record(members.value.0), members.value.1))
    else
      var n := WordEnd(t);
      if n == 0 || ReadWord(t[..n]).None? then None else Some((ReadWord(t[..n]).value, t[n..]))
  }

  /** One or more items, up to the closing bracket. */
  ghost function ReadItems(t: string): (r: Option<(seq<Doc>, string)>)
    ensures r.Some? ==> |r.value.1| < |t|
    decreases |t|, 1
  {
    var first := Read(t);
    if first.None? || first.value.1 == "" then None
    else if first.value.1[0] == ']' then Some(([first.value.0], first.value.1[1..]))
    else if first.value.1[0] != ',' then None
    else
      var rest := ReadItems(first.value.1[1..]);
      if rest.None? then None else Some(([first.value.0] + rest.value.0, rest.value.1))
  }

  ghost function ReadMember(t: string): (r: Option<(Entry, string)>)
    ensures r.Some? ==> |r.value.1| < |t|
    decreases |t|, 1
  {
    if t == "" || t[0] != '"' then None
    else
      var key := ReadString(t[1..]);
      if key.None? || key.value.1 == "" || key.value.1[0] != ':' then None
      else
        var value := Read(key.value.1[1..]);
        if value.None? then None else Some((Entry(key.value.0, value.value.0), value.value.1))
  }

  /** One or more members, up to the closing brace. */
  ghost function ReadMembers(t: string): (r: Option<(seq<Entry>, string)>)
    ensures r.Some? ==> |r.value.1| < |t|
    decreases |t|, 2
  {
    var first := ReadMember(t);
    if first.None? || first.value.1 == "" then None
    else if first.value.1[0] == '}' then Some(([first.value.0], first.value.1[1..]))
    else if first.value.1[0] != ',' then None
    else
      var rest := ReadMembers(first.value.1[1..]);
      if rest.None? then None else Some(([first.value.0] + rest.value.0, rest.value.1))
  }

  // ---- What a document means ----

  /** The document denotes the value, with members in the order of the UTF-16 code units of their keys. */
  ghost predicate Denotes(d: Doc, v: Value)
    requires C.Valid(v)
    decreases v
  {
    match v
    case Null => d == Nothing
    case Bool(b) => d == Truth(b)
    case Num(x) => d == Quantity(CanonicalNumber.ValueOf(x))
    case Str(s) => d == Words(s)
    case Arr(items) =>
      d.List? && |d.items| == |items| && forall i :: 0 <= i < |items| ==> Denotes(d.items[i], items[i])
    case Obj(fields) =>
      && d.Record? && |d.members| == |fields| && Utf16.Sorted(KeysOf(d.members))
      && (forall f :: f in fields ==> IsShown(d.members, f))
      && (forall e :: e in d.members ==> IsMeant(e, fields))
  }

  ghost predicate IsShown(members: seq<Entry>, f: Field)
    requires C.Valid(f.value)
    decreases f, 1
  {
    exists e :: e in members && DenotesField(e, f)
  }

  ghost predicate IsMeant(e: Entry, fields: seq<Field>)
    requires C.Valid(Obj(fields))
    decreases fields
  {
    exists f :: f in fields && DenotesField(e, f)
  }

  ghost predicate DenotesField(e: Entry, f: Field)
    requires C.Valid(f.value)
    decreases f, 0
  {
    e.key == f.key && Denotes(e.value, f.value)
  }

  ghost function KeysOf(members: seq<Entry>): (k: seq<string>)
    ensures |k| == |members| && forall i :: 0 <= i < |k| ==> k[i] == members[i].key
  {
    seq(|members|, i requires 0 <= i < |members| => members[i].key)
  }

  // ---- The writer is undone ----

  lemma ControlIsRead(c: char)
    requires c as int < 0x20
    ensures CodePoint('0', '0', C.HexDigit(c as int / 16), C.HexDigit(c as int % 16)) == Some(c)
  {
  }

  lemma CharIsRead(c: char, s: string)
    ensures C.EscapeChar(c) + s != "" && (C.EscapeChar(c) + s)[0] != '"'
    ensures ReadChar(C.EscapeChar(c) + s) == Some((c, s))
  {
    var x := C.EscapeChar(c);
    var t := x + s;
    assert t[|x|..] == s && forall i :: 0 <= i < |x| ==> t[i] == x[i];
    if |x| == 6 {
      ControlIsRead(c);
    }
  }

  lemma {:induction false} StringIsRead(a: string, s: string)
    ensures ReadString(C.Escape(a) + "\"" + s) == Some((a, s))
  {
    if a == "" {
      var t := C.Escape(a) + "\"" + s;
      assert t[0] == '"' && t[1..] == s;
    } else {
      hide C.Escape, C.EscapeChar, ReadChar;
      var rest := C.Escape(a[1..]) + "\"" + s;
      C.EscapeSplits(a, s);
      CharIsRead(a[0], rest);
      StringIsRead(a[1..], s);
      assert a == [a[0]] + a[1..];
    }
  }

  lemma QuoteIsRead(a: string, s: string)
    ensures var t := C.Quote(a) + s;
      t != "" && t[0] == '"' && ReadString(t[1..]) == Some((a, s))
  {
    hide C.Escape, ReadString;
    var t := C.Quote(a) + s;
    StringIsRead(a, s);
    assert t[1..] == C.Escape(a) + "\"" + s;
  }

  lemma {:induction false} WordIs(w: string, s: string)
    requires (forall i :: 0 <= i < |w| ==> C.AtomChar(w[i])) && C.Stops(s)
    ensures WordEnd(w + s) == |w|
  {
    if w == "" {
      assert w + s == s;
    } else {
      WordIs(w[1..], s);
      assert (w + s)[1..] == w[1..] + s;
    }
  }

  /** A tree whose atoms can be read. */
  ghost predicate IsReadable(t: C.Tree) {
    match t
    case Atom(text) => C.IsAtom(text) && ReadWord(text).Some?
    case Text(_) => true
    case List(items) => forall i :: 0 <= i < |items| ==> IsReadable(items[i])
    case Record(members) => forall i :: 0 <= i < |members| ==> IsReadable(members[i].value)
  }

  ghost function DocOf(t: C.Tree): Doc
    requires IsReadable(t)
  {
    match t
    case Atom(text) => ReadWord(text).value
    case Text(s) => Words(s)
    case List(items) => List(seq(|items|, i requires 0 <= i < |items| => DocOf(items[i])))
    case Record(members) =>
      Record(seq(|members|, i requires 0 <= i < |members| => Entry(members[i].key, DocOf(members[i].value))))
  }

  lemma AtomIsRead(w: string, s: string)
    requires C.IsAtom(w) && ReadWord(w).Some? && C.Stops(s)
    ensures Read(w + s) == Some((ReadWord(w).value, s))
  {
    hide ReadWord;
    WordIs(w, s);
    var t := w + s;
    assert t[0] == w[0] && t[..|w|] == w && t[|w|..] == s;
  }

  lemma ItemDocs(items: seq<C.Tree>)
    requires IsReadable(C.List(items))
    ensures items == [] ==> DocOf(C.List(items)) == List([])
    ensures items != [] ==> IsReadable(items[0]) && IsReadable(C.List(items[1..]))
    ensures items != [] ==> DocOf(C.List(items)).items == [DocOf(items[0])] + DocOf(C.List(items[1..])).items
  {
  }

  lemma MemberDocs(members: seq<C.Member>)
    requires IsReadable(C.Record(members))
    ensures members == [] ==> DocOf(C.Record(members)) == Record([])
    ensures members != [] ==> IsReadable(members[0].value) && IsReadable(C.Record(members[1..]))
    ensures members != [] ==>
      DocOf(C.Record(members)).members ==
      [Entry(members[0].key, DocOf(members[0].value))] + DocOf(C.Record(members[1..])).members
  {
  }

  lemma {:induction false} TreeIsRead(t: C.Tree, s: string)
    requires IsReadable(t) && C.Stops(s)
    ensures Read(C.Write(t) + s) == Some((DocOf(t), s))
    decreases t, 0
  {
    match t
    case Atom(text) => AtomIsRead(text, s);
    case Text(a) => QuoteIsRead(a, s);
    case List(items) => ListIsRead(items, s);
    case Record(members) => RecordIsRead(members, s);
  }

  lemma {:induction false} ListIsRead(items: seq<C.Tree>, s: string)
    requires IsReadable(C.List(items))
    ensures Read(C.Write(C.List(items)) + s) == Some((DocOf(C.List(items)), s))
    decreases items, 2
  {
    hide ReadItems, C.WriteItems;
    ItemDocs(items);
    var t := C.Write(C.List(items)) + s;
    assert t[1..] == C.WriteItems(items) + "]" + s;
    if items == [] {
      C.NothingWritten();
      assert t == "[]" + s && t[2..] == s;
    } else {
      ItemsAreRead(items, s);
      ItemStarts(items, s);
      assert t[1] == t[1..][0];
    }
  }

  lemma ItemStarts(items: seq<C.Tree>, s: string)
    requires items != [] && IsReadable(items[0])
    ensures C.WriteItems(items) + "]" + s != "" && (C.WriteItems(items) + "]" + s)[0] != ']'
  {
    C.ItemsSplit(items, s);
    match items[0]
    case Atom(text) =>
    case _ =>
  }

  lemma {:induction false} ItemsAreRead(items: seq<C.Tree>, s: string)
    requires items != [] && IsReadable(C.List(items))
    ensures ReadItems(C.WriteItems(items) + "]" + s) == Some((DocOf(C.List(items)).items, s))
    decreases items, 1
  {
    hide Read, C.Write, C.WriteItems;
    ItemDocs(items);
    C.ItemsSplit(items, s);
    var after := C.AfterItem(items, s);
    TreeIsRead(items[0], after);
    if |items| == 1 {
      assert after[1..] == s;
      ItemDocs(items[1..]);
      assert DocOf(C.List(items)).items == [DocOf(items[0])];
    } else {
      assert after[1..] == C.WriteItems(items[1..]) + "]" + s;
      ItemsAreRead(items[1..], s);
    }
  }

  lemma {:induction false} RecordIsRead(members: seq<C.Member>, s: string)
    requires IsReadable(C.Record(members))
    ensures Read(C.Write(C.Record(members)) + s) == Some((DocOf(C.Record(members)), s))
    decreases members, 2
  {
    hide ReadMembers, C.WriteMembers;
    MemberDocs(members);
    var t := C.Write(C.Record(members)) + s;
    assert t[1..] == C.WriteMembers(members) + "}" + s;
    if members == [] {
      C.NothingWritten();
      assert t == "{}" + s && t[2..] == s;
    } else {
      MembersAreRead(members, s);
      C.MembersSplit(members, s);
      assert t[1] == t[1..][0] == '"';
    }
  }

  lemma {:induction false} MembersAreRead(members: seq<C.Member>, s: string)
    requires members != [] && IsReadable(C.Record(members))
    ensures ReadMembers(C.WriteMembers(members) + "}" + s) == Some((DocOf(C.Record(members)).members, s))
    decreases members, 1
  {
    hide Read, ReadMember, C.Write, C.WriteMembers;
    MemberDocs(members);
    var after := C.AfterMember(members, s);
    C.MembersSplit(members, s);
    TreeIsRead(members[0].value, after);
    MemberIsRead(members[0], after);
    if |members| == 1 {
      assert after[1..] == s;
      MemberDocs(members[1..]);
      assert DocOf(C.Record(members)).members == [Entry(members[0].key, DocOf(members[0].value))];
    } else {
      assert after[1..] == C.WriteMembers(members[1..]) + "}" + s;
      MembersAreRead(members[1..], s);
    }
  }

  lemma MemberIsRead(m: C.Member, s: string)
    requires IsReadable(m.value) && Read(C.Write(m.value) + s) == Some((DocOf(m.value), s))
    ensures ReadMember(C.Quote(m.key) + (":" + (C.Write(m.value) + s))) == Some((Entry(m.key, DocOf(m.value)), s))
  {
    hide Read, ReadString, C.Write, C.Quote;
    var rest := ":" + (C.Write(m.value) + s);
    QuoteIsRead(m.key, rest);
    assert rest[1..] == C.Write(m.value) + s;
  }

  // ---- Documents ----

  lemma NumberIsReadable(x: Number)
    requires CanonicalNumber.Valid(x)
    ensures ReadWord(CanonicalNumber.Print(x)) == Some(Quantity(CanonicalNumber.ValueOf(x)))
  {
    hide CanonicalNumber.TextValue, CanonicalNumber.ValueOf, CanonicalNumber.Print;
    CanonicalNumber.PrintDenotes(x);
    LettersAreNoNumber(CanonicalNumber.Print(x));
  }

  lemma LettersAreNoNumber(t: string)
    requires CanonicalNumber.IsDecimal(t)
    ensures t != "null" && t != "true" && t != "false"
  {
    var u := if t != "" && t[0] == '-' then t[1..] else t;
    var e := Find(u, 'e');
    var m := u[..e];
    var dot := Find(m, '.');
    assert m[..dot][0] == u[0];
  }

  /** The tree of a document can be read, as a document that denotes it. */
  lemma {:induction false} TreeIsReadable(v: Value)
    requires C.Valid(v)
    ensures IsReadable(C.ToTree(v)) && Denotes(DocOf(C.ToTree(v)), v)
    decreases v
  {
    match v
    case Num(x) =>
      C.NumberIsAtom(x);
      NumberIsReadable(x);
    case Arr(items) =>
      forall i | 0 <= i < |items|
        ensures IsReadable(C.ToTree(items[i])) && Denotes(DocOf(C.ToTree(items[i])), items[i])
      {
        TreeIsReadable(items[i]);
      }
    case Obj(fields) =>
      forall f | f in fields ensures IsReadable(C.ToTree(f.value)) && Denotes(DocOf(C.ToTree(f.value)), f.value) {
        TreeIsReadable(f.value);
      }
      ObjectIsReadable(fields);
    case _ =>
  }

  lemma ObjectIsReadable(fields: seq<Field>)
    requires C.Valid(Obj(fields))
    requires forall f :: f in fields ==> IsReadable(C.ToTree(f.value)) && Denotes(DocOf(C.ToTree(f.value)), f.value)
    ensures IsReadable(C.ToTree(Obj(fields))) && Denotes(DocOf(C.ToTree(Obj(fields))), Obj(fields))
  {
    hide C.Valid, C.Sort, C.ToTree, Utf16.Less, IsShown, IsMeant;
    C.TreeOfObject(fields);
    C.SortKeepsMembers(fields);
    var entries := C.Sort(fields);
    var members := DocOf(C.ToTree(Obj(fields))).members;
    assert KeysOf(members) == C.Keys(entries);
    forall f | f in fields ensures IsShown(members, f) {
      var i :| 0 <= i < |entries| && entries[i] == f;
      FieldIsShown(members, i, f);
    }
    forall e | e in members ensures IsMeant(e, fields) {
      var i :| 0 <= i < |members| && members[i] == e;
      EntryIsMeant(e, fields, entries[i]);
    }
  }

  lemma FieldIsShown(members: seq<Entry>, i: nat, f: Field)
    requires C.Valid(f.value) && i < |members| && DenotesField(members[i], f)
    ensures IsShown(members, f)
  {
  }

  lemma EntryIsMeant(e: Entry, fields: seq<Field>, f: Field)
    requires C.Valid(Obj(fields)) && f in fields && C.Valid(f.value) && DenotesField(e, f)
    ensures IsMeant(e, fields)
  {
    hide DenotesField, C.Valid;
  }

  /** Reading the canonical text gives back a document that denotes the value, and what follows the text. */
  lemma ReadUndoesWrite(v: Value, rest: string)
    requires C.Valid(v) && C.Stops(rest)
    ensures Read(C.ToCanonicalString(v) + rest).Some?
    ensures Read(C.ToCanonicalString(v) + rest).value.1 == rest
    ensures Denotes(Read(C.ToCanonicalString(v) + rest).value.0, v)
  {
    hide Read, Denotes, C.Write, C.ToTree;
    TreeIsReadable(v);
    TreeIsRead(C.ToTree(v), rest);
  }

  /** Values that one document denotes are equal up to the order of members and the way numbers are written. */
  lemma {:induction false} DenotedAreEquivalent(d: Doc, a: Value, b: Value)
    requires C.Valid(a) && C.Valid(b) && Denotes(d, a) && Denotes(d, b)
    ensures C.Equivalent(a, b)
    decreases a, 2
  {
    hide IsShown, IsMeant, C.Covered, C.Covers;
    match a
    case Arr(items) =>
      forall i | 0 <= i < |items| ensures C.Equivalent(items[i], b.items[i]) {
        DenotedAreEquivalent(d.items[i], items[i], b.items[i]);
      }
    case Obj(fields) => FieldsAreEquivalent(d, fields, b.fields);
    case _ =>
  }

  lemma {:induction false} FieldsAreEquivalent(d: Doc, a: seq<Field>, b: seq<Field>)
    requires C.Valid(Obj(a)) && C.Valid(Obj(b)) && Denotes(d, Obj(a)) && Denotes(d, Obj(b))
    ensures C.Covered(a, b) && C.Covers(a, b)
    decreases Obj(a), 1
  {
    hide IsShown, IsMeant, Utf16.Sorted, C.SameField;
    forall f | f in a ensures exists g :: g in b && C.SameField(f, g) {
      assert IsShown(d.members, f);
      var g := PartnerOf(d.members, f, b);
    }
    forall g | g in b ensures exists f :: f in a && C.SameField(f, g) {
      assert IsShown(d.members, g);
      var f := PartnerIn(d.members, a, g);
    }
  }

  lemma {:induction false} PartnerOf(members: seq<Entry>, f: Field, b: seq<Field>) returns (g: Field)
    requires C.Valid(f.value) && C.Valid(Obj(b)) && IsShown(members, f)
    requires forall e :: e in members ==> IsMeant(e, b)
    ensures g in b && C.Valid(g.value) && C.SameField(f, g)
    decreases f, 1
  {
    hide DenotesField, C.SameField;
    var e :| e in members && DenotesField(e, f);
    assert IsMeant(e, b);
    g :| g in b && DenotesField(e, g);
    SameEntry(e, f, g);
  }

  lemma {:induction false} PartnerIn(members: seq<Entry>, a: seq<Field>, g: Field) returns (f: Field)
    requires C.Valid(g.value) && C.Valid(Obj(a)) && IsShown(members, g)
    requires forall e :: e in members ==> IsMeant(e, a)
    ensures f in a && C.Valid(f.value) && C.SameField(f, g)
    decreases a, 1
  {
    hide DenotesField, C.SameField;
    var e :| e in members && DenotesField(e, g);
    assert IsMeant(e, a);
    f :| f in a && DenotesField(e, f);
    SameEntry(e, f, g);
  }

  lemma {:induction false} SameEntry(e: Entry, f: Field, g: Field)
    requires C.Valid(f.value) && C.Valid(g.value) && DenotesField(e, f) && DenotesField(e, g)
    ensures C.SameField(f, g)
    decreases f, 0
  {
    DenotedAreEquivalent(e.value, f.value, g.value);
  }

  // ---- The shortest escapes ----

  /** Seven characters have a short escape, other control characters four lower-case digits, and the rest none. */
  lemma EscapesAreShort(c: char)
    ensures |C.EscapeChar(c)| ==
      if c as int in {8, 9, 10, 12, 13} || c == '"' || c == '\\' then 2 else if c as int < 0x20 then 6 else 1
    ensures c as int < 0x20 ==> forall x :: x in C.EscapeChar(c) ==> !('A' <= x <= 'Z')
  {
  }
}
