/**
 File content marked `noExpand`, which is taken out of a workload's params
 before they are resolved and put back after: `set_aside_no_expand` and the
 loop around `put` in `crates/engine/src/planner.rs`.
 */
module SetAside {
  import opened Basics
  import opened Json
  import opened Placeholder
  import opened Resolve
  import opened Rendering
  import opened Taint
  import Canonical
  import Text

  /** Content taken out of a value, and where it was. */
  datatype Kept = Kept(path: KeyPath, content: Value)

  /** A value without the content that was taken out of it. */
  datatype Aside = Aside(rest: Value, kept: seq<Kept>)

  datatype AsideFields = AsideFields(rest: seq<Field>, kept: seq<Kept>)

  /** Where files are: below a named member, or below every member. */
  type Pattern = seq<Option<string>>

  const IN_SPEC: Pattern := [Some("containers"), None, Some("files"), None]
  const IN_PARAMS: Pattern := [Some("spec"), Some("containers"), None, Some("files"), None]

  predicate Fits(step: Option<string>, key: string) { step.None? || step.value == key }

  /** A file with content that is passed on literally. */
  predicate IsLiteralFile(v: Value) {
    && v.Obj? && IndexOf(v.fields, "content") >= 0
    && IndexOf(v.fields, "noExpand") >= 0 && v.fields[IndexOf(v.fields, "noExpand")].value == Bool(true)
  }

  function Prefixed(key: string, kept: seq<Kept>): (r: seq<Kept>)
    ensures |r| == |kept|
    ensures forall i :: 0 <= i < |kept| ==> r[i] == Kept([key] + kept[i].path, kept[i].content)
  {
    seq(|kept|, i requires 0 <= i < |kept| => Kept([key] + kept[i].path, kept[i].content))
  }

  function TakeFile(v: Value): Aside {
    if !IsLiteralFile(v) then Aside(v, [])
    else
      var i := IndexOf(v.fields, "content");
      Aside(Obj(v.fields[i := Field("content", Null)]), [Kept(["content"], v.fields[i].value)])
  }

  /** Takes the content of literal files out of `v`. */
  function TakeOut(v: Value, pattern: Pattern): Aside
    decreases |pattern|, 2
  {
    if pattern == [] then TakeFile(v)
    else if !v.Obj? then Aside(v, [])
    else
      var r := TakeFields(v.fields, pattern);
      Aside(Obj(r.rest), r.kept)
  }

  function TakeField(f: Field, pattern: Pattern): Aside
    requires pattern != []
    decreases |pattern|, 0
  {
    if !Fits(pattern[0], f.key) then Aside(f.value, [])
    else
      var r := TakeOut(f.value, pattern[1..]);
      Aside(r.rest, Prefixed(f.key, r.kept))
  }

  function TakeFields(fields: seq<Field>, pattern: Pattern): (r: AsideFields)
    requires pattern != []
    ensures |r.rest| == |fields|
    ensures forall i :: 0 <= i < |fields| ==> r.rest[i] == Field(fields[i].key, TakeField(fields[i], pattern).rest)
    decreases |pattern|, 1, fields
  {
    if fields == [] then AsideFields([], [])
    else
      var first, rest := TakeField(fields[0], pattern), TakeFields(fields[1..], pattern);
      AsideFields([Field(fields[0].key, first.rest)] + rest.rest, first.kept + rest.kept)
  }

  // ---- What is taken out ----

  /** `path` leads to the content of a literal file where the pattern says files are. */
  predicate IsTaken(v: Value, pattern: Pattern, path: KeyPath)
    decreases |pattern|
  {
    if pattern == [] then path == ["content"] && IsLiteralFile(v)
    else
      && v.Obj? && path != [] && IndexOf(v.fields, path[0]) >= 0 && Fits(pattern[0], path[0])
      && IsTaken(v.fields[IndexOf(v.fields, path[0])].value, pattern[1..], path[1..])
  }

  /** What is taken out of one of the members. */
  ghost predicate IsTakenBelow(fields: seq<Field>, pattern: Pattern, k: Kept)
    requires pattern != []
  {
    exists i :: 0 <= i < |fields| && IsTakenFrom(fields[i], pattern, k)
  }

  ghost predicate IsTakenFrom(f: Field, pattern: Pattern, k: Kept)
    requires pattern != []
  {
    && k.path != [] && k.path[0] == f.key && Fits(pattern[0], f.key)
    && Kept(k.path[1..], k.content) in TakeOut(f.value, pattern[1..]).kept
  }

  lemma InPrefixed(key: string, kept: seq<Kept>, k: Kept)
    ensures k in Prefixed(key, kept) <==> k.path != [] && k.path[0] == key && Kept(k.path[1..], k.content) in kept
  {
    if k in Prefixed(key, kept) {
      var i :| 0 <= i < |kept| && Prefixed(key, kept)[i] == k;
      assert k.path[1..] == kept[i].path;
    }
    if k.path != [] && k.path[0] == key && Kept(k.path[1..], k.content) in kept {
      var i :| 0 <= i < |kept| && kept[i] == Kept(k.path[1..], k.content);
      assert k.path == [key] + k.path[1..];
      assert Prefixed(key, kept)[i] == k;
    }
  }

  lemma FieldIsTaken(f: Field, pattern: Pattern, k: Kept)
    requires pattern != []
    ensures k in TakeField(f, pattern).kept <==> IsTakenFrom(f, pattern, k)
  {
    hide TakeOut;
    InPrefixed(f.key, TakeOut(f.value, pattern[1..]).kept, k);
  }

  lemma {:induction false} FieldsAreTaken(fields: seq<Field>, pattern: Pattern, k: Kept)
    requires pattern != []
    ensures k in TakeFields(fields, pattern).kept <==> IsTakenBelow(fields, pattern, k)
    decreases fields
  {
    hide TakeField, IsTakenFrom;
    if fields != [] {
      FieldIsTaken(fields[0], pattern, k);
      FieldsAreTaken(fields[1..], pattern, k);
      if IsTakenBelow(fields[1..], pattern, k) {
        var i :| 0 <= i < |fields[1..]| && IsTakenFrom(fields[1..][i], pattern, k);
        assert fields[i + 1] == fields[1..][i];
      }
      if IsTakenBelow(fields, pattern, k) {
        var i :| 0 <= i < |fields| && IsTakenFrom(fields[i], pattern, k);
        assert i > 0 ==> fields[1..][i - 1] == fields[i];
      }
    }
  }

  lemma TheOnlyMember(fields: seq<Field>, i: nat)
    requires UniqueKeys(fields) && i < |fields|
    ensures IndexOf(fields, fields[i].key) == i
  {
  }

  /** Exactly the content of literal files is taken out. */
  lemma {:induction false} TakenIff(v: Value, pattern: Pattern, k: Kept)
    requires Canonical.Valid(v)
    ensures k in TakeOut(v, pattern).kept <==> IsTaken(v, pattern, k.path) && ValueAt(v, k.path) == Some(k.content)
    decreases |pattern|
  {
    if pattern == [] {
      if k.path == ["content"] {
        assert k.path[1..] == [];
      }
    } else if v.Obj? {
      FieldsAreTaken(v.fields, pattern, k);
      if IsTakenBelow(v.fields, pattern, k) {
        var i :| 0 <= i < |v.fields| && IsTakenFrom(v.fields[i], pattern, k);
        TheOnlyMember(v.fields, i);
        TakenIff(v.fields[i].value, pattern[1..], Kept(k.path[1..], k.content));
      }
      if IsTaken(v, pattern, k.path) && ValueAt(v, k.path) == Some(k.content) {
        var i := IndexOf(v.fields, k.path[0]);
        TakenIff(v.fields[i].value, pattern[1..], Kept(k.path[1..], k.content));
        assert IsTakenFrom(v.fields[i], pattern, k);
      }
    }
  }

  /** The path fits the pattern, and leads to content beside a mark that says it is literal. */
  ghost predicate IsContentPath(v: Value, pattern: Pattern, path: KeyPath) {
    && |path| == |pattern| + 1 && path[|pattern|] == "content"
    && (forall i :: 0 <= i < |pattern| ==> Fits(pattern[i], path[i]))
    && ValueAt(v, path).Some? && ValueAt(v, path[..|pattern|] + ["noExpand"]) == Some(Bool(true))
  }

  lemma FileHasContent(v: Value, path: KeyPath)
    ensures IsTaken(v, [], path) <==> IsContentPath(v, [], path)
  {
    OneKey(v, "content");
    OneKey(v, "noExpand");
    assert path[..0] + ["noExpand"] == ["noExpand"];
    if |path| == 1 && path[0] == "content" {
      assert path == ["content"];
    }
  }

  lemma OneKey(v: Value, k: string)
    ensures ValueAt(v, [k]) ==
      if v.Obj? && IndexOf(v.fields, k) >= 0 then Some(v.fields[IndexOf(v.fields, k)].value) else None
  {
    assert [k][1..] == [];
  }

  lemma ContentBelow(v: Value, pattern: Pattern, path: KeyPath)
    requires pattern != [] && path != [] && v.Obj? && IndexOf(v.fields, path[0]) >= 0 && Fits(pattern[0], path[0])
    ensures IsContentPath(v, pattern, path) <==>
      IsContentPath(v.fields[IndexOf(v.fields, path[0])].value, pattern[1..], path[1..])
  {
    var n := |pattern|;
    if |path| == n + 1 {
      var mark := path[..n] + ["noExpand"];
      assert mark[0] == path[0] && mark[1..] == path[1..][..n - 1] + ["noExpand"];
      if forall i :: 0 <= i < n - 1 ==> Fits(pattern[1..][i], path[1..][i]) {
        forall i | 0 <= i < n ensures Fits(pattern[i], path[i]) {
          if i > 0 {
            assert Fits(pattern[1..][i - 1], path[1..][i - 1]);
          }
        }
      }
    }
  }

  lemma {:induction false} TakenFits(v: Value, pattern: Pattern, path: KeyPath)
    ensures IsTaken(v, pattern, path) <==> IsContentPath(v, pattern, path)
    decreases |pattern|
  {
    hide IsLiteralFile;
    if pattern == [] {
      FileHasContent(v, path);
    } else if v.Obj? && path != [] && IndexOf(v.fields, path[0]) >= 0 && Fits(pattern[0], path[0]) {
      ContentBelow(v, pattern, path);
      TakenFits(v.fields[IndexOf(v.fields, path[0])].value, pattern[1..], path[1..]);
    }
  }

  /** The content of a container's file that is marked as literal. */
  ghost predicate IsMarkedFile(v: Value, path: KeyPath, c: string, f: string) {
    && path == ["containers", c, "files", f, "content"] && ValueAt(v, path).Some?
    && ValueAt(v, ["containers", c, "files", f, "noExpand"]) == Some(Bool(true))
  }

  /** What is taken out of a spec: the content of each container's files that are marked as literal. */
  lemma SpecFilesAre(v: Value, path: KeyPath)
    ensures IsTaken(v, IN_SPEC, path) <==> exists c, f :: IsMarkedFile(v, path, c, f)
  {
    hide ValueAt;
    TakenFits(v, IN_SPEC, path);
    if IsContentPath(v, IN_SPEC, path) {
      assert Fits(IN_SPEC[0], path[0]) && Fits(IN_SPEC[2], path[2]);
      assert path == ["containers", path[1], "files", path[3], "content"];
      assert path[..4] + ["noExpand"] == ["containers", path[1], "files", path[3], "noExpand"];
      assert IsMarkedFile(v, path, path[1], path[3]);
    }
    if c, f :| IsMarkedFile(v, path, c, f) {
      assert path[..4] + ["noExpand"] == ["containers", c, "files", f, "noExpand"];
    }
  }

  lemma SpecComesFirst(v: Value, path: KeyPath)
    requires path != []
    ensures IsTaken(v, IN_PARAMS, path) <==>
      path[0] == "spec" && ValueAt(v, ["spec"]).Some? && IsTaken(ValueAt(v, ["spec"]).value, IN_SPEC, path[1..])
  {
    hide IsTaken;
    OneKey(v, "spec");
    assert IN_PARAMS[1..] == IN_SPEC;
    TakenStep(v, IN_PARAMS, path);
  }

  lemma TakenStep(v: Value, pattern: Pattern, path: KeyPath)
    requires pattern != [] && path != []
    ensures IsTaken(v, pattern, path) <==>
      && v.Obj? && IndexOf(v.fields, path[0]) >= 0 && Fits(pattern[0], path[0])
      && IsTaken(v.fields[IndexOf(v.fields, path[0])].value, pattern[1..], path[1..])
  {
  }

  /** And of a workload's params: the same, under the spec. */
  lemma ParamsFilesAre(v: Value, path: KeyPath)
    requires path != []
    ensures IsTaken(v, IN_PARAMS, path) <==>
      && path[0] == "spec" && ValueAt(v, ["spec"]).Some?
      && exists c, f :: IsMarkedFile(ValueAt(v, ["spec"]).value, path[1..], c, f)
  {
    hide ValueAt, IsTaken, IsMarkedFile;
    SpecComesFirst(v, path);
    if ValueAt(v, ["spec"]).Some? {
      SpecFilesAre(ValueAt(v, ["spec"]).value, path[1..]);
    }
  }

  lemma IndexIsKept(fields: seq<Field>, other: seq<Field>, key: string)
    requires |fields| == |other| && forall i :: 0 <= i < |fields| ==> fields[i].key == other[i].key
    ensures IndexOf(fields, key) == IndexOf(other, key)
  {
  }

  /** What was taken out is left `null`. */
  lemma {:induction false} TakenIsNull(v: Value, pattern: Pattern, path: KeyPath)
    requires IsTaken(v, pattern, path)
    ensures ValueAt(TakeOut(v, pattern).rest, path) == Some(Null)
    decreases |pattern|
  {
    var rest := TakeOut(v, pattern).rest;
    IndexIsKept(v.fields, rest.fields, path[0]);
    if pattern == [] {
      assert path[1..] == [];
    } else {
      TakenIsNull(v.fields[IndexOf(v.fields, path[0])].value, pattern[1..], path[1..]);
    }
  }

  lemma {:induction false} FieldsResolveAt(fields: seq<Field>, c: Resolver, i: nat)
    requires ResolveFields(fields, c).Ok? && i < |fields|
    ensures var ms := ResolveFields(fields, c).value;
      && ResolveValue(fields[i].value, c) == Ok(ms[i].value)
      && forall k :: 0 <= k < |fields| ==> ms[k].key == fields[k].key
  {
    hide ResolveValue;
    if i > 0 {
      FieldsResolveAt(fields[1..], c, i - 1);
    } else if |fields| > 1 {
      FieldsResolveAt(fields[1..], c, 0);
    }
  }

  /** A value set aside as `null` resolves to a slot with no secret. */
  lemma {:induction false} SetAsideIsPlain(v: Value, c: Resolver, path: KeyPath)
    requires ResolveValue(v, c).Ok? && ValueAt(v, path) == Some(Null)
    ensures SlotIsPlain(ResolveValue(v, c).value, path)
    decreases |path|
  {
    if path != [] {
      var i := IndexOf(v.fields, path[0]);
      var ms := ResolveFields(v.fields, c).value;
      FieldsResolveAt(v.fields, c, i);
      SameIndex(ms, v.fields, path[0]);
      SetAsideIsPlain(v.fields[i].value, c, path[1..]);
    }
  }

  // ---- Putting everything back ----

  function SetAll(v: Value, kept: seq<Kept>): Value
    decreases kept
  {
    if kept == [] then v else SetAll(SetAt(v, kept[0].path, kept[0].content), kept[1..])
  }

  function PutAll(r: Resolved, kept: seq<Kept>): Resolved
    decreases kept
  {
    if kept == [] then r else PutAll(Put(r, kept[0].path, kept[0].content), kept[1..])
  }

  lemma {:induction false} SetAllJoins(v: Value, a: seq<Kept>, b: seq<Kept>)
    ensures SetAll(v, a + b) == SetAll(SetAll(v, a), b)
    decreases a
  {
    hide SetAt;
    if a == [] {
      assert a + b == b;
    } else {
      assert (a + b)[0] == a[0] && (a + b)[1..] == a[1..] + b;
      SetAllJoins(SetAt(v, a[0].path, a[0].content), a[1..], b);
    }
  }

  /** Content for one member changes that member only. */
  lemma {:induction false} SetAllBelow(fields: seq<Field>, key: string, kept: seq<Kept>)
    requires IndexOf(fields, key) >= 0
    ensures var i := IndexOf(fields, key);
      SetAll(Obj(fields), Prefixed(key, kept)) == Obj(fields[i := Field(key, SetAll(fields[i].value, kept))])
    decreases kept
  {
    var i := IndexOf(fields, key);
    var all := Prefixed(key, kept);
    if kept == [] {
      assert fields[i := Field(key, fields[i].value)] == fields;
    } else {
      assert all[0].path[1..] == kept[0].path && all[1..] == Prefixed(key, kept[1..]);
      var changed := fields[i := Field(key, SetAt(fields[i].value, kept[0].path, kept[0].content))];
      IndexIsKept(fields, changed, key);
      assert SetAt(Obj(fields), all[0].path, all[0].content) == Obj(changed);
      hide SetAt;
      SetAllBelow(changed, key, kept[1..]);
      assert changed[i := Field(key, SetAll(changed[i].value, kept[1..]))]
        == fields[i := Field(key, SetAll(changed[i].value, kept[1..]))];
    }
  }

  lemma FieldComesBack(fields: seq<Field>, i: nat, f: Field, pattern: Pattern)
    requires pattern != [] && UniqueKeys(fields) && i < |fields|
    requires fields[i] == Field(f.key, TakeField(f, pattern).rest)
    requires var t := TakeOut(f.value, pattern[1..]); SetAll(t.rest, t.kept) == f.value
    ensures SetAll(Obj(fields), TakeField(f, pattern).kept) == Obj(fields[i := f])
  {
    hide TakeOut, SetAll;
    if Fits(pattern[0], f.key) {
      TheOnlyMember(fields, i);
      SetAllBelow(fields, f.key, TakeOut(f.value, pattern[1..]).kept);
    } else {
      NothingSet(Obj(fields));
      assert fields[i := f] == fields;
    }
  }

  /** The members from `i` on are without their content. */
  ghost predicate IsWithout(now: seq<Field>, i: nat, fields: seq<Field>, pattern: Pattern)
    requires pattern != []
  {
    i + |fields| == |now| &&
    forall j :: 0 <= j < |fields| ==> now[i + j] == Field(fields[j].key, TakeField(fields[j], pattern).rest)
  }

  lemma NextIsWithout(now: seq<Field>, i: nat, fields: seq<Field>, pattern: Pattern)
    requires pattern != [] && fields != [] && IsWithout(now, i, fields, pattern)
    ensures i < |now| && now[i] == Field(fields[0].key, TakeField(fields[0], pattern).rest)
    ensures IsWithout(now[i := fields[0]], i + 1, fields[1..], pattern)
    ensures now[i := fields[0]][..i + 1] + fields[1..] == now[..i] + fields
  {
    hide TakeField;
    var next, rest := now[i := fields[0]], fields[1..];
    assert now[i + 0] == now[i];
    forall j | 0 <= j < |rest| ensures next[i + 1 + j] == Field(rest[j].key, TakeField(rest[j], pattern).rest) {
      assert rest[j] == fields[j + 1] && next[i + (j + 1)] == now[i + (j + 1)];
    }
  }

  lemma UniqueAgain(now: seq<Field>, i: nat, f: Field)
    requires UniqueKeys(now) && i < |now| && now[i].key == f.key
    ensures UniqueKeys(now[i := f])
  {
  }

  /** The members from `i` on come back one by one. */
  lemma {:induction false} FieldsComeBack(now: seq<Field>, i: nat, fields: seq<Field>, pattern: Pattern)
    requires pattern != [] && UniqueKeys(now) && IsWithout(now, i, fields, pattern)
    requires forall j :: 0 <= j < |fields| ==> Canonical.Valid(fields[j].value)
    ensures SetAll(Obj(now), TakeFields(fields, pattern).kept) == Obj(now[..i] + fields)
    decreases |pattern|, 0, |fields|
  {
    hide TakeField, SetAll, TakeOut, UniqueKeys, Canonical.Valid;
    if fields == [] {
      assert now[..i] + fields == now;
      NothingSet(Obj(now));
    } else {
      var f, rest := fields[0], fields[1..];
      NextIsWithout(now, i, fields, pattern);
      hide IsWithout;
      TakenComesBack(f.value, pattern[1..]);
      FieldComesBack(now, i, f, pattern);
      SetAllJoins(Obj(now), TakeField(f, pattern).kept, TakeFields(rest, pattern).kept);
      UniqueAgain(now, i, f);
      FieldsComeBack(now[i := f], i + 1, rest, pattern);
    }
  }

  lemma NothingSet(v: Value)
    ensures SetAll(v, []) == v
  {
  }

  /** Putting back what was taken out gives the value again. */
  lemma {:induction false} TakenComesBack(v: Value, pattern: Pattern)
    requires Canonical.Valid(v)
    ensures var t := TakeOut(v, pattern); SetAll(t.rest, t.kept) == v
    decreases |pattern|, 1
  {
    var t := TakeOut(v, pattern);
    if pattern == [] {
      if IsLiteralFile(v) {
        var i := IndexOf(v.fields, "content");
        IndexIsKept(v.fields, t.rest.fields, "content");
        assert t.kept[0].path[1..] == [] && t.kept[1..] == [];
        assert t.rest.fields[i := v.fields[i]] == v.fields;
      }
    } else if v.Obj? {
      FieldsComeBack(t.rest.fields, 0, v.fields, pattern);
      assert t.rest.fields[..0] + v.fields == v.fields;
    }
  }

  // ---- Secrets stay where they are ----

  /** Putting content at one place leaves every other place plain. */
  lemma {:induction false} SlotStaysPlain(r: Resolved, p: KeyPath, q: KeyPath, content: Value)
    requires SlotIsPlain(r, q)
    ensures SlotIsPlain(Put(r, p, content), q)
    decreases |p|
  {
    if p != [] && r.Members? {
      var i := MemberIndex(r.members, p[0]);
      if i >= 0 {
        var changed := r.members[i := Member(p[0], Put(r.members[i].value, p[1..], content))];
        MemberIndexIsKept(r.members, changed, q[0]);
        if q[0] == p[0] {
          SlotStaysPlain(r.members[i].value, p[1..], q[1..], content);
        }
      }
    }
  }

  lemma MemberIndexIsKept(members: seq<Member>, other: seq<Member>, key: string)
    requires |members| == |other| && forall i :: 0 <= i < |members| ==> members[i].key == other[i].key
    ensures MemberIndex(members, key) == MemberIndex(other, key)
  {
  }

  ghost predicate AllPlain(r: Resolved, kept: seq<Kept>) {
    forall i :: 0 <= i < |kept| ==> SlotIsPlain(r, kept[i].path)
  }

  ghost predicate SameSecrets(a: Resolved, b: Resolved) {
    References(a) == References(b) && forall q :: LeafAt(a, q) <==> LeafAt(b, q)
  }

  lemma {:induction false} PutAllMovesNoSecret(r: Resolved, kept: seq<Kept>)
    requires WellTainted(r) && AllPlain(r, kept)
    ensures WellTainted(PutAll(r, kept)) && SameSecrets(PutAll(r, kept), r)
    decreases kept
  {
    hide WellTainted, SlotIsPlain, Put, References, LeafAt;
    if kept != [] {
      var k := kept[0];
      assert SlotIsPlain(r, k.path);
      PutMovesNoSecret(r, k.path, k.content);
      forall i | 0 <= i < |kept[1..]| ensures SlotIsPlain(Put(r, k.path, k.content), kept[1..][i].path) {
        assert kept[1..][i] == kept[i + 1];
        SlotStaysPlain(r, k.path, kept[i + 1].path, k.content);
      }
      PutAllMovesNoSecret(Put(r, k.path, k.content), kept[1..]);
    }
  }

  lemma {:induction false} PutAllThenRender(r: Resolved, kept: seq<Kept>, read: Secrets)
    requires Render(r, read).Some?
    ensures Render(PutAll(r, kept), read) == Some(SetAll(Render(r, read).value, kept))
    decreases kept
  {
    hide Render, Put, SetAt;
    if kept != [] {
      PutThenRender(r, kept[0].path, kept[0].content, read);
      PutAllThenRender(Put(r, kept[0].path, kept[0].content), kept[1..], read);
    }
  }

  // ---- Content arrives as it is ----

  lemma {:induction false} SetIsThere(v: Value, p: KeyPath, content: Value)
    requires ValueAt(v, p).Some?
    ensures ValueAt(SetAt(v, p, content), p) == Some(content)
    decreases |p|
  {
    if p != [] {
      IndexIsKept(v.fields, SetAt(v, p, content).fields, p[0]);
      SetIsThere(v.fields[IndexOf(v.fields, p[0])].value, p[1..], content);
    }
  }

  /** Content at one place changes nothing at another of the same depth. */
  lemma {:induction false} SetIsElsewhere(v: Value, p: KeyPath, q: KeyPath, content: Value)
    requires |p| == |q| && p != q
    ensures ValueAt(SetAt(v, p, content), q) == ValueAt(v, q)
    decreases |p|
  {
    if v.Obj? && IndexOf(v.fields, p[0]) >= 0 {
      IndexIsKept(v.fields, SetAt(v, p, content).fields, q[0]);
      if p[0] == q[0] {
        assert p[1..] != q[1..] by { assert p == [p[0]] + p[1..] && q == [q[0]] + q[1..]; }
        SetIsElsewhere(v.fields[IndexOf(v.fields, p[0])].value, p[1..], q[1..], content);
      }
    }
  }

  ghost predicate Distinct(kept: seq<Kept>) {
    forall i, j :: 0 <= i < j < |kept| ==> kept[i].path != kept[j].path
  }

  ghost predicate Deep(kept: seq<Kept>, n: nat) {
    forall i :: 0 <= i < |kept| ==> |kept[i].path| == n
  }

  lemma {:induction false} RestIsElsewhere(v: Value, kept: seq<Kept>, q: KeyPath)
    requires Deep(kept, |q|) && forall i :: 0 <= i < |kept| ==> kept[i].path != q
    ensures ValueAt(SetAll(v, kept), q) == ValueAt(v, q)
    decreases kept
  {
    hide SetAt, ValueAt;
    if kept != [] {
      SetIsElsewhere(v, kept[0].path, q, kept[0].content);
      RestIsElsewhere(SetAt(v, kept[0].path, kept[0].content), kept[1..], q);
    }
  }

  lemma {:induction false} AllIsThere(v: Value, kept: seq<Kept>, n: nat, i: nat)
    requires Distinct(kept) && Deep(kept, n) && i < |kept| && ValueAt(v, kept[i].path).Some?
    ensures ValueAt(SetAll(v, kept), kept[i].path) == Some(kept[i].content)
    decreases kept
  {
    hide SetAt, ValueAt;
    var k := kept[0];
    var next := SetAt(v, k.path, k.content);
    if i == 0 {
      SetIsThere(v, k.path, k.content);
      RestIsElsewhere(next, kept[1..], k.path);
    } else {
      SetIsElsewhere(v, k.path, kept[i].path, k.content);
      assert kept[1..][i - 1] == kept[i];
      AllIsThere(next, kept[1..], n, i - 1);
    }
  }

  ghost predicate Below(kept: seq<Kept>, fields: seq<Field>) {
    forall i :: 0 <= i < |kept| ==>
      kept[i].path != [] && exists j :: 0 <= j < |fields| && fields[j].key == kept[i].path[0]
  }

  lemma DistinctPrefixed(key: string, kept: seq<Kept>)
    requires Distinct(kept)
    ensures Distinct(Prefixed(key, kept))
  {
    var all := Prefixed(key, kept);
    forall i, j | 0 <= i < j < |all| ensures all[i].path != all[j].path {
      assert all[i].path[1..] == kept[i].path && all[j].path[1..] == kept[j].path;
    }
  }

  ghost predicate StartWith(kept: seq<Kept>, key: string) {
    forall i :: 0 <= i < |kept| ==> kept[i].path != [] && kept[i].path[0] == key
  }

  lemma FieldIsDistinct(f: Field, pattern: Pattern)
    requires pattern != []
    requires var t := TakeOut(f.value, pattern[1..]); Distinct(t.kept) && Deep(t.kept, |pattern|)
    ensures var kept := TakeField(f, pattern).kept;
      Distinct(kept) && Deep(kept, |pattern| + 1) && StartWith(kept, f.key)
  {
    hide TakeOut, Distinct;
    NoneIsDistinct();
    DistinctPrefixed(f.key, TakeOut(f.value, pattern[1..]).kept);
  }

  lemma NoneIsDistinct()
    ensures Distinct([])
  {
  }

  lemma {:induction false} FieldsAreDistinct(fields: seq<Field>, pattern: Pattern)
    requires pattern != [] && UniqueKeys(fields)
    requires forall i :: 0 <= i < |fields| ==> Canonical.Valid(fields[i].value)
    ensures var kept := TakeFields(fields, pattern).kept;
      Distinct(kept) && Deep(kept, |pattern| + 1) && Below(kept, fields)
    decreases |pattern|, 0, |fields|
  {
    hide TakeOut, TakeField, Distinct, Below, StartWith, Canonical.Valid;
    if fields == [] {
      NoneIsDistinct();
      NoneIsBelow();
    } else {
      var f, rest := fields[0], fields[1..];
      assert fields == [f] + rest;
      TakenAreDistinct(f.value, pattern[1..]);
      FieldIsDistinct(f, pattern);
      FieldsAreDistinct(rest, pattern);
      JoinedAreDistinct(f, rest, TakeField(f, pattern).kept, TakeFields(rest, pattern).kept);
    }
  }

  lemma NoneIsBelow()
    ensures Below([], [])
  {
  }

  lemma JoinedAreDistinct(f: Field, rest: seq<Field>, a: seq<Kept>, b: seq<Kept>)
    requires UniqueKeys([f] + rest) && Distinct(a) && Distinct(b) && Below(b, rest)
    requires StartWith(a, f.key)
    ensures Distinct(a + b) && Below(a + b, [f] + rest)
  {
    var all := [f] + rest;
    assert all[0] == f && forall j :: 0 <= j < |rest| ==> all[j + 1] == rest[j];
    forall i | 0 <= i < |b| ensures b[i].path[0] != f.key && exists j :: 0 <= j < |all| && all[j].key == b[i].path[0] {
      var j :| 0 <= j < |rest| && rest[j].key == b[i].path[0];
      assert all[j + 1].key == b[i].path[0];
    }
  }

  /** Nothing is taken out twice. */
  lemma {:induction false} TakenAreDistinct(v: Value, pattern: Pattern)
    requires Canonical.Valid(v)
    ensures Distinct(TakeOut(v, pattern).kept) && Deep(TakeOut(v, pattern).kept, |pattern| + 1)
    decreases |pattern|, 1
  {
    if pattern != [] && v.Obj? {
      FieldsAreDistinct(v.fields, pattern);
    }
  }

  lemma {:induction false} EagerFieldsAt(fields: seq<Field>, c: Resolver, read: SecretRef -> string, i: nat)
    requires EagerFields(fields, c, read).Ok? && i < |fields|
    ensures var fs := EagerFields(fields, c, read).value;
      && |fs| == |fields| && Eager(fields[i].value, c, read) == Ok(fs[i].value)
      && forall k :: 0 <= k < |fields| ==> fs[k].key == fields[k].key
  {
    hide Eager;
    if i > 0 {
      EagerFieldsAt(fields[1..], c, read, i - 1);
    } else if |fields| > 1 {
      EagerFieldsAt(fields[1..], c, read, 0);
    }
  }

  lemma {:induction false} NullStaysNull(v: Value, c: Resolver, read: SecretRef -> string, path: KeyPath)
    requires Eager(v, c, read).Ok? && ValueAt(v, path) == Some(Null)
    ensures ValueAt(Eager(v, c, read).value, path) == Some(Null)
    decreases |path|
  {
    if path != [] {
      var i := IndexOf(v.fields, path[0]);
      EagerFieldsAt(v.fields, c, read, i);
      IndexIsKept(v.fields, EagerFields(v.fields, c, read).value, path[0]);
      NullStaysNull(v.fields[i].value, c, read, path[1..]);
    }
  }

  lemma KeptIsTaken(v: Value, pattern: Pattern, i: nat)
    requires Canonical.Valid(v) && i < |TakeOut(v, pattern).kept|
    ensures var t := TakeOut(v, pattern);
      IsTaken(v, pattern, t.kept[i].path) && ValueAt(t.rest, t.kept[i].path) == Some(Null)
  {
    hide TakeOut, IsTaken, ValueAt, Canonical.Valid;
    TakenIff(v, pattern, TakeOut(v, pattern).kept[i]);
    TakenIsNull(v, pattern, TakeOut(v, pattern).kept[i].path);
  }

  /**
   All literal content is taken out, the rest is resolved, and the content is put
   back: secrets are where they were, the content arrives as it was written, and
   everything else is what eager substitution gives.
   */
  lemma SetAsideContentIsLiteral(v: Value, pattern: Pattern, c: Resolver, read: Secrets)
    requires Canonical.Valid(v) && ResolveValue(TakeOut(v, pattern).rest, c).Ok?
    requires References(ResolveValue(TakeOut(v, pattern).rest, c).value) <= read.Keys
    ensures var t := TakeOut(v, pattern);
      var r := ResolveValue(t.rest, c).value;
      var eager := Eager(t.rest, c, Reading(read));
      && WellTainted(PutAll(r, t.kept)) && SameSecrets(PutAll(r, t.kept), r)
      && eager.Ok? && Render(PutAll(r, t.kept), read) == Some(SetAll(eager.value, t.kept))
      && (forall path :: IsTaken(v, pattern, path) ==> ValueAt(SetAll(eager.value, t.kept), path) == ValueAt(v, path))
  {
    hide TakeOut, ResolveValue, References, Eager, WellTainted, Render, SameSecrets, IsTaken, ValueAt, Canonical.Valid;
    var t := TakeOut(v, pattern);
    var r := ResolveValue(t.rest, c).value;
    TaintIsExact(t.rest, c);
    forall i | 0 <= i < |t.kept| ensures SlotIsPlain(r, t.kept[i].path) {
      KeptIsTaken(v, pattern, i);
      SetAsideIsPlain(t.rest, c, t.kept[i].path);
    }
    PutAllMovesNoSecret(r, t.kept);
    DeferredEqualsEager(t.rest, c, read);
    PutAllThenRender(r, t.kept, read);
    forall path | IsTaken(v, pattern, path)
      ensures ValueAt(SetAll(Eager(t.rest, c, Reading(read)).value, t.kept), path) == ValueAt(v, path)
    {
      ContentIsThere(v, pattern, c, Reading(read), path);
    }
  }

  lemma {:induction false} TakenHasContent(v: Value, pattern: Pattern, path: KeyPath)
    requires IsTaken(v, pattern, path)
    ensures ValueAt(v, path).Some?
    decreases |pattern|
  {
    if pattern == [] {
      assert path[1..] == [];
    } else {
      TakenHasContent(v.fields[IndexOf(v.fields, path[0])].value, pattern[1..], path[1..]);
    }
  }

  lemma ContentIsThere(v: Value, pattern: Pattern, c: Resolver, read: SecretRef -> string, path: KeyPath)
    requires Canonical.Valid(v) && IsTaken(v, pattern, path) && Eager(TakeOut(v, pattern).rest, c, read).Ok?
    ensures var t := TakeOut(v, pattern);
      ValueAt(SetAll(Eager(t.rest, c, read).value, t.kept), path) == ValueAt(v, path)
  {
    hide TakeOut, Eager, IsTaken, ValueAt, Canonical.Valid, SetAll;
    var t := TakeOut(v, pattern);
    TakenHasContent(v, pattern, path);
    var k := Kept(path, ValueAt(v, path).value);
    TakenIff(v, pattern, k);
    var i :| 0 <= i < |t.kept| && t.kept[i] == k;
    KeptIsTaken(v, pattern, i);
    NullStaysNull(t.rest, c, read, path);
    TakenAreDistinct(v, pattern);
    AllIsThere(Eager(t.rest, c, read).value, t.kept, |pattern| + 1, i);
  }

  // ---- The loops ----

  /** Below a named member, only that member changes. */
  lemma {:induction false} NamedMember(fields: seq<Field>, key: string, pattern: Pattern)
    requires UniqueKeys(fields)
    ensures var i := IndexOf(fields, key);
      TakeFields(fields, [Some(key)] + pattern) ==
        if i < 0 then AsideFields(fields, [])
        else
          var t := TakeOut(fields[i].value, pattern);
          AsideFields(fields[i := Field(key, t.rest)], Prefixed(key, t.kept))
    decreases fields
  {
    hide TakeOut;
    var p := [Some(key)] + pattern;
    assert p[1..] == pattern;
    if fields != [] {
      var i, rest := IndexOf(fields, key), TakeFields(fields[1..], p);
      var first := TakeField(fields[0], p);
      assert fields == [fields[0]] + fields[1..];
      NamedMember(fields[1..], key, pattern);
      if i == 0 {
        assert IndexOf(fields[1..], key) < 0;
        assert first.kept + rest.kept == first.kept;
      } else {
        assert first == Aside(fields[0].value, []);
        assert first.kept + rest.kept == rest.kept;
      }
    }
  }

  /** What is left of an object once a named member is done. */
  function Replaced(v: Value, key: string, rest: Value): Value
    requires v.Obj?
  {
    var i := IndexOf(v.fields, key);
    if i < 0 then v else Obj(v.fields[i := Field(key, rest)])
  }

  lemma InNamedMember(v: Value, key: string, pattern: Pattern)
    requires v.Obj? && UniqueKeys(v.fields)
    ensures var i := IndexOf(v.fields, key);
      TakeOut(v, [Some(key)] + pattern) ==
        if i < 0 then Aside(v, [])
        else
          var t := TakeOut(v.fields[i].value, pattern);
          Aside(Replaced(v, key, t.rest), Prefixed(key, t.kept))
  {
    NamedMember(v.fields, key, pattern);
  }

  lemma NotAnObject(v: Value, pattern: Pattern)
    requires !v.Obj? && pattern != []
    ensures TakeOut(v, pattern) == Aside(v, [])
  {
  }

  lemma PrefixedJoins(key: string, a: seq<Kept>, b: seq<Kept>)
    ensures Prefixed(key, a + b) == Prefixed(key, a) + Prefixed(key, b)
    ensures Prefixed(key, []) == []
  {
  }

  lemma {:induction false} KeptJoin(a: seq<Field>, b: seq<Field>, pattern: Pattern)
    requires pattern != []
    ensures TakeFields(a + b, pattern).kept == TakeFields(a, pattern).kept + TakeFields(b, pattern).kept
    decreases a
  {
    hide TakeField;
    if a == [] {
      assert a + b == b;
    } else {
      assert (a + b)[0] == a[0] && (a + b)[1..] == a[1..] + b;
      KeptJoin(a[1..], b, pattern);
      var first, x, y := TakeField(a[0], pattern).kept, TakeFields(a[1..], pattern).kept, TakeFields(b, pattern).kept;
      Text.Associative(first, x, y);
    }
  }

  /** One more member. */
  lemma NextField(fields: seq<Field>, i: nat, pattern: Pattern)
    requires pattern != [] && i < |fields|
    ensures var x, t := TakeFields(fields[..i], pattern), TakeField(fields[i], pattern);
      TakeFields(fields[..i + 1], pattern)
        == AsideFields(x.rest + [Field(fields[i].key, t.rest)], x.kept + t.kept)
  {
    hide TakeField;
    assert fields[..i + 1] == fields[..i] + [fields[i]];
    KeptJoin(fields[..i], [fields[i]], pattern);
    var t := TakeField(fields[i], pattern);
    assert TakeFields([fields[i]], pattern).kept == t.kept + TakeFields([], pattern).kept == t.kept;
  }

  function ContentPath(id: string, target: string): KeyPath {
    ["containers", id, "files", target, "content"]
  }

  /** Content of the files of container `id`, with whole paths. */
  function InContainer(id: string, kept: seq<Kept>): seq<Kept> {
    Prefixed("containers", Prefixed(id, Prefixed("files", kept)))
  }

  lemma InContainerJoins(id: string, a: seq<Kept>, b: seq<Kept>)
    ensures InContainer(id, a + b) == InContainer(id, a) + InContainer(id, b) && InContainer(id, []) == []
  {
    PrefixedJoins("files", a, b);
    PrefixedJoins(id, Prefixed("files", a), Prefixed("files", b));
    PrefixedJoins("containers", Prefixed(id, Prefixed("files", a)), Prefixed(id, Prefixed("files", b)));
  }

  lemma PrefixedOne(key: string, k: Kept)
    ensures Prefixed(key, [k]) == [Kept([key] + k.path, k.content)]
  {
  }

  lemma ContentIsInContainer(id: string, target: string, content: Value)
    ensures InContainer(id, Prefixed(target, [Kept(["content"], content)])) == [Kept(ContentPath(id, target), content)]
  {
    hide Prefixed;
    var a, b := [target] + ["content"], ["files"] + ([target] + ["content"]);
    PrefixedOne(target, Kept(["content"], content));
    PrefixedOne("files", Kept(a, content));
    PrefixedOne(id, Kept(b, content));
    PrefixedOne("containers", Kept([id] + b, content));
    assert ["containers"] + ([id] + b) == ContentPath(id, target);
  }

  lemma FileIsTaken(id: string, f: Field)
    ensures var t := TakeField(f, [None]);
      if IsLiteralFile(f.value) then
        var i := IndexOf(f.value.fields, "content");
        && t.rest == Obj(f.value.fields[i := Field("content", Null)])
        && InContainer(id, t.kept) == [Kept(ContentPath(id, f.key), f.value.fields[i].value)]
      else t == Aside(f.value, [])
  {
    FileField(f);
    hide TakeField, TakeOut, TakeFile, InContainer, ContentPath, Prefixed;
    if IsLiteralFile(f.value) {
      ContentIsInContainer(id, f.key, f.value.fields[IndexOf(f.value.fields, "content")].value);
    }
  }

  lemma FileField(f: Field)
    ensures var t := TakeField(f, [None]);
      if IsLiteralFile(f.value) then
        var i := IndexOf(f.value.fields, "content");
        && t.rest == Obj(f.value.fields[i := Field("content", Null)])
        && t.kept == Prefixed(f.key, [Kept(["content"], f.value.fields[i].value)])
      else t == Aside(f.value, [])
  {
    hide IsLiteralFile, Prefixed;
    var p: Pattern := [None];
    assert p[1..] == [];
    PrefixedJoins(f.key, [], []);
  }

  /** The inner loop of `set_aside_no_expand`. */
  method TakeFiles(id: string, files: seq<Field>, before: seq<Kept>) returns (rest: seq<Field>, kept: seq<Kept>)
    ensures rest == TakeFields(files, [None]).rest
    ensures kept == before + InContainer(id, TakeFields(files, [None]).kept)
  {
    rest, kept := [], before;
    assert files[..0] == [];
    InContainerJoins(id, [], []);
    for i := 0 to |files|
      invariant rest == TakeFields(files[..i], [None]).rest
      invariant kept == before + InContainer(id, TakeFields(files[..i], [None]).kept)
    {
      hide TakeFields, TakeField, InContainer, ContentPath;
      var f := files[i];
      NextField(files, i, [None]);
      InContainerJoins(id, TakeFields(files[..i], [None]).kept, TakeField(f, [None]).kept);
      FileIsTaken(id, f);
      if IsLiteralFile(f.value) {
        var at := IndexOf(f.value.fields, "content");
        rest := rest + [Field(f.key, Obj(f.value.fields[at := Field("content", Null)]))];
        kept := kept + [Kept(ContentPath(id, f.key), f.value.fields[at].value)];
      } else {
        rest := rest + [f];
      }
    }
    assert files[..|files|] == files;
  }

  const IN_CONTAINER: Pattern := [Some("files"), None]

  /** A container's files, if it has any. */
  lemma ContainerIsTaken(f: Field)
    requires Canonical.Valid(f.value)
    ensures var t := TakeField(f, [None] + IN_CONTAINER);
      var i := if f.value.Obj? then IndexOf(f.value.fields, "files") else -1;
      if i >= 0 && f.value.fields[i].value.Obj? then
        var files := TakeFields(f.value.fields[i].value.fields, [None]);
        && t.rest == Obj(f.value.fields[i := Field("files", Obj(files.rest))])
        && Prefixed("containers", t.kept) == InContainer(f.key, files.kept)
      else t == Aside(f.value, [])
  {
    var p := [None] + IN_CONTAINER;
    assert p[1..] == IN_CONTAINER == [Some("files")] + [None];
    PrefixedJoins(f.key, [], []);
    if f.value.Obj? {
      InNamedMember(f.value, "files", [None]);
      var i := IndexOf(f.value.fields, "files");
      if i >= 0 && !f.value.fields[i].value.Obj? {
        NotAnObject(f.value.fields[i].value, [None]);
        assert f.value.fields[i := f.value.fields[i]] == f.value.fields;
        PrefixedJoins("files", [], []);
      }
    } else {
      NotAnObject(f.value, IN_CONTAINER);
    }
  }

  /** The outer loop. */
  method TakeContainers(containers: seq<Field>) returns (rest: seq<Field>, kept: seq<Kept>)
    requires forall i :: 0 <= i < |containers| ==> Canonical.Valid(containers[i].value)
    ensures rest == TakeFields(containers, [None] + IN_CONTAINER).rest
    ensures kept == Prefixed("containers", TakeFields(containers, [None] + IN_CONTAINER).kept)
  {
    rest, kept := [], [];
    ghost var p := [None] + IN_CONTAINER;
    assert containers[..0] == [];
    PrefixedJoins("containers", [], []);
    for i := 0 to |containers|
      invariant rest == TakeFields(containers[..i], p).rest
      invariant kept == Prefixed("containers", TakeFields(containers[..i], p).kept)
    {
      hide TakeFields, TakeField, InContainer, Canonical.Valid;
      var f := containers[i];
      NextField(containers, i, p);
      PrefixedJoins("containers", TakeFields(containers[..i], p).kept, TakeField(f, p).kept);
      ContainerIsTaken(f);
      var at := if f.value.Obj? then IndexOf(f.value.fields, "files") else -1;
      if at < 0 || !f.value.fields[at].value.Obj? {
        rest := rest + [f];
        PrefixedJoins("containers", [], []);
        continue;
      }
      var files;
      files, kept := TakeFiles(f.key, f.value.fields[at].value.fields, kept);
      rest := rest + [Field(f.key, Obj(f.value.fields[at := Field("files", Obj(files))]))];
    }
    assert containers[..|containers|] == containers;
  }

  /** `set_aside_no_expand` */
  method SetAsideNoExpand(spec: Value) returns (rest: Value, kept: seq<Kept>)
    requires Canonical.Valid(spec)
    ensures Aside(rest, kept) == TakeOut(spec, IN_SPEC)
  {
    hide TakeOut, TakeFields;
    ghost var p := [None] + IN_CONTAINER;
    assert IN_SPEC == [Some("containers")] + p;
    if !spec.Obj? {
      NotAnObject(spec, IN_SPEC);
      return spec, [];
    }
    InNamedMember(spec, "containers", p);
    var i := IndexOf(spec.fields, "containers");
    if i < 0 {
      return spec, [];
    }
    var containers := spec.fields[i].value;
    if !containers.Obj? {
      NotAnObject(containers, p);
      PrefixedJoins("containers", [], []);
      assert spec.fields[i := spec.fields[i]] == spec.fields;
      return spec, [];
    }
    ObjectIsTaken(containers, p);
    var fields;
    fields, kept := TakeContainers(containers.fields);
    rest := Obj(spec.fields[i := Field("containers", Obj(fields))]);
  }

  lemma ObjectIsTaken(v: Value, pattern: Pattern)
    requires v.Obj? && pattern != []
    ensures var r := TakeFields(v.fields, pattern); TakeOut(v, pattern) == Aside(Obj(r.rest), r.kept)
  {
  }

  /** The content of a workload's literal files, taken out of its params. */
  method SetAsideInParams(params: Value) returns (rest: Value, literal: seq<Kept>)
    requires Canonical.Valid(params)
    ensures Aside(rest, literal) == TakeOut(params, IN_PARAMS)
  {
    hide TakeOut;
    assert IN_PARAMS == [Some("spec")] + IN_SPEC;
    if !params.Obj? {
      NotAnObject(params, IN_PARAMS);
      return params, [];
    }
    InNamedMember(params, "spec", IN_SPEC);
    var i := IndexOf(params.fields, "spec");
    if i < 0 {
      return params, [];
    }
    var spec, kept := SetAsideNoExpand(params.fields[i].value);
    rest, literal := Obj(params.fields[i := Field("spec", spec)]), Prefixed("spec", kept);
  }

  /** The loop that puts content back. */
  method PutBack(r: Resolved, literal: seq<Kept>) returns (resource: Resolved)
    ensures resource == PutAll(r, literal)
  {
    resource := r;
    assert literal[0..] == literal;
    for i := 0 to |literal|
      invariant PutAll(resource, literal[i..]) == PutAll(r, literal)
    {
      hide Put;
      assert literal[i..][1..] == literal[i + 1..];
      resource := Put(resource, literal[i].path, literal[i].content);
    }
  }
}
