/**
 Where secrets are inside resolved inputs: `Resolved::is_tainted`
 (`crates/core/src/placeholder.rs`), `secret_paths` and `split`
 (`crates/engine/src/executor.rs`) and `put` (`crates/engine/src/planner.rs`).
 */
module Taint {
  import opened Basics
  import opened Json
  import opened Template
  import opened Placeholder
  import opened Resolve
  import opened Rendering
  import Decimal

  /** Containers hold a secret, and secret strings have one. */
  ghost predicate WellTainted(r: Resolved)
    decreases r
  {
    match r
    case Done(_) => true
    case Deferred(e) => HasSecret(e)
    case Items(items) =>
      && (exists i :: 0 <= i < |items| && items[i].IsTainted())
      && (forall i :: 0 <= i < |items| ==> WellTainted(items[i]))
    case Members(members) =>
      && (exists i :: 0 <= i < |members| && members[i].value.IsTainted())
      && (forall i :: 0 <= i < |members| ==> WellTainted(members[i].value))
  }

  /** Some placeholder of a string reads a secret. */
  ghost predicate StringMentionsSecret(s: string, c: Resolver) {
    && Parse(s).Ok? && Lookups(Parse(s).value, c).Ok?
    && exists i :: 0 <= i < |Lookups(Parse(s).value, c).value| && Lookups(Parse(s).value, c).value[i].Secret?
  }

  /** Some placeholder inside `v` reads a secret. */
  ghost predicate MentionsSecret(v: Value, c: Resolver)
    decreases v
  {
    match v
    case Str(s) => StringMentionsSecret(s, c)
    case Arr(items) => exists i :: 0 <= i < |items| && MentionsSecret(items[i], c)
    case Obj(fields) => exists i :: 0 <= i < |fields| && MentionsSecret(fields[i].value, c)
    case _ => false
  }

  predicate AnySecret(found: seq<Lookup>) {
    exists i :: 0 <= i < |found| && found[i].Secret?
  }

  lemma PushKeepsSecrets(e: SecretExpr, s: string)
    ensures HasSecret(PushLiteral(e, s)) <==> HasSecret(e)
  {
    var p := PushLiteral(e, s);
    if HasSecret(e) {
      var i :| 0 <= i < |e| && e[i].SecretText?;
      assert p[i] == e[i];
    }
    if HasSecret(p) {
      var i :| 0 <= i < |p| && p[i].SecretText?;
      assert i < |e| && e[i] == p[i];
    }
  }

  lemma {:induction false} MixSecrets(parts: seq<Part>, found: seq<Lookup>, e: SecretExpr, show: Value -> string)
    requires |found| == |Placeholders(parts)|
    ensures HasSecret(Mix(parts, found, e, show)) <==> HasSecret(e) || AnySecret(found)
    decreases |parts|
  {
    if parts != [] {
      match parts[0]
      case Literal(l) =>
        PushKeepsSecrets(e, l);
        MixSecrets(parts[1..], found, PushLiteral(e, l), show);
      case Placeholder(_) =>
        assert found == [found[0]] + found[1..];
        match found[0]
        case Plain(v) =>
          PushKeepsSecrets(e, TextOf(v, show));
          MixSecrets(parts[1..], found[1..], PushLiteral(e, TextOf(v, show)), show);
        case Secret(r) =>
          var p := e + [SecretText(r)];
          assert p[|e|].SecretText?;
          MixSecrets(parts[1..], found[1..], p, show);
          assert found[0].Secret?;
    }
  }

  lemma PartsTaint(parts: seq<Part>, found: seq<Lookup>, show: Value -> string)
    requires |found| == |Placeholders(parts)|
    ensures var r := ResolveParts(parts, found, show);
      WellTainted(r) && (r.IsTainted() <==> AnySecret(found))
  {
    if IsWhole(parts) {
      assert |found| == 1 by { assert parts[1..] == []; }
      if found[0].Secret? {
        var e := [SecretText(found[0].secret)];
        assert e[0].SecretText?;
      }
    } else {
      MixSecrets(parts, found, [], show);
    }
  }

  /**
   A resolved value is tainted exactly when a placeholder inside it reads a
   secret, at every level, and never in a plain sink.
   */
  lemma {:induction false} TaintIsExact(v: Value, c: Resolver)
    requires ResolveValue(v, c).Ok?
    ensures var r := ResolveValue(v, c).value;
      && WellTainted(r)
      && (r.IsTainted() <==> MentionsSecret(v, c))
      && (c.sink == PlainSink ==> !r.IsTainted())
    decreases v, 0
  {
    match v
    case Str(s) =>
      var parts := Parse(s).value;
      PartsTaint(parts, Lookups(parts, c).value, c.show);
    case Arr(items) =>
      ItemsTaint(items, c);
      ArrayTaint(items, ResolveItems(items, c).value, c);
    case Obj(fields) =>
      FieldsTaint(fields, c);
      ObjectTaint(fields, ResolveFields(fields, c).value, c);
    case _ =>
  }

  lemma ArrayTaint(items: seq<Value>, rs: seq<Resolved>, c: Resolver)
    requires |rs| == |items|
    requires forall i :: 0 <= i < |items| ==>
      WellTainted(rs[i]) && (rs[i].IsTainted() <==> MentionsSecret(items[i], c))
    ensures WellTainted(ArrayOf(rs)) && (ArrayOf(rs).IsTainted() <==> MentionsSecret(Arr(items), c))
  {
    hide WellTainted;
    if ArrayOf(rs).IsTainted() {
      var i :| 0 <= i < |rs| && rs[i].IsTainted();
      assert MentionsSecret(items[i], c);
      TaintedItems(rs, i);
    } else {
      PlainIsWellTainted(ArrayOf(rs).value);
    }
  }

  lemma TaintedItems(rs: seq<Resolved>, i: nat)
    requires i < |rs| && rs[i].IsTainted() && forall i :: 0 <= i < |rs| ==> WellTainted(rs[i])
    ensures WellTainted(Items(rs))
  {
  }

  lemma PlainIsWellTainted(v: Value)
    ensures WellTainted(Done(v))
  {
  }

  lemma ObjectTaint(fields: seq<Field>, ms: seq<Member>, c: Resolver)
    requires |ms| == |fields|
    requires forall i :: 0 <= i < |fields| ==>
      WellTainted(ms[i].value) && (ms[i].value.IsTainted() <==> MentionsSecret(fields[i].value, c))
    ensures WellTainted(ObjectOf(ms)) && (ObjectOf(ms).IsTainted() <==> MentionsSecret(Obj(fields), c))
  {
    hide WellTainted;
    if ObjectOf(ms).IsTainted() {
      var i :| 0 <= i < |ms| && ms[i].value.IsTainted();
      assert MentionsSecret(fields[i].value, c);
      TaintedMembers(ms, i);
    } else {
      PlainIsWellTainted(ObjectOf(ms).value);
    }
  }

  lemma TaintedMembers(ms: seq<Member>, i: nat)
    requires i < |ms| && ms[i].value.IsTainted() && forall i :: 0 <= i < |ms| ==> WellTainted(ms[i].value)
    ensures WellTainted(Members(ms))
  {
  }

  lemma {:induction false} ItemsTaint(items: seq<Value>, c: Resolver)
    requires ResolveItems(items, c).Ok?
    ensures var rs := ResolveItems(items, c).value;
      forall i :: 0 <= i < |items| ==>
        && WellTainted(rs[i])
        && (rs[i].IsTainted() <==> MentionsSecret(items[i], c))
        && (c.sink == PlainSink ==> !rs[i].IsTainted())
    decreases items, 1
  {
    hide WellTainted, MentionsSecret, ResolveValue;
    if items != [] {
      TaintIsExact(items[0], c);
      ItemsTaint(items[1..], c);
    }
  }

  lemma {:induction false} FieldsTaint(fields: seq<Field>, c: Resolver)
    requires ResolveFields(fields, c).Ok?
    ensures var ms := ResolveFields(fields, c).value;
      forall i :: 0 <= i < |fields| ==>
        && WellTainted(ms[i].value)
        && (ms[i].value.IsTainted() <==> MentionsSecret(fields[i].value, c))
        && (c.sink == PlainSink ==> !ms[i].value.IsTainted())
    decreases fields, 1
  {
    hide WellTainted, MentionsSecret, ResolveValue;
    if fields != [] {
      TaintIsExact(fields[0].value, c);
      FieldsTaint(fields[1..], c);
    }
  }

  // ---- Paths of secrets ----

  type KeyPath = seq<string>

  /** A secret string lies at `path` inside `r`. */
  ghost predicate LeafAt(r: Resolved, path: KeyPath)
    decreases |path|
  {
    match r
    case Done(_) => false
    case Deferred(_) => path == []
    case Items(items) =>
      path != [] && exists i: nat :: i < |items| && Decimal.Print(i) == path[0] && LeafAt(items[i], path[1..])
    case Members(members) =>
      path != [] && exists i: nat :: i < |members| && members[i].key == path[0] && LeafAt(members[i].value, path[1..])
  }

  ghost predicate HasLeaf(r: Resolved) {
    exists path :: LeafAt(r, path)
  }

  /** Taint marks exactly the values with a secret string inside. */
  lemma {:induction false} TaintedIffLeaf(r: Resolved)
    requires WellTainted(r)
    ensures r.IsTainted() <==> HasLeaf(r)
    decreases r
  {
    match r
    case Done(_) =>
    case Deferred(_) => assert LeafAt(r, []);
    case Items(items) =>
      var i :| 0 <= i < |items| && items[i].IsTainted();
      TaintedIffLeaf(items[i]);
      var path :| LeafAt(items[i], path);
      LeafBelowItem(items, i, path);
    case Members(members) =>
      var i :| 0 <= i < |members| && members[i].value.IsTainted();
      TaintedIffLeaf(members[i].value);
      var path :| LeafAt(members[i].value, path);
      LeafBelowMember(members, i, path);
  }

  lemma LeafBelowItem(items: seq<Resolved>, i: nat, path: KeyPath)
    requires i < |items| && LeafAt(items[i], path)
    ensures LeafAt(Items(items), [Decimal.Print(i)] + path)
  {
    assert ([Decimal.Print(i)] + path)[1..] == path;
  }

  lemma LeafBelowMember(members: seq<Member>, i: nat, path: KeyPath)
    requires i < |members| && LeafAt(members[i].value, path)
    ensures LeafAt(Members(members), [members[i].key] + path)
  {
    assert ([members[i].key] + path)[1..] == path;
  }

  /** `path` leads from `prefix` to a secret string inside `r`. */
  ghost predicate Reaches(r: Resolved, prefix: KeyPath, path: KeyPath) {
    prefix <= path && LeafAt(r, path[|prefix|..])
  }

  /** `secret_paths`: where the secret strings of `r` are. */
  method SecretPaths(r: Resolved) returns (paths: seq<KeyPath>)
    ensures forall p :: p in paths <==> LeafAt(r, p)
  {
    paths := WalkSecrets(r, [], []);
    assert forall p: KeyPath :: [] <= p && p[0..] == p;
  }

  /** Adds the secrets of `r`, which lies at `path`, to `before`. */
  method WalkSecrets(r: Resolved, path: KeyPath, before: seq<KeyPath>) returns (out: seq<KeyPath>)
    ensures forall p :: p in out <==> p in before || Reaches(r, path, p)
    decreases r
  {
    match r
    case Done(_) => out := before;
    case Deferred(_) =>
      out := before + [path];
      assert forall p: KeyPath :: path <= p && p[|path|..] == [] <==> p == path;
    case Items(items) =>
      out := before;
      for i := 0 to |items|
        invariant forall p :: p in out <==> p in before || exists k: nat :: k < i && ReachesItem(items, k, path, p)
      {
        out := WalkSecrets(items[i], path + [Decimal.Print(i)], out);
        assert forall p :: Reaches(items[i], path + [Decimal.Print(i)], p) <==> ReachesItem(items, i, path, p);
      }
      ItemsReached(items, path);
    case Members(members) =>
      out := before;
      for i := 0 to |members|
        invariant forall p :: p in out <==> p in before || exists k: nat :: k < i && ReachesMember(members, k, path, p)
      {
        out := WalkSecrets(members[i].value, path + [members[i].key], out);
        assert forall p :: Reaches(members[i].value, path + [members[i].key], p) <==>
          ReachesMember(members, i, path, p);
      }
      MembersReached(members, path);
  }

  ghost predicate ReachesItem(items: seq<Resolved>, k: nat, path: KeyPath, p: KeyPath)
    requires k < |items|
  {
    Reaches(items[k], path + [Decimal.Print(k)], p)
  }

  ghost predicate ReachesMember(members: seq<Member>, k: nat, path: KeyPath, p: KeyPath)
    requires k < |members|
  {
    Reaches(members[k].value, path + [members[k].key], p)
  }

  lemma StepDown(path: KeyPath, key: string, p: KeyPath)
    ensures path + [key] <= p <==> path <= p && |p| > |path| && p[|path|..][0] == key
    ensures path + [key] <= p ==> p[|path + [key]|..] == p[|path|..][1..]
  {
    if path <= p && |p| > |path| && p[|path|] == key {
      assert p[..|path| + 1] == path + [key];
    }
  }

  lemma ItemsReached(items: seq<Resolved>, path: KeyPath)
    ensures forall p :: Reaches(Items(items), path, p) <==>
      exists k: nat :: k < |items| && ReachesItem(items, k, path, p)
  {
    forall p ensures Reaches(Items(items), path, p) <==>
      exists k: nat :: k < |items| && ReachesItem(items, k, path, p) {
      forall k: nat | k < |items|
        ensures ReachesItem(items, k, path, p) <==>
          path <= p && |p| > |path| && p[|path|..][0] == Decimal.Print(k) && LeafAt(items[k], p[|path|..][1..])
      {
        StepDown(path, Decimal.Print(k), p);
      }
    }
  }

  lemma MembersReached(members: seq<Member>, path: KeyPath)
    ensures forall p :: Reaches(Members(members), path, p) <==>
      exists k: nat :: k < |members| && ReachesMember(members, k, path, p)
  {
    forall p ensures Reaches(Members(members), path, p) <==>
      exists k: nat :: k < |members| && ReachesMember(members, k, path, p) {
      forall k: nat | k < |members|
        ensures ReachesMember(members, k, path, p) <==>
          path <= p && |p| > |path| && p[|path|..][0] == members[k].key && LeafAt(members[k].value, p[|path|..][1..])
      {
        StepDown(path, members[k].key, p);
      }
    }
  }

  // ---- Splitting inputs ----

  datatype Inputs = Inputs(plain: seq<Field>, secret: seq<Field>)

  /** The fields with no secret inside, which do not depend on any secret. */
  function PlainFields(members: seq<Member>): seq<Field> {
    if members == [] then []
    else
      var front, last := PlainFields(members[..|members| - 1]), members[|members| - 1];
      if last.value.Done? then front + [Field(last.key, last.value.value)] else front
  }

  /** What `split` takes for plain inputs: no secret is looked at. */
  function PlainInputs(r: Resolved): Option<seq<Field>> {
    match r
    case Done(Obj(fields)) => Some(fields)
    case Done(Null) => Some([])
    case Members(members) => Some(PlainFields(members))
    case _ => None
  }

  /** Every rendered field is on one side: with the secrets exactly when it holds one. */
  ghost predicate IsSplit(members: seq<Member>, read: Secrets, inputs: Inputs) {
    && inputs.plain == PlainFields(members)
    && |inputs.plain| + |inputs.secret| == |members|
    && (forall i :: 0 <= i < |members| && Render(members[i].value, read).Some? ==>
      RenderedField(members[i], read) in (if members[i].value.IsTainted() then inputs.secret else inputs.plain))
    && (forall f :: f in inputs.secret ==>
      exists i :: 0 <= i < |members| && IsSecretField(members[i], read, f))
  }

  ghost function RenderedField(m: Member, read: Secrets): Field
    requires Render(m.value, read).Some?
  {
    Field(m.key, Render(m.value, read).value)
  }

  ghost predicate IsSecretField(m: Member, read: Secrets, f: Field) {
    m.value.IsTainted() && Render(m.value, read).Some? && f == RenderedField(m, read)
  }

  /** The resource inputs, split into fields with no secret inside and the others. */
  method Split(r: Resolved, read: Secrets) returns (result: Option<Inputs>)
    ensures result.Some? ==> PlainInputs(r) == Some(result.value.plain)
    ensures result.None? <==> PlainInputs(r).None? || !(References(r) <= read.Keys)
    ensures result.Some? && r.Members? ==> IsSplit(r.members, read, result.value)
    ensures result.Some? && !r.Members? ==> result.value.secret == []
  {
    match r
    case Done(Obj(fields)) => result := Some(Inputs(fields, []));
    case Done(Null) => result := Some(Inputs([], []));
    case Members(members) => result := SplitMembers(members, read);
    case _ => result := None;
  }

  method SplitMembers(members: seq<Member>, read: Secrets) returns (result: Option<Inputs>)
    ensures result.Some? <==> References(Members(members)) <= read.Keys
    ensures result.Some? ==> IsSplit(members, read, result.value)
  {
    hide Render, References, IsSplit;
    var inputs := Inputs([], []);
    assert members[..0] == [];
    NothingIsSplit(read);
    for i := 0 to |members|
      invariant forall k :: 0 <= k < i ==> Render(members[k].value, read).Some?
      invariant IsSplit(members[..i], read, inputs)
    {
      SplitStep(members, i, read, inputs);
      var value := Render(members[i].value, read);
      if value.None? {
        OneFails(members, i, read);
        return None;
      }
      if members[i].value.IsTainted() {
        inputs := inputs.(secret := inputs.secret + [Field(members[i].key, value.value)]);
      } else {
        inputs := inputs.(plain := inputs.plain + [Field(members[i].key, value.value)]);
      }
    }
    assert members[..|members|] == members;
    AllRender(members, read);
    result := Some(inputs);
  }

  lemma NothingIsSplit(read: Secrets)
    ensures IsSplit([], read, Inputs([], []))
  {
  }

  lemma SplitStep(members: seq<Member>, i: nat, read: Secrets, inputs: Inputs)
    requires i < |members| && IsSplit(members[..i], read, inputs)
    ensures var m := members[i]; Render(m.value, read).Some? ==>
      IsSplit(members[..i + 1], read,
        if m.value.IsTainted() then inputs.(secret := inputs.secret + [RenderedField(m, read)])
        else inputs.(plain := inputs.plain + [RenderedField(m, read)]))
  {
    hide Render;
    var a, b, m := members[..i], members[..i + 1], members[i];
    assert b == a + [m] && b[..|b| - 1] == a;
    if Render(m.value, read).Some? {
      PlainRender(m.value, read);
      var f := RenderedField(m, read);
      if m.value.IsTainted() {
        assert IsSecretField(b[i], read, f);
        forall g | g in inputs.secret ensures exists k :: 0 <= k < |b| && IsSecretField(b[k], read, g) {
          var k :| 0 <= k < |a| && IsSecretField(a[k], read, g);
          assert b[k] == a[k];
        }
      } else {
        forall g | g in inputs.secret ensures exists k :: 0 <= k < |b| && IsSecretField(b[k], read, g) {
          var k :| 0 <= k < |a| && IsSecretField(a[k], read, g);
          assert b[k] == a[k];
        }
      }
    }
  }

  lemma PlainRender(r: Resolved, read: Secrets)
    ensures r.Done? ==> Render(r, read) == Some(r.value)
  {
  }

  lemma OneFails(members: seq<Member>, i: nat, read: Secrets)
    requires i < |members| && Render(members[i].value, read).None?
    ensures !(References(Members(members)) <= read.Keys)
  {
    RendersIffRead(members[i].value, read);
    var s :| s in References(members[i].value) && s !in read.Keys;
    assert s in References(Members(members));
  }

  lemma AllRender(members: seq<Member>, read: Secrets)
    requires forall k :: 0 <= k < |members| ==> Render(members[k].value, read).Some?
    ensures References(Members(members)) <= read.Keys
  {
    forall s | s in References(Members(members)) ensures s in read.Keys {
      var i :| 0 <= i < |members| && s in References(members[i].value);
      RendersIffRead(members[i].value, read);
    }
  }

  // ---- Putting set-aside content back ----

  /** `v` with the object member at `path` replaced, if there is one. */
  function SetAt(v: Value, path: KeyPath, content: Value): Value
    decreases |path|
  {
    if path == [] then content
    else if !v.Obj? then v
    else
      var i := IndexOf(v.fields, path[0]);
      if i < 0 then v
      else Obj(v.fields[i := Field(path[0], SetAt(v.fields[i].value, path[1..], content))])
  }

  function MemberIndex(members: seq<Member>, key: string): (r: int)
    ensures -1 <= r < |members|
    ensures r >= 0 ==> members[r].key == key
    ensures r < 0 ==> forall i :: 0 <= i < |members| ==> members[i].key != key
    ensures forall i :: 0 <= i < r ==> members[i].key != key
  {
    if members == [] then -1
    else if members[0].key == key then 0
    else
      var r := MemberIndex(members[1..], key);
      if r < 0 then -1 else r + 1
  }

  /** Puts `content` back at `path` in `r`, where it was set aside. */
  function Put(r: Resolved, path: KeyPath, content: Value): Resolved
    decreases |path|
  {
    if path == [] then Done(content)
    else
      match r
      case Done(v) => Done(SetAt(v, path, content))
      case Members(members) =>
        var i := MemberIndex(members, path[0]);
        if i < 0 then r
        else Members(members[i := Member(path[0], Put(members[i].value, path[1..], content))])
      case _ => r
  }

  lemma {:induction false} MembersRenderAt(members: seq<Member>, read: Secrets)
    requires RenderMembers(members, read).Some?
    ensures forall i :: 0 <= i < |members| ==>
      && Render(members[i].value, read).Some?
      && RenderMembers(members, read).value[i] == Field(members[i].key, Render(members[i].value, read).value)
  {
    hide Render;
    if members != [] {
      MembersRenderAt(members[1..], read);
    }
  }

  lemma {:induction false} MembersRenderBack(members: seq<Member>, read: Secrets, fields: seq<Field>)
    requires |fields| == |members|
    requires forall i :: 0 <= i < |members| ==>
      Render(members[i].value, read) == Some(fields[i].value) && fields[i].key == members[i].key
    ensures RenderMembers(members, read) == Some(fields)
  {
    hide Render;
    if members != [] {
      MembersRenderBack(members[1..], read, fields[1..]);
      assert fields == [fields[0]] + fields[1..];
      assert fields[0] == Field(members[0].key, fields[0].value);
    }
  }

  lemma SameIndex(members: seq<Member>, fields: seq<Field>, key: string)
    requires |fields| == |members| && forall i :: 0 <= i < |members| ==> fields[i].key == members[i].key
    ensures MemberIndex(members, key) == IndexOf(fields, key)
  {
  }

  /** Putting content back and rendering is rendering and putting content back. */
  lemma {:induction false} PutThenRender(r: Resolved, path: KeyPath, content: Value, read: Secrets)
    requires Render(r, read).Some?
    ensures Render(Put(r, path, content), read) == Some(SetAt(Render(r, read).value, path, content))
    decreases |path|
  {
    if path != [] && r.Members? {
      MembersRenderAt(r.members, read);
      var fields := RenderMembers(r.members, read).value;
      SameIndex(r.members, fields, path[0]);
      var i := MemberIndex(r.members, path[0]);
      if i >= 0 {
        var child := r.members[i].value;
        PutThenRender(child, path[1..], content, read);
        hide Render, SetAt;
        var changed := Member(path[0], Put(child, path[1..], content));
        var field := Field(path[0], SetAt(fields[i].value, path[1..], content));
        MembersRenderBack(r.members[i := changed], read, fields[i := field]);
        PutRendersMembers(r, path, content, read);
      }
    }
  }

  lemma PutRendersMembers(r: Resolved, path: KeyPath, content: Value, read: Secrets)
    requires path != [] && r.Members? && Render(r, read).Some?
    requires var i := MemberIndex(r.members, path[0]); i >= 0
    requires var i := MemberIndex(r.members, path[0]);
      var fields := RenderMembers(r.members, read).value;
      && IndexOf(fields, path[0]) == i
      && RenderMembers(r.members[i := Member(path[0], Put(r.members[i].value, path[1..], content))], read)
        == Some(fields[i := Field(path[0], SetAt(fields[i].value, path[1..], content))])
    ensures Render(Put(r, path, content), read) == Some(SetAt(Render(r, read).value, path, content))
  {
  }

  ghost predicate OtherTainted(members: seq<Member>, i: int) {
    exists j :: 0 <= j < |members| && j != i && members[j].value.IsTainted()
  }

  /** The object that receives the content holds a secret elsewhere. */
  ghost predicate KeepsTaint(r: Resolved, path: KeyPath)
    decreases |path|
  {
    if path == [] || !r.Members? then true
    else
      var i := MemberIndex(r.members, path[0]);
      i >= 0 ==> if |path| == 1 then OtherTainted(r.members, i) else KeepsTaint(r.members[i].value, path[1..])
  }

  lemma PutKeepsShape(r: Resolved, path: KeyPath, content: Value)
    requires path != []
    ensures Put(r, path, content).IsTainted() <==> r.IsTainted()
  {
  }

  /** Putting content back keeps taint exact in just this case. */
  lemma {:induction false} PutKeepsTaintIff(r: Resolved, path: KeyPath, content: Value)
    requires WellTainted(r)
    ensures WellTainted(Put(r, path, content)) <==> KeepsTaint(r, path)
    decreases |path|
  {
    if path != [] && r.Members? {
      var i := MemberIndex(r.members, path[0]);
      if i >= 0 {
        var child := r.members[i].value;
        var put := Put(child, path[1..], content);
        PutKeepsTaintIff(child, path[1..], content);
        if |path| > 1 {
          PutKeepsShape(child, path[1..], content);
        }
        OneMemberChanged(r.members, i, Member(path[0], put));
      }
    }
  }

  lemma MembersTaint(members: seq<Member>)
    ensures WellTainted(Members(members)) <==>
      && (exists i :: 0 <= i < |members| && members[i].value.IsTainted())
      && (forall i :: 0 <= i < |members| ==> WellTainted(members[i].value))
  {
  }

  lemma OneMemberChanged(members: seq<Member>, i: nat, m: Member)
    requires i < |members| && WellTainted(Members(members))
    ensures WellTainted(Members(members[i := m])) <==>
      WellTainted(m.value) && (m.value.IsTainted() || OtherTainted(members, i))
    ensures !members[i].value.IsTainted() ==> OtherTainted(members, i)
    ensures m.value.IsTainted() == members[i].value.IsTainted() ==> m.value.IsTainted() || OtherTainted(members, i)
  {
    hide WellTainted;
    var changed := members[i := m];
    assert changed[i] == m;
    MembersTaint(members);
    MembersTaint(changed);
    var k :| 0 <= k < |members| && members[k].value.IsTainted();
    if OtherTainted(members, i) {
      var j :| 0 <= j < |members| && j != i && members[j].value.IsTainted();
      assert changed[j].value.IsTainted();
    }
    if exists j :: 0 <= j < |changed| && changed[j].value.IsTainted() {
      var j :| 0 <= j < |changed| && changed[j].value.IsTainted();
      assert j != i ==> members[j].value.IsTainted();
    }
    assert forall j :: 0 <= j < |members| && j != i ==> changed[j] == members[j];
  }

  /** What lies at `path` has no secret inside. */
  ghost predicate SlotIsPlain(r: Resolved, path: KeyPath)
    decreases |path|
  {
    match r
    case Done(_) => true
    case Members(members) =>
      path != [] && MemberIndex(members, path[0]) >= 0
      && SlotIsPlain(members[MemberIndex(members, path[0])].value, path[1..])
    case _ => false
  }

  /** Content put where nothing was secret moves no secret. */
  lemma {:induction false} PutMovesNoSecret(r: Resolved, path: KeyPath, content: Value)
    requires WellTainted(r) && SlotIsPlain(r, path)
    ensures KeepsTaint(r, path) && WellTainted(Put(r, path, content))
    ensures forall q :: LeafAt(Put(r, path, content), q) <==> LeafAt(r, q)
    ensures References(Put(r, path, content)) == References(r)
    decreases |path|
  {
    PutKeepsTaintIff(r, path, content);
    if path != [] && r.Members? {
      var i := MemberIndex(r.members, path[0]);
      var child := r.members[i].value;
      PutMovesNoSecret(child, path[1..], content);
      var m := Member(path[0], Put(child, path[1..], content));
      OneMemberChanged(r.members, i, m);
      SameLeaves(r.members, i, m);
    }
  }

  lemma SameLeaves(members: seq<Member>, i: nat, m: Member)
    requires i < |members| && m.key == members[i].key
    requires forall q :: LeafAt(m.value, q) <==> LeafAt(members[i].value, q)
    requires References(m.value) == References(members[i].value)
    ensures forall q :: LeafAt(Members(members[i := m]), q) <==> LeafAt(Members(members), q)
    ensures References(Members(members[i := m])) == References(Members(members))
  {
    var changed := members[i := m];
    assert forall k :: 0 <= k < |members| ==> changed[k].key == members[k].key;
    assert forall k :: 0 <= k < |members| ==> References(changed[k].value) == References(members[k].value);
    forall q ensures LeafAt(Members(changed), q) <==> LeafAt(Members(members), q) {
      if q != [] {
        assert forall k: nat :: k < |members| ==>
          (LeafAt(changed[k].value, q[1..]) <==> LeafAt(members[k].value, q[1..]));
      }
    }
  }

  /** Content that `put` can lose track of: the only secret of its object. */
  lemma PutCanHideASecretsAbsence()
    ensures var r := Members([Member("content", Deferred([SecretText(SecretRef("s", "r", None))]))]);
      WellTainted(r) && !KeepsTaint(r, ["content"]) && !WellTainted(Put(r, ["content"], Null))
  {
    var e := [SecretText(SecretRef("s", "r", None))];
    var r := Members([Member("content", Deferred(e))]);
    assert e[0].SecretText?;
    assert r.members[0].value.IsTainted();
    assert WellTainted(Deferred(e));
    PutKeepsTaintIff(r, ["content"], Null);
  }

  /** The member of `v` at `path`. */
  function ValueAt(v: Value, path: KeyPath): Option<Value>
    decreases |path|
  {
    if path == [] then Some(v)
    else if !v.Obj? || IndexOf(v.fields, path[0]) < 0 then None
    else ValueAt(v.fields[IndexOf(v.fields, path[0])].value, path[1..])
  }
}
