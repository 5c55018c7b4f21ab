/**
 Rendering resolved inputs: `references`, `render`, `split` and `secret_paths`
 in `crates/engine/src/executor.rs`, and `put` in `crates/engine/src/planner.rs`.
 */
module Rendering {
  import opened Basics
  import opened Json
  import opened Template
  import opened Placeholder
  import opened Resolve

  type Secrets = map<SecretRef, string>

  // ---- References and rendering ----

  ghost function ExprRefs(e: SecretExpr): set<SecretRef> {
    set i | 0 <= i < |e| && e[i].SecretText? :: e[i].secret
  }

  /** Every secret reference in `r`. */
  ghost function References(r: Resolved): set<SecretRef>
    decreases r
  {
    match r
    case Done(_) => {}
    case Deferred(e) => ExprRefs(e)
    case Items(items) => set i, s | 0 <= i < |items| && s in References(items[i]) :: s
    case Members(members) => set i, s | 0 <= i < |members| && s in References(members[i].value) :: s
  }

  /** The text of an expression, if every secret in it was read. */
  function RenderExpr(e: SecretExpr, read: Secrets): Option<string> {
    if e == [] then Some("")
    else
      match RenderExpr(e[..|e| - 1], read)
      case None => None
      case Some(text) =>
        match e[|e| - 1]
        case LiteralText(s) => Some(text + s)
        case SecretText(r) => if r in read then Some(text + read[r]) else None
  }

  /** `r` with every secret rendered from `read`; fails on a secret that was not read. */
  function Render(r: Resolved, read: Secrets): Option<Value>
    decreases r, 0
  {
    match r
    case Done(v) => Some(v)
    case Deferred(e) => (match RenderExpr(e, read) case None => None case Some(t) => Some(Str(t)))
    case Items(items) => (match RenderItems(items, read) case None => None case Some(vs) => Some(Arr(vs)))
    case Members(members) => (match RenderMembers(members, read) case None => None case Some(fs) => Some(Obj(fs)))
  }

  function RenderItems(items: seq<Resolved>, read: Secrets): (r: Option<seq<Value>>)
    ensures r.Some? ==> |r.value| == |items|
    decreases items, 1
  {
    if items == [] then Some([])
    else
      match (Render(items[0], read), RenderItems(items[1..], read))
      case (Some(first), Some(rest)) => Some([first] + rest)
      case _ => None
  }

  function RenderMembers(members: seq<Member>, read: Secrets): (r: Option<seq<Field>>)
    ensures r.Some? ==> |r.value| == |members|
    decreases members, 1
  {
    if members == [] then Some([])
    else
      match (Render(members[0].value, read), RenderMembers(members[1..], read))
      case (Some(first), Some(rest)) => Some([Field(members[0].key, first)] + rest)
      case _ => None
  }

  lemma {:induction false} ExprRenders(e: SecretExpr, read: Secrets)
    ensures RenderExpr(e, read).Some? <==> ExprRefs(e) <= read.Keys
    ensures RenderExpr(e, read).Some? ==> RenderExpr(e, read).value == RenderText(e, Reading(read))
  {
    if e != [] {
      var front, last := e[..|e| - 1], e[|e| - 1];
      ExprRenders(front, read);
      assert ExprRefs(e) == ExprRefs(front) + (if last.SecretText? then {last.secret} else {}) by {
        assert e == front + [last];
      }
    }
  }

  /** The secrets that were read, as a total function. */
  function Reading(read: Secrets): SecretRef -> string {
    r => if r in read then read[r] else ""
  }

  lemma RefsOfItems(items: seq<Resolved>)
    requires items != []
    ensures References(Items(items)) == References(items[0]) + References(Items(items[1..]))
  {
    var rest := items[1..];
    assert forall i :: 0 <= i < |rest| ==> rest[i] == items[i + 1];
    assert forall i :: 0 < i < |items| ==> items[i] == rest[i - 1];
  }

  lemma RefsOfMembers(members: seq<Member>)
    requires members != []
    ensures References(Members(members)) == References(members[0].value) + References(Members(members[1..]))
  {
    var rest := members[1..];
    assert forall i :: 0 <= i < |rest| ==> rest[i] == members[i + 1];
    assert forall i :: 0 < i < |members| ==> members[i] == rest[i - 1];
  }

  /** Rendering succeeds exactly when every reference was read. */
  lemma {:induction false} RendersIffRead(r: Resolved, read: Secrets)
    ensures Render(r, read).Some? <==> References(r) <= read.Keys
    decreases r, 0
  {
    match r
    case Done(_) =>
    case Deferred(e) => ExprRenders(e, read);
    case Items(items) => ItemsRenderIffRead(items, read);
    case Members(members) => MembersRenderIffRead(members, read);
  }

  lemma {:induction false} ItemsRenderIffRead(items: seq<Resolved>, read: Secrets)
    ensures RenderItems(items, read).Some? <==> References(Items(items)) <= read.Keys
    decreases items, 1
  {
    if items != [] {
      hide References;
      RefsOfItems(items);
      RendersIffRead(items[0], read);
      ItemsRenderIffRead(items[1..], read);
    }
  }

  lemma {:induction false} MembersRenderIffRead(members: seq<Member>, read: Secrets)
    ensures RenderMembers(members, read).Some? <==> References(Members(members)) <= read.Keys
    decreases members, 1
  {
    if members != [] {
      hide References;
      RefsOfMembers(members);
      RendersIffRead(members[0].value, read);
      MembersRenderIffRead(members[1..], read);
    }
  }

  // ---- Eager substitution ----

  /** The text of `parts` with every placeholder replaced at once. */
  function MixText(parts: seq<Part>, found: seq<Lookup>, read: SecretRef -> string, show: Value -> string): string
    requires |found| == |Placeholders(parts)|
  {
    if parts == [] then ""
    else
      match parts[0]
      case Literal(l) => l + MixText(parts[1..], found, read, show)
      case Placeholder(_) =>
        (match found[0] case Plain(v) => TextOf(v, show) case Secret(r) => read(r))
        + MixText(parts[1..], found[1..], read, show)
  }

  function EagerParts(parts: seq<Part>, found: seq<Lookup>, read: SecretRef -> string, show: Value -> string): Value
    requires |found| == |Placeholders(parts)|
  {
    if IsWhole(parts) then
      match found[0]
      case Plain(v) => v
      case Secret(r) => Str(read(r))
    else Str(MixText(parts, found, read, show))
  }

  /** `v` with every placeholder substituted at once, secrets included. */
  function Eager(v: Value, c: Resolver, read: SecretRef -> string): Result<Value, ErrorKind>
    decreases v, 0
  {
    match v
    case Str(s) =>
      (match Parse(s)
       case Err(_) => Err(Syntax)
       case Ok(parts) =>
         match Lookups(parts, c)
         case Err(e) => Err(e)
         case Ok(found) => Ok(EagerParts(parts, found, read, c.show)))
    case Arr(items) => (match EagerItems(items, c, read) case Err(e) => Err(e) case Ok(vs) => Ok(Arr(vs)))
    case Obj(fields) => (match EagerFields(fields, c, read) case Err(e) => Err(e) case Ok(fs) => Ok(Obj(fs)))
    case _ => Ok(v)
  }

  function EagerItems(items: seq<Value>, c: Resolver, read: SecretRef -> string): Result<seq<Value>, ErrorKind>
    decreases items, 1
  {
    if items == [] then Ok([])
    else
      match Eager(items[0], c, read)
      case Err(e) => Err(e)
      case Ok(first) =>
        match EagerItems(items[1..], c, read)
        case Err(e) => Err(e)
        case Ok(rest) => Ok([first] + rest)
  }

  function EagerFields(fields: seq<Field>, c: Resolver, read: SecretRef -> string): Result<seq<Field>, ErrorKind>
    decreases fields, 1
  {
    if fields == [] then Ok([])
    else
      match Eager(fields[0].value, c, read)
      case Err(e) => Err(e)
      case Ok(first) =>
        match EagerFields(fields[1..], c, read)
        case Err(e) => Err(e)
        case Ok(rest) => Ok([Field(fields[0].key, first)] + rest)
  }

  lemma PushRenders(e: SecretExpr, s: string, read: SecretRef -> string)
    ensures RenderText(PushLiteral(e, s), read) == RenderText(e, read) + s
  {
    var p := PushLiteral(e, s);
    if e != [] && e[|e| - 1].LiteralText? {
      assert p[..|p| - 1] == e[..|e| - 1];
    } else if s != "" {
      assert p[..|p| - 1] == e;
    }
  }

  lemma SecretRenders(e: SecretExpr, r: SecretRef, read: SecretRef -> string)
    ensures RenderText(e + [SecretText(r)], read) == RenderText(e, read) + read(r)
  {
    var p := e + [SecretText(r)];
    assert p[..|p| - 1] == e;
  }

  /** Rendering what was mixed gives the mixed text. */
  lemma {:induction false} MixRenders(parts: seq<Part>, found: seq<Lookup>, e: SecretExpr,
      read: SecretRef -> string, show: Value -> string)
    requires |found| == |Placeholders(parts)|
    ensures RenderText(Mix(parts, found, e, show), read) == RenderText(e, read) + MixText(parts, found, read, show)
    decreases |parts|
  {
    if parts != [] {
      match parts[0]
      case Literal(l) =>
        PushRenders(e, l, read);
        MixRenders(parts[1..], found, PushLiteral(e, l), read, show);
      case Placeholder(_) =>
        match found[0]
        case Plain(v) =>
          PushRenders(e, TextOf(v, show), read);
          MixRenders(parts[1..], found[1..], PushLiteral(e, TextOf(v, show)), read, show);
        case Secret(r) =>
          SecretRenders(e, r, read);
          MixRenders(parts[1..], found[1..], e + [SecretText(r)], read, show);
    }
  }

  lemma {:induction false} NoSecretsNoReading(e: SecretExpr, a: SecretRef -> string, b: SecretRef -> string)
    requires !HasSecret(e)
    ensures RenderText(e, a) == RenderText(e, b)
  {
    if e != [] {
      var front := e[..|e| - 1];
      assert forall i :: 0 <= i < |front| ==> front[i] == e[i];
      assert e[|e| - 1].LiteralText?;
      NoSecretsNoReading(front, a, b);
    }
  }

  lemma StringRendersEagerly(parts: seq<Part>, found: seq<Lookup>, read: Secrets, show: Value -> string)
    requires |found| == |Placeholders(parts)|
    requires References(ResolveParts(parts, found, show)) <= read.Keys
    ensures Render(ResolveParts(parts, found, show), read) == Some(EagerParts(parts, found, Reading(read), show))
  {
    if IsWhole(parts) {
      if found[0].Secret? {
        var r := found[0].secret;
        ExprRenders([SecretText(r)], read);
        SecretRenders([], r, Reading(read));
        assert [] + [SecretText(r)] == [SecretText(r)] && "" + Reading(read)(r) == Reading(read)(r);
      }
    } else {
      var e := Mix(parts, found, [], show);
      var text := MixText(parts, found, Reading(read), show);
      MixRenders(parts, found, [], Reading(read), show);
      assert "" + text == text;
      if HasSecret(e) {
        ExprRenders(e, read);
      } else {
        NoSecretsNoReading(e, Reading(read), NoSecret);
      }
    }
  }

  lemma ArrayRenders(rs: seq<Resolved>, read: Secrets)
    requires RenderItems(rs, read).Some?
    ensures Render(ArrayOf(rs), read) == Some(Arr(RenderItems(rs, read).value))
    ensures References(ArrayOf(rs)) == References(Items(rs))
  {
    if ArrayOf(rs).Done? {
      PlainItemsRender(rs, read);
      assert ArrayOf(rs).value.items == RenderItems(rs, read).value;
    }
  }

  lemma {:induction false} PlainItemsRender(rs: seq<Resolved>, read: Secrets)
    requires forall i :: 0 <= i < |rs| ==> rs[i].Done?
    ensures RenderItems(rs, read).Some?
    ensures forall i :: 0 <= i < |rs| ==> RenderItems(rs, read).value[i] == rs[i].value
  {
    if rs != [] {
      PlainItemsRender(rs[1..], read);
    }
  }

  lemma ObjectRenders(ms: seq<Member>, read: Secrets)
    requires RenderMembers(ms, read).Some?
    ensures Render(ObjectOf(ms), read) == Some(Obj(RenderMembers(ms, read).value))
    ensures References(ObjectOf(ms)) == References(Members(ms))
  {
    if ObjectOf(ms).Done? {
      PlainMembersRender(ms, read);
      assert ObjectOf(ms).value.fields == RenderMembers(ms, read).value;
    }
  }

  lemma {:induction false} PlainMembersRender(ms: seq<Member>, read: Secrets)
    requires forall i :: 0 <= i < |ms| ==> ms[i].value.Done?
    ensures RenderMembers(ms, read).Some?
    ensures forall i :: 0 <= i < |ms| ==> RenderMembers(ms, read).value[i] == Field(ms[i].key, ms[i].value.value)
  {
    if ms != [] {
      PlainMembersRender(ms[1..], read);
    }
  }

  lemma RefsOfArray(rs: seq<Resolved>)
    ensures References(ArrayOf(rs)) == References(Items(rs))
  {
  }

  lemma RefsOfObject(ms: seq<Member>)
    ensures References(ObjectOf(ms)) == References(Members(ms))
  {
  }

  /**
   Resolving and rendering later gives what substituting everything at once
   gives, errors included, whatever the secrets are.
   */
  lemma {:induction false} DeferredEqualsEager(v: Value, c: Resolver, read: Secrets)
    ensures match ResolveValue(v, c)
      case Err(e) => Eager(v, c, Reading(read)) == Err(e)
      case Ok(r) =>
        && Eager(v, c, Reading(read)).Ok?
        && (References(r) <= read.Keys ==> Render(r, read) == Some(Eager(v, c, Reading(read)).value))
    decreases v, 0
  {
    hide References, Render, ArrayOf, ObjectOf;
    match v
    case Str(s) =>
      if Parse(s).Ok? && Lookups(Parse(s).value, c).Ok? {
        var parts, found := Parse(s).value, Lookups(Parse(s).value, c).value;
        if References(ResolveParts(parts, found, c.show)) <= read.Keys {
          StringRendersEagerly(parts, found, read, c.show);
        }
      }
    case Arr(items) =>
      ItemsAreEager(items, c, read);
      if ResolveItems(items, c).Ok? {
        var rs := ResolveItems(items, c).value;
        RefsOfArray(rs);
        if References(Items(rs)) <= read.Keys {
          ItemsRenderIffRead(rs, read);
          ArrayRenders(rs, read);
        }
      }
    case Obj(fields) =>
      FieldsAreEager(fields, c, read);
      if ResolveFields(fields, c).Ok? {
        var ms := ResolveFields(fields, c).value;
        RefsOfObject(ms);
        if References(Members(ms)) <= read.Keys {
          MembersRenderIffRead(ms, read);
          ObjectRenders(ms, read);
        }
      }
    case _ => RendersPlain(v, read);
  }

  lemma RendersPlain(v: Value, read: Secrets)
    ensures Render(Done(v), read) == Some(v) && References(Done(v)) == {}
  {
  }

  lemma {:induction false} ItemsAreEager(items: seq<Value>, c: Resolver, read: Secrets)
    ensures match ResolveItems(items, c)
      case Err(e) => EagerItems(items, c, Reading(read)) == Err(e)
      case Ok(rs) =>
        && EagerItems(items, c, Reading(read)).Ok?
        && (References(Items(rs)) <= read.Keys ==>
          RenderItems(rs, read) == Some(EagerItems(items, c, Reading(read)).value))
    decreases items, 1
  {
    hide References, Render, ResolveValue, Eager;
    if items != [] {
      DeferredEqualsEager(items[0], c, read);
      ItemsAreEager(items[1..], c, read);
      if ResolveItems(items, c).Ok? {
        var rs := ResolveItems(items, c).value;
        RefsOfItems(rs);
        assert rs[1..] == ResolveItems(items[1..], c).value;
      }
    }
  }

  lemma {:induction false} FieldsAreEager(fields: seq<Field>, c: Resolver, read: Secrets)
    ensures match ResolveFields(fields, c)
      case Err(e) => EagerFields(fields, c, Reading(read)) == Err(e)
      case Ok(ms) =>
        && EagerFields(fields, c, Reading(read)).Ok?
        && (References(Members(ms)) <= read.Keys ==>
          RenderMembers(ms, read) == Some(EagerFields(fields, c, Reading(read)).value))
    decreases fields, 1
  {
    hide References, Render, ResolveValue, Eager;
    if fields != [] {
      DeferredEqualsEager(fields[0].value, c, read);
      FieldsAreEager(fields[1..], c, read);
      if ResolveFields(fields, c).Ok? {
        var ms := ResolveFields(fields, c).value;
        RefsOfMembers(ms);
        assert ms[1..] == ResolveFields(fields[1..], c).value;
      }
    }
  }
}
