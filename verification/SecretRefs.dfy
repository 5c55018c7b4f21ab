/** Secret references written in a definition: `references` in `crates/engine/src/planner.rs`. */
module SecretRefs {
  import opened Basics
  import opened Json
  import opened Placeholder
  import opened Resolve
  import opened Rendering
  import opened Taint

  /** How an object reads as a reference, if it does. */
  type Reader = Value -> Option<SecretRef>

  /** The references in `v`, which mirrors the structure of plain inputs. */
  function ReferencesIn(v: Value, asRef: Reader): Resolved
    decreases v, 0
  {
    match v
    case Obj(fields) =>
      if asRef(v).Some? then Deferred([SecretText(asRef(v).value)])
      else
        var ms := MembersIn(fields, asRef);
        if forall i :: 0 <= i < |ms| ==> !ms[i].value.IsTainted() then Done(v) else Members(ms)
    case Arr(items) =>
      var rs := ItemsIn(items, asRef);
      if forall i :: 0 <= i < |rs| ==> !rs[i].IsTainted() then Done(v) else Items(rs)
    case _ => Done(v)
  }

  function ItemsIn(items: seq<Value>, asRef: Reader): (r: seq<Resolved>)
    ensures |r| == |items|
    decreases items, 1
  {
    if items == [] then [] else [ReferencesIn(items[0], asRef)] + ItemsIn(items[1..], asRef)
  }

  function MembersIn(fields: seq<Field>, asRef: Reader): (r: seq<Member>)
    ensures |r| == |fields|
    decreases fields, 1
  {
    if fields == [] then []
    else [Member(fields[0].key, ReferencesIn(fields[0].value, asRef))] + MembersIn(fields[1..], asRef)
  }

  /** `v` with every reference replaced by the secret it names. */
  function Substituted(v: Value, asRef: Reader, read: SecretRef -> string): Value
    decreases v, 0
  {
    match v
    case Obj(fields) =>
      if asRef(v).Some? then Str(read(asRef(v).value)) else Obj(SubstitutedFields(fields, asRef, read))
    case Arr(items) => Arr(SubstitutedItems(items, asRef, read))
    case _ => v
  }

  function SubstitutedItems(items: seq<Value>, asRef: Reader, read: SecretRef -> string): seq<Value>
    decreases items, 1
  {
    if items == [] then [] else [Substituted(items[0], asRef, read)] + SubstitutedItems(items[1..], asRef, read)
  }

  function SubstitutedFields(fields: seq<Field>, asRef: Reader, read: SecretRef -> string): seq<Field>
    decreases fields, 1
  {
    if fields == [] then []
    else [Field(fields[0].key, Substituted(fields[0].value, asRef, read))] + SubstitutedFields(fields[1..], asRef, read)
  }

  /** A value whose references are all plain reads as itself. */
  ghost predicate IsRight(v: Value, asRef: Reader, r: Resolved, read: Secrets) {
    && WellTainted(r)
    && (!r.IsTainted() ==> r == Done(v) && Substituted(v, asRef, Reading(read)) == v)
    && (References(r) <= read.Keys ==> Render(r, read) == Some(Substituted(v, asRef, Reading(read))))
  }

  /**
   Taint is exact, and rendering the references gives the value with every
   reference replaced by its secret.
   */
  lemma {:induction false} ReferencesAreRight(v: Value, asRef: Reader, read: Secrets)
    ensures IsRight(v, asRef, ReferencesIn(v, asRef), read)
    decreases v, 0
  {
    match v
    case Obj(fields) =>
      if asRef(v).Some? {
        WholeIsRight(v, asRef, asRef(v).value, read);
      } else {
        MembersAreRight(fields, asRef, read);
        ObjectIsRight(fields, asRef, read);
      }
    case Arr(items) =>
      ItemsAreRight(items, asRef, read);
      ArrayIsRight(items, asRef, read);
    case _ =>
  }

  lemma WholeIsRight(v: Value, asRef: Reader, s: SecretRef, read: Secrets)
    requires v.Obj? && asRef(v) == Some(s)
    ensures IsRight(v, asRef, Deferred([SecretText(s)]), read)
  {
    var e := [SecretText(s)];
    assert e[0].SecretText? && HasSecret(e);
    assert s in ExprRefs(e);
    assert e[..0] == [] && RenderExpr([], read) == Some("");
    if s in read {
      assert RenderExpr(e, read) == Some("" + read[s]);
      assert "" + read[s] == read[s];
    }
  }

  ghost predicate ItemsRight(items: seq<Value>, asRef: Reader, rs: seq<Resolved>, read: Secrets) {
    && |rs| == |items|
    && (forall i :: 0 <= i < |rs| ==> WellTainted(rs[i]))
    && ((forall i :: 0 <= i < |rs| ==> !rs[i].IsTainted()) ==> SubstitutedItems(items, asRef, Reading(read)) == items)
    && (References(Items(rs)) <= read.Keys ==>
      RenderItems(rs, read) == Some(SubstitutedItems(items, asRef, Reading(read))))
  }

  lemma {:induction false} ItemsAreRight(items: seq<Value>, asRef: Reader, read: Secrets)
    ensures ItemsRight(items, asRef, ItemsIn(items, asRef), read)
    decreases items, 1
  {
    if items != [] {
      var rs := ItemsIn(items, asRef);
      ReferencesAreRight(items[0], asRef, read);
      ItemsAreRight(items[1..], asRef, read);
      assert rs[0] == ReferencesIn(items[0], asRef) && rs[1..] == ItemsIn(items[1..], asRef);
      ItemsStep(items, asRef, rs, read);
    }
  }

  lemma ItemsStep(items: seq<Value>, asRef: Reader, rs: seq<Resolved>, read: Secrets)
    requires items != [] && rs != [] && IsRight(items[0], asRef, rs[0], read) &&
      ItemsRight(items[1..], asRef, rs[1..], read)
    ensures ItemsRight(items, asRef, rs, read)
  {
    hide WellTainted, References, Substituted, Render;
    RefsOfItems(rs);
    assert forall i :: 0 < i < |rs| ==> rs[i] == rs[1..][i - 1];
    assert forall i :: 0 <= i < |rs[1..]| ==> rs[1..][i] == rs[i + 1];
  }

  lemma ArrayIsRight(items: seq<Value>, asRef: Reader, read: Secrets)
    requires ItemsRight(items, asRef, ItemsIn(items, asRef), read)
    ensures IsRight(Arr(items), asRef, ReferencesIn(Arr(items), asRef), read)
  {
    hide ItemsIn, SubstitutedItems, RenderItems, References;
    var rs := ItemsIn(items, asRef);
    if i: nat :| i < |rs| && rs[i].IsTainted() {
      TaintedItems(rs, i);
    }
  }

  ghost predicate MembersRight(fields: seq<Field>, asRef: Reader, ms: seq<Member>, read: Secrets) {
    && |ms| == |fields|
    && (forall i :: 0 <= i < |ms| ==> WellTainted(ms[i].value))
    && ((forall i :: 0 <= i < |ms| ==> !ms[i].value.IsTainted()) ==>
      SubstitutedFields(fields, asRef, Reading(read)) == fields)
    && (References(Members(ms)) <= read.Keys ==>
      RenderMembers(ms, read) == Some(SubstitutedFields(fields, asRef, Reading(read))))
  }

  lemma {:induction false} MembersAreRight(fields: seq<Field>, asRef: Reader, read: Secrets)
    ensures MembersRight(fields, asRef, MembersIn(fields, asRef), read)
    decreases fields, 1
  {
    if fields != [] {
      var ms := MembersIn(fields, asRef);
      ReferencesAreRight(fields[0].value, asRef, read);
      MembersAreRight(fields[1..], asRef, read);
      assert ms[0] == Member(fields[0].key, ReferencesIn(fields[0].value, asRef)) &&
        ms[1..] == MembersIn(fields[1..], asRef);
      MembersStep(fields, asRef, ms, read);
    }
  }

  lemma MembersStep(fields: seq<Field>, asRef: Reader, ms: seq<Member>, read: Secrets)
    requires fields != [] && ms != [] && ms[0].key == fields[0].key
    requires IsRight(fields[0].value, asRef, ms[0].value, read) && MembersRight(fields[1..], asRef, ms[1..], read)
    ensures MembersRight(fields, asRef, ms, read)
  {
    hide WellTainted, References, Substituted, Render;
    RefsOfMembers(ms);
    assert forall i :: 0 < i < |ms| ==> ms[i] == ms[1..][i - 1];
    assert forall i :: 0 <= i < |ms[1..]| ==> ms[1..][i] == ms[i + 1];
  }

  lemma ObjectIsRight(fields: seq<Field>, asRef: Reader, read: Secrets)
    requires asRef(Obj(fields)).None? && MembersRight(fields, asRef, MembersIn(fields, asRef), read)
    ensures IsRight(Obj(fields), asRef, ReferencesIn(Obj(fields), asRef), read)
  {
    hide MembersIn, SubstitutedFields, RenderMembers, References;
    var ms := MembersIn(fields, asRef);
    if i: nat :| i < |ms| && ms[i].value.IsTainted() {
      TaintedMembers(ms, i);
    }
  }
}
