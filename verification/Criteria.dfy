/** Matching resource definitions to a resource: `crates/core/src/criteria.rs`. */
module Criteria {
  import opened Basics
  import opened Ids
  import opened Json
  import Canonical
  import Sorting

  /** One matching criterion. Every field is optional. */
  datatype Criterion = Criterion(
    envType: Option<string>,
    appId: Option<string>,
    envId: Option<string>,
    resId: Option<string>,
    cls: Option<string>)

  /** A co-provisioning entry of a definition. */
  datatype Provision = Provision(isDependent: bool, matchDependents: bool, params: Option<Canonical.Document>)

  datatype ProvisionEntry = ProvisionEntry(key: string, provision: Provision)

  /** How to provision one resource type, and when that applies. */
  datatype Definition = Definition(
    id: string,
    ty: string,
    driverType: string,
    driverAccount: Option<string>,
    values: Value,
    secrets: Value,
    provisions: seq<ProvisionEntry>,
    criteria: seq<Criterion>)

  /** The context a resource is resolved in. */
  datatype ResourceContext = ResourceContext(app: string, env: string, envType: string, res: Descriptor)

  datatype MatchError =
    | NoMatch
    | Ambiguous(definitions: seq<string>, weight: nat)

  predicate Agrees(field: Option<string>, value: string) {
    field.Some? ==> field.value == value
  }

  /** Every field the criterion sets equals the context; without a class, only `default` matches. */
  predicate Matches(c: Criterion, ctx: ResourceContext) {
    && Agrees(c.envType, ctx.envType) && Agrees(c.appId, ctx.app) && Agrees(c.envId, ctx.env)
    && Agrees(c.resId, ctx.res.id)
    && ctx.res.cls == (if c.cls.Some? then c.cls.value else DEFAULT_CLASS)
  }

  function Bit(field: Option<string>, weight: nat): nat {
    if field.Some? then weight else 0
  }

  function Weight(c: Criterion): nat {
    Bit(c.envType, 1) + Bit(c.appId, 2) + Bit(c.envId, 4) + Bit(c.resId, 8) + Bit(c.cls, 16)
  }

  /** `criterion_weight`: the weight of `c` if it matches. */
  method CriterionWeight(c: Criterion, ctx: ResourceContext) returns (r: Option<nat>)
    ensures r == if Matches(c, ctx) then Some(Weight(c)) else None
  {
    var weight := 0;
    if c.envType.Some? {
      if c.envType.value != ctx.envType { return None; }
      weight := weight + 1;
    }
    if c.appId.Some? {
      if c.appId.value != ctx.app { return None; }
      weight := weight + 2;
    }
    if c.envId.Some? {
      if c.envId.value != ctx.env { return None; }
      weight := weight + 4;
    }
    if c.resId.Some? {
      if c.resId.value != ctx.res.id { return None; }
      weight := weight + 8;
    }
    if c.cls.Some? {
      if c.cls.value != ctx.res.cls { return None; }
      weight := weight + 16;
    } else if ctx.res.cls != DEFAULT_CLASS {
      return None;
    }
    r := Some(weight);
  }

  /** A criterion that sets nothing matches every resource of the default class, in every context. */
  lemma EmptyMatches(ctx: ResourceContext)
    ensures Matches(Criterion(None, None, None, None, None), ctx) <==> ctx.res.cls == "default"
  {
  }

  /** Setting one more field narrows a criterion to the contexts with that value. */
  lemma SettingNarrows(c: Criterion, x: string, ctx: ResourceContext)
    ensures c.envType.None? ==> (Matches(c.(envType := Some(x)), ctx) <==> Matches(c, ctx) && ctx.envType == x)
    ensures c.appId.None? ==> (Matches(c.(appId := Some(x)), ctx) <==> Matches(c, ctx) && ctx.app == x)
    ensures c.envId.None? ==> (Matches(c.(envId := Some(x)), ctx) <==> Matches(c, ctx) && ctx.env == x)
    ensures c.resId.None? ==> (Matches(c.(resId := Some(x)), ctx) <==> Matches(c, ctx) && ctx.res.id == x)
    ensures c.cls.None? ==>
      (Matches(c.(cls := Some(x)), ctx) <==>
       Matches(c, ctx.(res := ctx.res.(cls := "default"))) && ctx.res.cls == x)
  {
  }

  /** Which fields a criterion sets, the most decisive first. */
  function Specificity(c: Criterion): seq<bool> {
    [c.cls.Some?, c.resId.Some?, c.envId.Some?, c.appId.Some?, c.envType.Some?]
  }

  /** The first field that only one of two criteria sets is set by `a`. */
  ghost predicate MoreSpecific(a: Criterion, b: Criterion) {
    SetsFirst(Specificity(a), Specificity(b))
  }

  ghost predicate SetsFirst(s: seq<bool>, t: seq<bool>)
    requires |s| == |t|
  {
    exists i :: 0 <= i < |s| && s[i] && !t[i] && forall j :: 0 <= j < i ==> s[j] == t[j]
  }

  /** Weights order criteria by their most decisive difference. */
  lemma HeavierIffMoreSpecific(a: Criterion, b: Criterion)
    ensures Weight(a) > Weight(b) <==> MoreSpecific(a, b)
    ensures Weight(a) == Weight(b) <==> Specificity(a) == Specificity(b)
  {
    hide Weight, Binary;
    var s, t := Specificity(a), Specificity(b);
    WeighsAsSpecific(a);
    WeighsAsSpecific(b);
    BinaryOrders(s, t);
  }

  /** The number whose binary digits are `s`, the most decisive first. */
  function Binary(s: seq<bool>): nat {
    if s == [] then 0 else 2 * Binary(s[..|s| - 1]) + if s[|s| - 1] then 1 else 0
  }

  lemma WeighsAsSpecific(c: Criterion)
    ensures Weight(c) == Binary(Specificity(c)) && |Specificity(c)| == 5
  {
    var s := Specificity(c);
    assert s[..4][..3] == s[..3] && s[..3][..2] == s[..2] && s[..2][..1] == s[..1] && s[..1][..0] == [];
    assert Binary(s[..2]) == 2 * Binary(s[..1]) + if s[1] then 1 else 0;
    assert Binary(s[..4]) == 2 * Binary(s[..3]) + if s[3] then 1 else 0;
  }

  /** Binary numbers of the same length are ordered by their first difference. */
  lemma BinaryOrders(s: seq<bool>, t: seq<bool>)
    requires |s| == |t|
    ensures Binary(s) > Binary(t) <==> SetsFirst(s, t)
    ensures Binary(s) == Binary(t) <==> s == t
  {
    hide Binary;
    if s != t {
      var i := FirstDifference(s, t);
      DifferenceDecides(s, t, i);
      if SetsFirst(s, t) {
        var k :| 0 <= k < |s| && s[k] && !t[k] && forall j :: 0 <= j < k ==> s[j] == t[j];
        assert k == i;
      }
    }
  }

  /** The first difference decides which number is greater. */
  lemma {:induction false} DifferenceDecides(s: seq<bool>, t: seq<bool>, i: nat)
    requires |s| == |t| && i < |s| && s[i] != t[i] && forall j :: 0 <= j < i ==> s[j] == t[j]
    ensures Binary(s) > Binary(t) <==> s[i]
    ensures Binary(s) != Binary(t)
  {
    var n := |s| - 1;
    if i < n {
      DifferenceDecides(s[..n], t[..n], i);
    } else {
      assert s[..n] == t[..n];
    }
  }

  lemma FirstDifference(s: seq<bool>, t: seq<bool>) returns (i: nat)
    requires |s| == |t| && s != t
    ensures i < |s| && s[i] != t[i] && forall j :: 0 <= j < i ==> s[j] == t[j]
  {
    if s[0] != t[0] {
      i := 0;
    } else {
      assert s == [s[0]] + s[1..] && t == [t[0]] + t[1..];
      i := FirstDifference(s[1..], t[1..]);
      i := i + 1;
    }
  }

  // ---- Definitions ----

  /** The weight of the best matching criterion. */
  function BestWeight(criteria: seq<Criterion>, ctx: ResourceContext): Option<nat> {
    if criteria == [] then None
    else
      var rest := BestWeight(criteria[1..], ctx);
      if Matches(criteria[0], ctx) && (rest.None? || rest.value <= Weight(criteria[0])) then Some(Weight(criteria[0]))
      else rest
  }

  ghost predicate IsBestWeight(criteria: seq<Criterion>, ctx: ResourceContext, w: nat) {
    && (exists c :: c in criteria && Matches(c, ctx) && Weight(c) == w)
    && (forall c :: c in criteria && Matches(c, ctx) ==> Weight(c) <= w)
  }

  /** No criterion matches, or the weight is the greatest of those that do. */
  lemma {:induction false} BestWeightIsGreatest(criteria: seq<Criterion>, ctx: ResourceContext)
    ensures BestWeight(criteria, ctx).None? <==> forall c :: c in criteria ==> !Matches(c, ctx)
    ensures BestWeight(criteria, ctx).Some? ==> IsBestWeight(criteria, ctx, BestWeight(criteria, ctx).value)
  {
    hide Matches, Weight;
    if criteria != [] {
      BestWeightIsGreatest(criteria[1..], ctx);
      assert forall c :: c in criteria <==> c == criteria[0] || c in criteria[1..];
    }
  }

  function DefinitionWeight(def: Definition, ctx: ResourceContext): Option<nat> {
    if def.ty != ctx.res.ty then None else BestWeight(def.criteria, ctx)
  }

  /** `definition_weight` */
  method WeighDefinition(def: Definition, ctx: ResourceContext) returns (r: Option<nat>)
    ensures r == DefinitionWeight(def, ctx)
  {
    hide Matches, Weight;
    r := None;
    if def.ty != ctx.res.ty {
      return;
    }
    for i := |def.criteria| downto 0
      invariant r == BestWeight(def.criteria[i..], ctx)
    {
      assert def.criteria[i..][0] == def.criteria[i] && def.criteria[i..][1..] == def.criteria[i + 1..];
      var w := CriterionWeight(def.criteria[i], ctx);
      if w.Some? && (r.None? || r.value <= w.value) {
        r := w;
      }
    }
    assert def.criteria[0..] == def.criteria;
  }

  /** The heaviest definitions, and their weight. */
  datatype Best = Best(defs: seq<Definition>, weight: nat)

  function Consider(best: Best, def: Definition, ctx: ResourceContext): Best {
    match DefinitionWeight(def, ctx)
    case None => best
    case Some(w) =>
      if best.defs == [] || w > best.weight then Best([def], w)
      else if w == best.weight then best.(defs := best.defs + [def])
      else best
  }

  function BestOf(defs: seq<Definition>, ctx: ResourceContext): Best {
    if defs == [] then Best([], 0)
    else Consider(BestOf(defs[..|defs| - 1], ctx), defs[|defs| - 1], ctx)
  }

  function IdsOf(defs: seq<Definition>): seq<string> {
    seq(|defs|, i requires 0 <= i < |defs| => defs[i].id)
  }

  function Choose(best: Best): Result<Definition, MatchError> {
    if best.defs == [] then Err(NoMatch)
    else if |best.defs| == 1 then Ok(best.defs[0])
    else Err(Ambiguous(Sorting.Sort(IdsOf(best.defs)), best.weight))
  }

  function Select(defs: seq<Definition>, ctx: ResourceContext): Result<Definition, MatchError> {
    Choose(BestOf(defs, ctx))
  }

  /** `select_definition` */
  method SelectDefinition(defs: seq<Definition>, ctx: ResourceContext) returns (r: Result<Definition, MatchError>)
    ensures r == Select(defs, ctx)
  {
    var best: seq<Definition> := [];
    var bestWeight := 0;
    for i := 0 to |defs|
      invariant BestOf(defs[..i], ctx) == Best(best, bestWeight)
    {
      assert defs[..i + 1][..i] == defs[..i];
      var w := WeighDefinition(defs[i], ctx);
      if w.None? {
        continue;
      }
      if best == [] || w.value > bestWeight {
        best := [defs[i]];
        bestWeight := w.value;
      } else if w.value == bestWeight {
        best := best + [defs[i]];
      }
    }
    assert defs[..|defs|] == defs;
    r := Choose(Best(best, bestWeight));
  }

  /** The positions of the definitions that match with weight `w`. */
  ghost function At(defs: seq<Definition>, ctx: ResourceContext, w: nat): set<nat> {
    set i: nat | i < |defs| && DefinitionWeight(defs[i], ctx) == Some(w)
  }

  ghost predicate NoneHeavier(defs: seq<Definition>, ctx: ResourceContext, w: nat) {
    forall i :: 0 <= i < |defs| && DefinitionWeight(defs[i], ctx).Some? ==> DefinitionWeight(defs[i], ctx).value <= w
  }

  ghost predicate NothingMatches(defs: seq<Definition>, ctx: ResourceContext) {
    forall i :: 0 <= i < |defs| ==> DefinitionWeight(defs[i], ctx).None?
  }

  /** `b` holds the definitions of greatest weight. */
  ghost predicate IsHeaviest(defs: seq<Definition>, ctx: ResourceContext, b: Best) {
    && (b.defs == [] <==> NothingMatches(defs, ctx))
    && (b.defs != [] ==> NoneHeavier(defs, ctx, b.weight) && |At(defs, ctx, b.weight)| == |b.defs|)
    && (forall d :: d in b.defs ==> d in defs && DefinitionWeight(d, ctx) == Some(b.weight))
  }

  lemma {:induction false} BestIsHeaviest(defs: seq<Definition>, ctx: ResourceContext)
    ensures IsHeaviest(defs, ctx, BestOf(defs, ctx))
  {
    hide DefinitionWeight, IsHeaviest, Consider;
    if defs == [] {
      NoneIsHeaviest(ctx);
    } else {
      var front := defs[..|defs| - 1];
      BestIsHeaviest(front, ctx);
      ConsiderIsHeaviest(defs, ctx, BestOf(front, ctx));
    }
  }

  lemma NoneIsHeaviest(ctx: ResourceContext)
    ensures IsHeaviest([], ctx, Best([], 0))
  {
  }

  lemma ConsiderIsHeaviest(defs: seq<Definition>, ctx: ResourceContext, a: Best)
    requires defs != [] && IsHeaviest(defs[..|defs| - 1], ctx, a)
    ensures IsHeaviest(defs, ctx, Consider(a, defs[|defs| - 1], ctx))
  {
    hide DefinitionWeight, IsHeaviest;
    var last := defs[|defs| - 1];
    match DefinitionWeight(last, ctx)
    case None => LightIsPassed(defs, ctx, a);
    case Some(w) =>
      if a.defs == [] || w > a.weight {
        HeavierReplaces(defs, ctx, a, w);
      } else if w == a.weight {
        EqualJoins(defs, ctx, a, w);
      } else {
        LightIsPassed(defs, ctx, a);
      }
  }

  lemma LightIsPassed(defs: seq<Definition>, ctx: ResourceContext, a: Best)
    requires defs != [] && IsHeaviest(defs[..|defs| - 1], ctx, a)
    requires var w := DefinitionWeight(defs[|defs| - 1], ctx); w.None? || (a.defs != [] && w.value < a.weight)
    ensures IsHeaviest(defs, ctx, a)
  {
    hide DefinitionWeight;
    var front := defs[..|defs| - 1];
    assert defs == front + [defs[|defs| - 1]];
    Positions(defs, ctx, a.weight);
    assert At(front, ctx, a.weight) + {} == At(front, ctx, a.weight);
    assert forall i :: 0 <= i < |front| ==> front[i] == defs[i];
  }

  lemma HeavierReplaces(defs: seq<Definition>, ctx: ResourceContext, a: Best, w: nat)
    requires defs != [] && IsHeaviest(defs[..|defs| - 1], ctx, a)
    requires DefinitionWeight(defs[|defs| - 1], ctx) == Some(w) && (a.defs == [] || w > a.weight)
    ensures IsHeaviest(defs, ctx, Best([defs[|defs| - 1]], w))
  {
    hide DefinitionWeight;
    var n := |defs| - 1;
    var front := defs[..n];
    assert forall i :: 0 <= i < n ==> front[i] == defs[i];
    Positions(defs, ctx, w);
    assert At(front, ctx, w) == {};
    assert At(defs, ctx, w) == {n};
    assert defs[n] in defs;
  }

  lemma EqualJoins(defs: seq<Definition>, ctx: ResourceContext, a: Best, w: nat)
    requires defs != [] && IsHeaviest(defs[..|defs| - 1], ctx, a) && a.defs != []
    requires DefinitionWeight(defs[|defs| - 1], ctx) == Some(w) && w == a.weight
    ensures IsHeaviest(defs, ctx, a.(defs := a.defs + [defs[|defs| - 1]]))
  {
    hide DefinitionWeight;
    var n := |defs| - 1;
    var front := defs[..n];
    assert defs == front + [defs[n]];
    assert forall i :: 0 <= i < n ==> front[i] == defs[i];
    Positions(defs, ctx, w);
  }

  lemma Positions(defs: seq<Definition>, ctx: ResourceContext, w: nat)
    requires defs != []
    ensures var n := |defs| - 1;
      && n !in At(defs[..n], ctx, w)
      && At(defs, ctx, w) == At(defs[..n], ctx, w) + (if DefinitionWeight(defs[n], ctx) == Some(w) then {n} else {})
  {
    hide DefinitionWeight;
    var n := |defs| - 1;
    assert forall i: nat :: i < n ==> defs[..n][i] == defs[i];
  }

  /**
   A definition is selected exactly when it alone matches with the greatest
   weight; otherwise nothing matches, or the tie is reported.
   */
  lemma SelectsUniqueHeaviest(defs: seq<Definition>, ctx: ResourceContext)
    ensures Select(defs, ctx) == Err(NoMatch) <==> NothingMatches(defs, ctx)
    ensures Select(defs, ctx).Ok? <==> exists w :: NoneHeavier(defs, ctx, w) && |At(defs, ctx, w)| == 1
    ensures Select(defs, ctx).Ok? ==>
      && Select(defs, ctx).value in defs
      && DefinitionWeight(Select(defs, ctx).value, ctx).Some?
      && NoneHeavier(defs, ctx, DefinitionWeight(Select(defs, ctx).value, ctx).value)
    ensures match Select(defs, ctx)
      case Err(Ambiguous(ids, w)) => NoneHeavier(defs, ctx, w) && |At(defs, ctx, w)| == |ids| > 1 && Sorting.Sorted(ids)
      case _ => true
  {
    BestIsHeaviest(defs, ctx);
    var b := BestOf(defs, ctx);
    Sorting.SortIsSorted(IdsOf(b.defs));
    assert |Sorting.Sort(IdsOf(b.defs))| == |multiset(Sorting.Sort(IdsOf(b.defs)))| == |IdsOf(b.defs)|;
    if b.defs != [] {
      forall w | NoneHeavier(defs, ctx, w) && |At(defs, ctx, w)| == 1 ensures w == b.weight {
        var i :| i in At(defs, ctx, w);
        var j :| j in At(defs, ctx, b.weight);
      }
    } else {
      forall w ensures At(defs, ctx, w) == {} {
      }
    }
  }

  // ---- The order of definitions ----

  /** Of the definitions, exactly those with the greatest weight are kept. */
  ghost predicate IsExact(defs: seq<Definition>, ctx: ResourceContext, b: Best) {
    b.defs != [] ==> forall d :: multiset(b.defs)[d] == CountAt(defs, ctx, b.weight, d)
  }

  /** How often `d` is among the definitions that match with weight `w`. */
  ghost function CountAt(defs: seq<Definition>, ctx: ResourceContext, w: nat, d: Definition): nat {
    if DefinitionWeight(d, ctx) == Some(w) then multiset(defs)[d] else 0
  }

  lemma {:induction false} BestIsExact(defs: seq<Definition>, ctx: ResourceContext)
    ensures IsExact(defs, ctx, BestOf(defs, ctx))
  {
    hide DefinitionWeight, IsHeaviest;
    if defs != [] {
      var n := |defs| - 1;
      var front, last := defs[..n], defs[n];
      BestIsExact(front, ctx);
      BestIsHeaviest(front, ctx);
      assert defs == front + [last];
      assert multiset(defs) == multiset(front) + multiset{last};
      NewWeight(front, ctx, BestOf(front, ctx));
    }
  }

  /** No definition so far has a greater weight than the best. */
  lemma NewWeight(defs: seq<Definition>, ctx: ResourceContext, b: Best)
    requires IsHeaviest(defs, ctx, b)
    ensures forall d, w :: d in defs && DefinitionWeight(d, ctx) == Some(w) ==> b.defs != [] && w <= b.weight
  {
    hide DefinitionWeight;
    forall d, w | d in defs && DefinitionWeight(d, ctx) == Some(w) ensures b.defs != [] && w <= b.weight {
      var i :| 0 <= i < |defs| && defs[i] == d;
    }
  }

  lemma {:induction false} SameIds(a: seq<Definition>, b: seq<Definition>)
    requires multiset(a) == multiset(b)
    ensures multiset(IdsOf(a)) == multiset(IdsOf(b))
    decreases |a|
  {
    hide IdsOf;
    assert |a| == |multiset(a)| == |multiset(b)| == |b|;
    if a == [] {
      assert a == b;
    } else {
      assert a[0] in multiset(a);
      var i :| 0 <= i < |b| && b[i] == a[0];
      Without(a, 0);
      Without(b, i);
      var x, y := a[..0] + a[1..], b[..i] + b[i + 1..];
      Sorting.Cancels(multiset{a[0]}, multiset(x), multiset(y));
      SameIds(x, y);
    }
  }

  /** One definition is taken out. */
  lemma Without(defs: seq<Definition>, i: nat)
    requires i < |defs|
    ensures var rest := defs[..i] + defs[i + 1..];
      && multiset(defs) == multiset(rest) + multiset{defs[i]}
      && multiset(IdsOf(defs)) == multiset(IdsOf(rest)) + multiset{defs[i].id}
  {
    hide IdsOf;
    var a, b := defs[..i], defs[i + 1..];
    assert defs == a + [defs[i]] + b;
    IdsJoin(a + [defs[i]], b);
    IdsJoin(a, [defs[i]]);
    IdsJoin(a, b);
    OneId(defs[i]);
  }

  lemma OneId(d: Definition)
    ensures IdsOf([d]) == [d.id]
  {
  }

  lemma IdsJoin(a: seq<Definition>, b: seq<Definition>)
    ensures IdsOf(a + b) == IdsOf(a) + IdsOf(b)
  {
  }

  lemma SameBest(a: seq<Definition>, b: seq<Definition>, ctx: ResourceContext)
    requires multiset(a) == multiset(b)
    ensures multiset(BestOf(a, ctx).defs) == multiset(BestOf(b, ctx).defs)
    ensures BestOf(a, ctx).defs != [] ==> BestOf(a, ctx).weight == BestOf(b, ctx).weight
  {
    hide DefinitionWeight, BestOf, IsHeaviest;
    var x, y := BestOf(a, ctx), BestOf(b, ctx);
    assert forall d :: d in a <==> d in multiset(a);
    assert forall d :: d in b <==> d in multiset(b);
    HasBest(a, b, ctx);
    HasBest(b, a, ctx);
    BestIsExact(a, ctx);
    BestIsExact(b, ctx);
  }

  lemma HasBest(a: seq<Definition>, b: seq<Definition>, ctx: ResourceContext)
    requires forall d :: d in a ==> d in b
    ensures BestOf(a, ctx).defs != [] ==> BestOf(b, ctx).defs != [] && BestOf(a, ctx).weight <= BestOf(b, ctx).weight
  {
    hide DefinitionWeight, BestOf, NoneHeavier, At, NothingMatches;
    var x := BestOf(a, ctx);
    BestIsHeaviest(a, ctx);
    BestIsHeaviest(b, ctx);
    NewWeight(b, ctx, BestOf(b, ctx));
    if x.defs != [] {
      assert x.defs[0] in x.defs;
    }
  }

  /** What is selected, and the tie that is reported, do not depend on the order of the definitions. */
  lemma SelectForgetsOrder(a: seq<Definition>, b: seq<Definition>, ctx: ResourceContext)
    requires multiset(a) == multiset(b)
    ensures Select(a, ctx) == Select(b, ctx)
  {
    hide BestOf, Sorting.Sort, IdsOf;
    SameBest(a, b, ctx);
    var x, y := BestOf(a, ctx), BestOf(b, ctx);
    assert |x.defs| == |multiset(x.defs)| == |multiset(y.defs)| == |y.defs|;
    if |x.defs| == 1 {
      assert x.defs == [x.defs[0]] && y.defs == [y.defs[0]];
      assert x.defs[0] in multiset(y.defs);
    } else if |x.defs| > 1 {
      SameIds(x.defs, y.defs);
      Sorting.SortForgetsOrder(IdsOf(x.defs), IdsOf(y.defs));
    }
  }
}
