/**
 What a resource's placeholders can see when it starts: `scope_for` in
 `crates/engine/src/planner.rs`.
 */
module Scopes {
  import opened Basics
  import opened Collect
  import opened Ids
  import opened Json
  import opened Placeholder
  import opened Resolve
  import opened GraphSpec
  import opened GraphState
  import opened Graph
  import opened Topology
  import opened Ancestry
  import opened Scheduler
  import opened Confluence
  import opened Reachability

  /** What stays the same while a deployment runs; `latest` says which of several resources under one key shows. */
  datatype Setting = Setting(
    context: Descriptor -> map<ContextKey, Value>,
    values: map<string, Lookup>,
    implicitTypes: set<string>,
    latest: (Descriptor, string, set<Descriptor>) -> Descriptor)

  /** The choice is by a fixed order: what is chosen of many is chosen of fewer. */
  ghost predicate Chooses(v: Setting) {
    && (forall d, key, ds: set<Descriptor> :: ds != {} ==> v.latest(d, key, ds) in ds)
    && (forall d, key, ds: set<Descriptor>, es: set<Descriptor> ::
      es <= ds && v.latest(d, key, ds) in es ==> v.latest(d, key, es) == v.latest(d, key, ds))
  }

  // ---- Where a placeholder's outputs come from ----

  ghost predicate IsRequested(g: ResourceGraph, d: Descriptor, origin: Origin) {
    d in g.nodes && exists r :: r in g.nodes[d].requests && r.origin == origin
  }

  /** `o` is a dependency that the workload `d` declares under `key`. */
  ghost predicate IsOwn(g: ResourceGraph, d: Descriptor, key: string, o: Descriptor) {
    exists w :: IsRequested(g, d, FromModule(w)) && IsRequested(g, o, FromExternal(w, key))
  }

  function Display(d: Descriptor): string { d.ty + "." + d.cls + "#" + d.id }

  /** `o` was co-provisioned with a dependency of the workload `d`, which waits for it. */
  ghost predicate IsCoDependency(g: ResourceGraph, d: Descriptor, key: string, o: Descriptor) {
    && d in g.deps && o in g.deps[d] && o in g.nodes && key == Display(o)
    && (exists w :: IsRequested(g, d, FromModule(w)))
    && (forall own :: !IsOwn(g, d, own, o))
    && exists r :: r in g.nodes[o].requests && (r.origin.FromProvision? || r.origin.FromParams?)
         && r.origin.referrer in g.deps[d]
  }

  /** `o` is the shared resource `id`: one of the set, or one that a workload declares with this ID. */
  ghost predicate IsShared(g: ResourceGraph, id: string, o: Descriptor) {
    || IsRequested(g, o, FromShared(id))
    || (o.id == "shared." + id && exists w, key :: IsRequested(g, o, FromExternal(w, key)))
  }

  /** The nodes whose outputs a placeholder of `d` can show. */
  ghost function Sources(g: ResourceGraph, v: Setting, d: Descriptor, e: Expr): set<Descriptor> {
    match e
    case Resource(target, _) => g.nodes.Keys * {target.Resolve(d, target.ty in v.implicitTypes)}
    case Externals(key, _) => set o | o in g.nodes && (IsOwn(g, d, key, o) || IsCoDependency(g, d, key, o))
    case Shared(id, _) => set o | o in g.nodes && IsShared(g, id, o)
    case _ => {}
  }

  /** The node that a placeholder shows when `ready` have finished. */
  ghost function Chosen(g: ResourceGraph, v: Setting, d: Descriptor, e: Expr, ready: set<Descriptor>)
    : Option<Descriptor>
  {
    var from := Sources(g, v, d, e) * ready;
    if from == {} then None else Some(v.latest(d, KeyOf(e), from))
  }

  /** The outputs of that node. */
  ghost function Shown(g: ResourceGraph, v: Setting, d: Descriptor, e: Expr, seen: Finished): Option<ResourceOutputs> {
    var o := Chosen(g, v, d, e, seen.Keys);
    if o.None? || o.value !in seen then None else Some(seen[o.value])
  }

  /** The key a placeholder reads under. */
  function KeyOf(e: Expr): string {
    match e
    case Externals(key, _) => "externals." + key
    case Shared(id, _) => "shared." + id
    case _ => ""
  }

  function Under<K>(m: map<K, ResourceOutputs>, key: K): Option<ResourceOutputs> {
    if key in m then Some(m[key]) else None
  }

  /** The scope of `d` when the outputs `seen` are there. */
  ghost predicate IsScopeFor(g: ResourceGraph, v: Setting, scope: Scope, d: Descriptor, seen: Finished) {
    && scope.context == v.context(d) && scope.values == v.values
    && scope.referrer == Some(d) && scope.implicitTypes == v.implicitTypes && scope.resources == seen
    && (forall key :: Under(scope.externals, key) == Shown(g, v, d, Externals(key, []), seen))
    && (forall id :: Under(scope.shared, id) == Shown(g, v, d, Shared(id, []), seen))
  }

  /** The outputs a placeholder reads from. */
  function OutputsFor(scope: Scope, e: Expr): Option<ResourceOutputs> {
    match e
    case Resource(target, _) =>
      var d := scope.DescriptorFor(target);
      if d.None? then None else Under(scope.resources, d.value)
    case Externals(key, _) => Under(scope.externals, key)
    case Shared(id, _) => Under(scope.shared, id)
    case _ => None
  }

  /** A placeholder shows the outputs of its latest finished source. */
  lemma OutputsAreShown(g: ResourceGraph, v: Setting, scope: Scope, d: Descriptor, seen: Finished, e: Expr)
    requires Chooses(v) && IsScopeFor(g, v, scope, d, seen) && seen.Keys <= g.nodes.Keys
    ensures OutputsFor(scope, e) == Shown(g, v, d, e, seen)
  {
    hide IsOwn, IsCoDependency, IsShared;
    match e
    case Resource(target, _) =>
      var name := target.Resolve(d, target.ty in v.implicitTypes);
      var ready := Sources(g, v, d, e) * seen.Keys;
      if name in seen {
        assert ready == {name};
      } else {
        assert ready == {};
      }
    case Externals(key, _) => assert Sources(g, v, d, e) == Sources(g, v, d, Externals(key, []));
    case Shared(id, _) => assert Sources(g, v, d, e) == Sources(g, v, d, Shared(id, []));
    case _ =>
  }

  // ---- Exactly when a placeholder shows the same node in every run ----

  /** A source among the dependencies of `d` is shown rather than `o`. */
  ghost predicate IsOutranked(g: ResourceGraph, v: Setting, d: Descriptor, e: Expr, o: Descriptor) {
    exists c :: c in Sources(g, v, d, e) && DependsOn(g.deps, d, c) && v.latest(d, KeyOf(e), {c, o}) == c
  }

  /** `o` has finished before `d` starts in every run, in none, or never shows. */
  ghost predicate IsSteadyIn(g: ResourceGraph, v: Setting, d: Descriptor, e: Expr, o: Descriptor)
    requires d in g.deps
  {
    o == d || DependsOn(g.deps, d, o) || !CanPrecede(g.deps, d, o) || IsOutranked(g, v, d, e, o)
  }

  ghost predicate IsSteady(g: ResourceGraph, v: Setting, d: Descriptor, e: Expr)
    requires d in g.deps
  {
    forall o :: o in Sources(g, v, d, e) ==> IsSteadyIn(g, v, d, e, o)
  }

  ghost predicate IsDag(g: ResourceGraph) {
    Closed(g.deps) && Acyclic(g.deps) && g.nodes.Keys == g.deps.Keys
  }

  /** A steady placeholder shows what it would show with nothing but dependencies finished. */
  lemma SteadyChoiceStays(g: ResourceGraph, v: Setting, d: Descriptor, e: Expr, s: set<Descriptor>)
    requires Chooses(v) && IsDag(g) && CanStartWith(g.deps, d, s) && IsSteady(g, v, d, e)
    ensures Chosen(g, v, d, e, s) == Chosen(g, v, d, e, Below(g.deps, d))
  {
    hide Sources, DependsOn, Acyclic, CanPrecede, CanStartWith, Chooses;
    var from, few := Sources(g, v, d, e) * s, Sources(g, v, d, e) * Below(g.deps, d);
    StartHoldsBelow(g.deps, d, s);
    NotAmong(g.deps, d, s);
    if from != {} {
      var c := v.latest(d, KeyOf(e), from);
      ChosenIsAmong(v, d, KeyOf(e), from);
      if c !in Below(g.deps, d) {
        PrecedingNeedNotWait(g.deps, d, s, c);
        SourceIsNode(g, v, d, e, c);
        assert IsSteadyIn(g, v, d, e, c);
        var b :| b in Sources(g, v, d, e) && DependsOn(g.deps, d, b) && v.latest(d, KeyOf(e), {b, c}) == b;
        InBelow(g.deps, d, b);
        ChosenOfTwo(v, d, KeyOf(e), from, b);
      }
      ChosenOfFewer(v, d, KeyOf(e), from, few);
    }
  }

  lemma NotAmong(deps: Deps, d: Descriptor, s: set<Descriptor>)
    requires CanStartWith(deps, d, s)
    ensures d !in s && d in deps
  {
  }

  lemma InBelow(deps: Deps, d: Descriptor, e: Descriptor)
    requires DependsOn(deps, d, e)
    ensures e in Below(deps, d)
  {
    FirstStep(deps, d, e);
  }

  /** A source that is not steady shows when it has finished, and cannot when it has not. */
  lemma UnsteadyChoiceMoves(g: ResourceGraph, v: Setting, d: Descriptor, e: Expr, o: Descriptor)
    requires Chooses(v) && IsDag(g) && d in g.deps && o in Sources(g, v, d, e) && !IsSteadyIn(g, v, d, e, o)
    ensures CanStartWith(g.deps, d, With(g.deps, d, o))
    ensures Chosen(g, v, d, e, With(g.deps, d, o)) != Chosen(g, v, d, e, Below(g.deps, d))
    ensures Chosen(g, v, d, e, With(g.deps, d, o)).Some?
  {
    hide Sources, DependsOn, Acyclic, CanPrecede, CanStartWith, Chooses;
    SourceIsNode(g, v, d, e, o);
    WithCanStart(g.deps, d, o);
    var from := Sources(g, v, d, e) * With(g.deps, d, o);
    assert o in from;
    var c := v.latest(d, KeyOf(e), from);
    ChosenOfTwo(v, d, KeyOf(e), from, o);
    assert {o, c} == {c, o};
    BelowIsDependency(g.deps, d, c);
    ChosenIsAmong(v, d, KeyOf(e), Sources(g, v, d, e) * Below(g.deps, d));
  }

  lemma BelowIsDependency(deps: Deps, d: Descriptor, e: Descriptor)
    ensures e in Below(deps, d) ==> DependsOn(deps, d, e)
  {
  }

  lemma ChosenIsAmong(v: Setting, d: Descriptor, key: string, ds: set<Descriptor>)
    requires Chooses(v)
    ensures ds != {} ==> v.latest(d, key, ds) in ds
  {
  }

  lemma ChosenOfFewer(v: Setting, d: Descriptor, key: string, ds: set<Descriptor>, es: set<Descriptor>)
    requires Chooses(v) && es <= ds && v.latest(d, key, ds) in es
    ensures v.latest(d, key, es) == v.latest(d, key, ds)
  {
  }

  /** What is chosen of many is chosen over each of them. */
  lemma ChosenOfTwo(v: Setting, d: Descriptor, key: string, ds: set<Descriptor>, b: Descriptor)
    requires Chooses(v) && b in ds
    ensures var c := v.latest(d, key, ds); c in ds && v.latest(d, key, {b, c}) == c
  {
    ChosenIsAmong(v, d, key, ds);
    ChosenOfFewer(v, d, key, ds, {b, v.latest(d, key, ds)});
  }

  /** The node a placeholder of `d` shows at its start in a run. */
  ghost function ChosenIn(g: ResourceGraph, v: Setting, d: Descriptor, e: Expr, run: History): Option<Descriptor>
    requires d in LastOf(run).starts
  {
    Chosen(g, v, d, e, LastOf(run).starts[d].seen.Keys)
  }

  ghost predicate IsRunWith(g: ResourceGraph, p: Plan, run: History, d: Descriptor) {
    p.deps == g.deps && ValidPlan(p) && IsRun(p, run) && d in LastOf(run).starts
  }

  /** In any two runs of any plan for the graph, the placeholder shows the same node, or none. */
  ghost predicate RunsShowAlike(g: ResourceGraph, v: Setting, d: Descriptor, e: Expr) {
    forall p, run, other :: IsRunWith(g, p, run, d) && IsRunWith(g, p, other, d) ==>
      ChosenIn(g, v, d, e, run) == ChosenIn(g, v, d, e, other)
  }

  /**
   A placeholder shows the same node in every run exactly when each node it can
   show is a dependency, direct or not, or can never finish first, or is always
   outranked by a dependency.
   */
  lemma RunsShowAlikeIff(g: ResourceGraph, v: Setting, d: Descriptor, e: Expr)
    requires Chooses(v) && IsDag(g) && d in g.deps
    ensures RunsShowAlike(g, v, d, e) <==> IsSteady(g, v, d, e)
  {
    hide Chosen, Chooses, Sources, IsSteadyIn, CanStartWith, ValidPlan, IsRun, LastOf, Acyclic;
    if IsSteady(g, v, d, e) {
      forall p, run, other | IsRunWith(g, p, run, d) && IsRunWith(g, p, other, d)
        ensures ChosenIn(g, v, d, e, run) == ChosenIn(g, v, d, e, other)
      {
        StartIsPossible(p, run, d);
        StartIsPossible(p, other, d);
        SteadyChoiceStays(g, v, d, e, LastOf(run).starts[d].seen.Keys);
        SteadyChoiceStays(g, v, d, e, LastOf(other).starts[d].seen.Keys);
      }
    } else {
      var o :| o in Sources(g, v, d, e) && !IsSteadyIn(g, v, d, e, o);
      var p, run, other := ShowsDifferently(g, v, d, e, o);
      assert ChosenIn(g, v, d, e, run) != ChosenIn(g, v, d, e, other);
    }
  }

  /** Two runs of one plan, with time enough, in which `d` starts with and without `o`, and shows different outputs. */
  lemma ShowsDifferently(g: ResourceGraph, v: Setting, d: Descriptor, e: Expr, o: Descriptor)
    returns (p: Plan, run: History, other: History)
    requires Chooses(v) && IsDag(g) && d in g.deps && o in Sources(g, v, d, e) && !IsSteadyIn(g, v, d, e, o)
    ensures IsRunWith(g, p, run, d) && IsRunWith(g, p, other, d) && NeverLate(p)
    ensures o in LastOf(run).starts[d].seen && o !in LastOf(other).starts[d].seen
    ensures ChosenIn(g, v, d, e, run) != ChosenIn(g, v, d, e, other)
    ensures Shown(g, v, d, e, LastOf(run).starts[d].seen) != Shown(g, v, d, e, LastOf(other).starts[d].seen)
  {
    hide Chosen, Chooses, Sources, CanStartWith, ValidPlan, IsRun, LastOf, Acyclic, NeverLate, IsSmoothState;
    var order := OrderExists(g.deps.Keys);
    p := SmoothPlan(g.deps, order);
    SmoothIsValid(g.deps, order);
    UnsteadyChoiceMoves(g, v, d, e, o);
    BelowCanStart(g.deps, d);
    run := StartsWith(p, d, With(g.deps, d, o));
    other := StartsWith(p, d, Below(g.deps, d));
    ShowsMarks(g, v, d, e, p, run);
    ShowsMarks(g, v, d, e, p, other);
    ShowsApart(ChosenIn(g, v, d, e, run), ChosenIn(g, v, d, e, other));
  }

  function MarkShown(o: Option<Descriptor>): Option<ResourceOutputs> {
    if o.None? then None else Some(MarkOf(o.value))
  }

  lemma ShowsApart(a: Option<Descriptor>, b: Option<Descriptor>)
    requires a != b
    ensures MarkShown(a) != MarkShown(b)
  {
    hide MarkOf;
    if a.Some? && b.Some? && MarkOf(a.value) == MarkOf(b.value) {
      MarksDiffer(a.value, b.value);
    }
  }

  lemma ShowsMarks(g: ResourceGraph, v: Setting, d: Descriptor, e: Expr, p: Plan, run: History)
    requires Chooses(v) && IsSmooth(p, run) && d in LastOf(run).starts
    ensures Shown(g, v, d, e, LastOf(run).starts[d].seen) == MarkShown(ChosenIn(g, v, d, e, run))
  {
    hide Sources, IsSmooth, MarkOf, LastOf;
    SeenAreMarks(p, run, d);
  }

  /** A placeholder that can show dependencies only is steady. */
  lemma DependenciesAreSteady(g: ResourceGraph, v: Setting, d: Descriptor, e: Expr)
    requires IsDag(g) && d in g.deps && ReadsDependencies(g, v, d, e)
    ensures IsSteady(g, v, d, e)
  {
    hide Sources, DependsOn, Acyclic, CanPrecede;
    forall o | o in Sources(g, v, d, e) ensures IsSteadyIn(g, v, d, e, o) {
      if o != d {
        Direct(g.deps, d, o);
      }
    }
  }

  /** Every node the placeholder can show is a dependency, apart from `d` itself. */
  ghost predicate ReadsDependencies(g: ResourceGraph, v: Setting, d: Descriptor, e: Expr)
    requires d in g.deps
  {
    Sources(g, v, d, e) <= g.deps[d] + {d}
  }

  lemma SourceIsNode(g: ResourceGraph, v: Setting, d: Descriptor, e: Expr, o: Descriptor)
    requires o in Sources(g, v, d, e)
    ensures o in g.nodes
  {
  }

  /** Lookups in scopes that show the same outputs are the same. */
  lemma SameLookup(a: Scope, b: Scope, e: Expr)
    requires a.context == b.context && a.values == b.values
    requires a.referrer == b.referrer && a.implicitTypes == b.implicitTypes && OutputsFor(a, e) == OutputsFor(b, e)
    ensures a.Lookup(e) == b.Lookup(e)
  {
    hide GetOutput, Walk;
    match e
    case Resource(target, _) => assert a.DescriptorFor(target) == b.DescriptorFor(target);
    case _ =>
  }

  /** All placeholders inside `value` are steady. */
  ghost predicate AllSteady(g: ResourceGraph, v: Setting, d: Descriptor, value: Value, dialect: Dialect)
    requires d in g.deps
  {
    forall e :: IsMentioned(value, dialect, e) ==> IsSteady(g, v, d, e)
  }

  /** A value with steady placeholders resolves alike, whatever else has finished. */
  lemma ResolvesAlike(g: ResourceGraph, v: Setting, d: Descriptor, seen: Finished, a: Scope, b: Scope,
      value: Value, c: Resolver)
    requires Chooses(v) && IsDag(g) && CanStartWith(g.deps, d, seen.Keys)
    requires IsScopeFor(g, v, a, d, seen) && IsScopeFor(g, v, b, d, Restrict(seen, Below(g.deps, d)))
    requires AllSteady(g, v, d, value, c.dialect)
    ensures ResolveValue(value, c.(scope := a.Lookup)) == ResolveValue(value, c.(scope := b.Lookup))
  {
    hide IsMentioned, ResolveValue, IsSteady, IsDag, Chooses, CanStartWith, IsScopeFor;
    forall e | IsMentioned(value, c.dialect, e) ensures a.Lookup(e) == b.Lookup(e) {
      LooksAlike(g, v, d, seen, a, b, e);
    }
    ResolvingDependsOnMentioned(value, c.(scope := a.Lookup), c.(scope := b.Lookup));
  }

  lemma LooksAlike(g: ResourceGraph, v: Setting, d: Descriptor, seen: Finished, a: Scope, b: Scope, e: Expr)
    requires Chooses(v) && IsDag(g) && CanStartWith(g.deps, d, seen.Keys) && IsSteady(g, v, d, e)
    requires IsScopeFor(g, v, a, d, seen) && IsScopeFor(g, v, b, d, Restrict(seen, Below(g.deps, d)))
    ensures OutputsFor(a, e) == OutputsFor(b, e) && a.Lookup(e) == b.Lookup(e)
  {
    hide IsSteady, Sources, OutputsFor, Acyclic, Closed, DependsOn;
    var few := Restrict(seen, Below(g.deps, d));
    OutputsAreShown(g, v, a, d, seen, e);
    OutputsAreShown(g, v, b, d, few, e);
    SteadyChoiceStays(g, v, d, e, seen.Keys);
    StartHoldsBelow(g.deps, d, seen.Keys);
    assert few.Keys == Below(g.deps, d);
    SameLookup(a, b, e);
  }
}
