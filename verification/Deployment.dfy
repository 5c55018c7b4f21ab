/** From a graph to its run: whatever order resources end in, a deployment ends alike. */
module Deployment {
  import opened Basics
  import opened Catalog
  import opened Collect
  import opened Criteria
  import opened Ids
  import opened Json
  import opened Outcomes
  import opened Placeholder
  import opened Resolve
  import opened Topology
  import opened GraphSpec
  import opened GraphState
  import opened Graph
  import opened Ancestry
  import opened Scheduler
  import opened Confluence
  import opened Scopes
  import opened Locality
  import GraphBuilder
  import SetAside

  // ---- What a resource is provisioned with ----

  /** The resolved inputs of a resource, and the outputs of a workload's dependencies. */
  datatype DriverInputs = DriverInputs(
    values: Result<Resolved, ErrorKind>,
    secrets: Result<Resolved, ErrorKind>,
    account: Option<Result<Resolved, ErrorKind>>,
    params: Result<Resolved, ErrorKind>,
    externals: map<string, ResourceOutputs>)

  /** Params from the set use the set's placeholders; co-provisioning params use the definition's. */
  ghost function DialectOf(n: Node): Dialect {
    if exists r :: r in n.requests && r.params.Some? && IsFromSet(r.origin) then InSet else InDefinition
  }

  predicate IsFromSet(origin: Origin) { origin.FromModule? || origin.FromExternal? || origin.FromShared? }

  /** A node's params, without the file content that a workload passes on literally. */
  function ParamsOf(d: Descriptor, n: Node): Value {
    if d.ty == "workload" then SetAside.TakeOut(OrNull(n.params), SetAside.IN_PARAMS).rest else OrNull(n.params)
  }

  ghost function InputsOf(d: Descriptor, n: Node, def: Definition, scope: Scope, show: Value -> string): DriverInputs {
    DriverInputs(
      ResolveValue(def.values, Resolver(InDefinition, scope.Lookup, PlainSink, show)),
      ResolveValue(def.secrets, Resolver(InDefinition, scope.Lookup, SecretSink, show)),
      if def.driverAccount.None? then None
      else Some(ResolveValue(Str(def.driverAccount.value), Resolver(InDriverAccount, scope.Lookup, PlainSink, show))),
      ResolveValue(ParamsOf(d, n), Resolver(DialectOf(n), scope.Lookup, SecretSink, show)),
      scope.externals)
  }

  /** How resources are provisioned: their scopes, and what their inputs are turned into. */
  datatype Provisioner = Provisioner(
    setting: Setting,
    scope: (Descriptor, Finished) -> Scope,
    show: Value -> string,
    work: (Descriptor, DriverInputs) -> Result<ResourceOutputs, Setback>)

  /** Scopes show what has finished. */
  ghost predicate HasScopes(g: ResourceGraph, v: Provisioner) {
    Chooses(v.setting) && forall d, seen :: IsScopeFor(g, v.setting, v.scope(d, seen), d, seen)
  }

  /** The plan runs the graph's resources, and each result follows from the resource's inputs. */
  ghost predicate Runs(input: Input, g: ResourceGraph, v: Provisioner, p: Plan) {
    p.deps == g.deps && forall d, seen, at :: d in g.nodes ==> IsWorkOf(input, g, v, p, d, seen, at)
  }

  ghost predicate IsWorkOf(input: Input, g: ResourceGraph, v: Provisioner, p: Plan, d: Descriptor, seen: Finished,
      at: nat)
    requires d in g.nodes
  {
    DefinitionOf(input, d).Some? ==>
      p.exec(d, seen, at)
        == v.work(d, InputsOf(d, g.nodes[d], DefinitionOf(input, d).value, v.scope(d, seen), v.show))
  }

  /** What every node is provisioned with is steady. */
  ghost predicate AllNodesSteady(input: Input, g: ResourceGraph, v: Setting) {
    forall d :: d in g.nodes && d in g.deps ==> IsSteadyNode(input, g, v, d)
  }

  /** Its params are, and the references in its driver inputs are named alike by graph and run, or are too. */
  ghost predicate IsSteadyNode(input: Input, g: ResourceGraph, v: Setting, d: Descriptor)
    requires d in g.nodes && d in g.deps
  {
    && AllSteady(g, v, d, ParamsOf(d, g.nodes[d]), DialectOf(g.nodes[d]))
    && (DefinitionOf(input, d).Some? ==> InputsNamedAlike(input, g, v, d, DefinitionOf(input, d).value))
  }

  // ---- The same inputs in every order ----

  lemma NodeHasDefinition(input: Input, g: ResourceGraph, d: Descriptor)
    requires IsGraphOf(input, g) && d in g.deps
    ensures d in g.nodes && DefinitionOf(input, d).Some?
  {
    hide IsDepsOf, IsLayering, Closed;
    assert IsNodeOf(input, d, g.nodes[d]);
    GraphBuilder.ExpandsItsDefinition(input, d, g.nodes[d]);
  }

  /** A workload sees the same dependencies, whatever else has finished. */
  lemma SameExternals(input: Input, g: ResourceGraph, v: Setting, d: Descriptor, seen: Finished, a: Scope, b: Scope)
    requires Faultless(input) && IsGraphOf(input, g) && HasUniqueModules(input) && Chooses(v) && IsDag(g)
    requires d in g.deps && CanStartWith(g.deps, d, seen.Keys)
    requires IsScopeFor(g, v, a, d, seen) && IsScopeFor(g, v, b, d, Restrict(seen, Below(g.deps, d)))
    ensures a.externals == b.externals
  {
    hide Faultless, IsGraphOf, HasUniqueModules, IsScopeFor, Chooses, IsDag, CanStartWith, ReadsDependencies, IsSteady;
    forall key ensures Under(a.externals, key) == Under(b.externals, key) {
      var e := Externals(key, []);
      ExternalsAreDependencies(input, g, v, d, e);
      DependenciesAreSteady(g, v, d, e);
      LooksAlike(g, v, d, seen, a, b, e);
    }
    SameMaps(a.externals, b.externals);
  }

  lemma SameMaps(a: map<string, ResourceOutputs>, b: map<string, ResourceOutputs>)
    requires forall key :: Under(a, key) == Under(b, key)
    ensures a == b
  {
    forall key ensures key in a <==> key in b
      ensures key in a && key in b ==> a[key] == b[key]
    {
      assert Under(a, key) == Under(b, key);
    }
  }

  lemma SameInputs(input: Input, g: ResourceGraph, v: Provisioner, d: Descriptor, def: Definition, seen: Finished)
    requires Faultless(input) && IsGraphOf(input, g) && HasUniqueModules(input) && HasScopes(g, v) && IsDag(g)
    requires d in g.nodes && DefinitionOf(input, d) == Some(def) && IsSteadyNode(input, g, v.setting, d)
    requires CanStartWith(g.deps, d, seen.Keys)
    ensures InputsOf(d, g.nodes[d], def, v.scope(d, seen), v.show)
      == InputsOf(d, g.nodes[d], def, v.scope(d, Restrict(seen, Below(g.deps, d))), v.show)
  {
    hide Faultless, IsGraphOf, HasUniqueModules, IsScopeFor, Chooses, CanStartWith, AllSteady, DefinitionOf, Closed,
      Acyclic, InputsNamedAlike, ParamsOf, DialectOf, ResolveValue, Below;
    var few := Restrict(seen, Below(g.deps, d));
    var a, b, n := v.scope(d, seen), v.scope(d, few), g.nodes[d];
    assert IsScopeFor(g, v.setting, a, d, seen) && IsScopeFor(g, v.setting, b, d, few);
    InputsAreSteady(input, g, v.setting, d, def);
    var inputs := Resolver(InDefinition, a.Lookup, PlainSink, v.show);
    ResolvesAlike(g, v.setting, d, seen, a, b, def.values, inputs);
    ResolvesAlike(g, v.setting, d, seen, a, b, def.secrets, inputs.(sink := SecretSink));
    if def.driverAccount.Some? {
      ResolvesAlike(g, v.setting, d, seen, a, b, Str(def.driverAccount.value), inputs.(dialect := InDriverAccount));
    }
    ResolvesAlike(g, v.setting, d, seen, a, b, ParamsOf(d, n), inputs.(dialect := DialectOf(n), sink := SecretSink));
    SameExternals(input, g, v.setting, d, seen, a, b);
  }

  /** A resource's result depends on its dependencies' outputs only. */
  lemma WorkIsLocal(input: Input, g: ResourceGraph, v: Provisioner, p: Plan)
    requires Faultless(input) && IsGraphOf(input, g) && HasUniqueModules(input) && HasScopes(g, v)
    requires Runs(input, g, v, p) && AllNodesSteady(input, g, v.setting)
    ensures IsLocal(p)
  {
    hide Faultless, IsGraphOf, HasUniqueModules, HasScopes, IsSteadyNode, DefinitionOf, InputsOf, Below, IsDag;
    forall d, seen: Finished, at | CanStartWith(p.deps, d, seen.Keys) ensures SeesDependenciesOnly(p, d, seen, at) {
      NodeHasDefinition(input, g, d);
      GraphIsDag(input, g);
      var few := Restrict(seen, Below(p.deps, d));
      assert IsWorkOf(input, g, v, p, d, seen, at) && IsWorkOf(input, g, v, p, d, few, 0);
      SameInputs(input, g, v, d, DefinitionOf(input, d).value, seen);
    }
  }

  lemma GraphIsDag(input: Input, g: ResourceGraph)
    requires IsGraphOf(input, g)
    ensures IsDag(g)
  {
    hide Acyclic, IsLayering, IsDepsOf, IsNodeOf;
    NodesAreKeys(input, g);
    GraphIsAcyclic(input, g);
  }

  lemma NodesAreKeys(input: Input, g: ResourceGraph)
    requires IsGraphOf(input, g)
    ensures g.nodes.Keys == g.deps.Keys
  {
    hide IsDepsOf, IsNodeOf, IsLayering, Closed;
  }

  lemma GraphIsAcyclic(input: Input, g: ResourceGraph)
    requires IsGraphOf(input, g)
    ensures Closed(g.deps) && Acyclic(g.deps)
  {
    hide IsDepsOf, IsNodeOf, IsLayering, Acyclic;
    LayeringIsAcyclic(g.deps, g.layers);
  }

  /**
   Two runs of a deployment whose inputs are steady, whatever their timing and the
   order in which resources end, attempt the same resources and end with the same
   outcomes and outputs.
   */
  lemma DeploymentsEndAlike(
    input: Input, g: ResourceGraph, v: Provisioner, p: Plan, s: Scheduler.State, a: map<Descriptor, Outcome>,
    q: Plan, t: Scheduler.State, b: map<Descriptor, Outcome>)
    requires Faultless(input) && IsGraphOf(input, g) && HasUniqueModules(input) && HasScopes(g, v)
    requires Runs(input, g, v, p) && AllNodesSteady(input, g, v.setting)
    requires q == p.(clock := q.clock, deadline := q.deadline)
    requires ValidPlan(p) && ValidPlan(q) && NeverLate(p) && NeverLate(q)
    requires IsFinal(p, s) && IsEnd(p, s, a) && IsFinal(q, t) && IsEnd(q, t, b)
    ensures a == b && s.done == t.done && s.starts.Keys == t.starts.Keys
  {
    hide Faultless, IsGraphOf, HasUniqueModules, HasScopes, Runs, AllNodesSteady, IsFinal, IsEnd, NeverLate, ValidPlan,
      IsLocal, Acyclic;
    GraphIsAcyclic(input, g);
    WorkIsLocal(input, g, v, p);
    RunsGraph(input, g, v, p);
    RunsAgree(p, s, a, q, t, b);
  }

  lemma RunsGraph(input: Input, g: ResourceGraph, v: Provisioner, p: Plan)
    requires Runs(input, g, v, p)
    ensures p.deps == g.deps
  {
    hide IsWorkOf;
  }

  // ---- Taking literal content out adds no placeholder ----

  lemma {:induction false} RestMentions(value: Value, pattern: SetAside.Pattern, dialect: Dialect, e: Expr)
    requires IsMentioned(SetAside.TakeOut(value, pattern).rest, dialect, e)
    ensures IsMentioned(value, dialect, e)
    decreases |pattern|
  {
    var rest := SetAside.TakeOut(value, pattern).rest;
    if value.Obj? {
      var i :| 0 <= i < |rest.fields| && IsMentioned(rest.fields[i].value, dialect, e);
      if pattern == [] {
        assert IsMentioned(value.fields[i].value, dialect, e);
      } else if SetAside.Fits(pattern[0], value.fields[i].key) {
        RestMentions(value.fields[i].value, pattern[1..], dialect, e);
      }
    }
  }

  /** Steady params still are without their literal content. */
  lemma RestIsSteady(g: ResourceGraph, v: Setting, d: Descriptor)
    requires d in g.nodes && d in g.deps
    requires AllSteady(g, v, d, OrNull(g.nodes[d].params), DialectOf(g.nodes[d]))
    ensures AllSteady(g, v, d, ParamsOf(d, g.nodes[d]), DialectOf(g.nodes[d]))
  {
    hide IsMentioned, IsSteady, DialectOf;
    var params, dialect := OrNull(g.nodes[d].params), DialectOf(g.nodes[d]);
    if d.ty == "workload" {
      forall e | IsMentioned(ParamsOf(d, g.nodes[d]), dialect, e) ensures IsSteady(g, v, d, e) {
        RestMentions(params, SetAside.IN_PARAMS, dialect, e);
      }
    }
  }
}
