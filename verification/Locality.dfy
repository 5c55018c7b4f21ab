/** When the placeholders of a graph's nodes read dependencies only. */
module Locality {
  import opened Basics
  import opened Catalog
  import opened Collect
  import opened Criteria
  import opened Ids
  import opened Json
  import opened Placeholder
  import opened Resolve
  import opened GraphSpec
  import opened GraphClosure
  import opened GraphState
  import opened GraphFaults
  import opened Graph
  import opened GraphMeaning
  import opened References
  import opened Scopes
  import opened Ancestry
  import opened Scheduler
  import opened Confluence
  import opened Reachability
  import Template
  import Topology

  // ---- Where requests come from ----

  /** A request for a workload, its dependency or a shared resource names what it is for. */
  ghost predicate IsFrom(input: Input, origin: Origin, d: Descriptor) {
    match origin
    case FromModule(w) => exists m :: m in input.modules && m.id == w && d == WorkloadOf(m)
    case FromExternal(w, key) => exists m, e :: m in input.modules && m.id == w && IsExternal(m, e, key, d)
    case FromShared(id) => exists s :: s in input.shared && s.id == id && d == SharedOf(s)
    case _ => true
  }

  ghost predicate IsExternal(m: Module, e: External, key: string, d: Descriptor) {
    e in m.externals && e.key == key && d == ExternalOf(m, e)
  }

  ghost predicate AllFrom(input: Input, actions: seq<Action>) {
    forall a :: a in actions && a.Ask? ==> IsFrom(input, a.origin, a.d)
  }

  lemma FromJoins(input: Input, a: seq<Action>, b: seq<Action>)
    requires AllFrom(input, a) && AllFrom(input, b)
    ensures AllFrom(input, a + b)
  {
    hide IsFrom;
  }

  lemma {:induction false} ExternalsAreFrom(input: Input, m: Module, externals: seq<External>)
    requires m in input.modules && forall e :: e in externals ==> e in m.externals
    ensures AllFrom(input, ExternalActions(m, externals))
    decreases externals
  {
    hide IsResId, WorkloadOf, ExternalOf;
    if externals != [] && IsResId(ExternalId(m, externals[0])) {
      var e := externals[0];
      var first := [Ask(ExternalOf(m, e), FromExternal(m.id, e.key), Some(OrNull(e.params))),
                    Link(WorkloadOf(m), ExternalOf(m, e))];
      assert IsExternal(m, e, e.key, ExternalOf(m, e));
      assert AllFrom(input, first);
      ExternalsAreFrom(input, m, externals[1..]);
      FromJoins(input, first, ExternalActions(m, externals[1..]));
    }
  }

  lemma {:induction false} ModulesAreFrom(input: Input, modules: seq<Module>)
    requires forall m :: m in modules ==> m in input.modules
    ensures AllFrom(input, ModuleActions(modules))
    decreases modules
  {
    hide WorkloadOf, WorkloadParams, ExternalActions;
    if modules != [] {
      var m := modules[0];
      var first := [Ask(WorkloadOf(m), FromModule(m.id), Some(WorkloadParams(m)))];
      assert AllFrom(input, first);
      ExternalsAreFrom(input, m, m.externals);
      FromJoins(input, first, ExternalActions(m, m.externals));
      ModulesAreFrom(input, modules[1..]);
      FromJoins(input, first + ExternalActions(m, m.externals), ModuleActions(modules[1..]));
    }
  }

  lemma {:induction false} SharedAreFrom(input: Input, shared: seq<SharedResource>)
    requires forall s :: s in shared ==> s in input.shared
    ensures AllFrom(input, SharedActions(shared))
    decreases shared
  {
    hide IsResId, SharedOf;
    if shared != [] && IsResId(SharedOf(shared[0]).id) {
      var first := [Ask(SharedOf(shared[0]), FromShared(shared[0].id), Some(OrNull(shared[0].params)))];
      assert AllFrom(input, first);
      SharedAreFrom(input, shared[1..]);
      FromJoins(input, first, SharedActions(shared[1..]));
    }
  }

  lemma {:induction false} SpecsAskNothing(modules: seq<Module>, shared: seq<SharedResource>)
    ensures forall a :: a in SpecActions(modules, shared) ==> a.Link?
  {
    hide ReadActions, Collected;
    if modules != [] {
      var found := Collected(Obj(modules[0].spec), InSet);
      if found.Ok? {
        ReadsAskNothing(WorkloadOf(modules[0]), found.value, shared);
      }
      SpecsAskNothing(modules[1..], shared);
    }
  }

  lemma {:induction false} ReadsAskNothing(w: Descriptor, exprs: seq<Expr>, shared: seq<SharedResource>)
    ensures forall a :: a in ReadActions(w, exprs, shared) ==> a.Link?
  {
    hide IsResId, SharedOf, FindShared;
    if exprs != [] {
      ReadsAskNothing(w, exprs[1..], shared);
    }
  }

  lemma RootsAreFrom(input: Input)
    ensures AllFrom(input, RootActions(input))
  {
    hide ModuleActions, SharedActions, SpecActions, IsFrom;
    var base, modules := [Ask(BASE_ENV, BaseEnv, None)], ModuleActions(input.modules);
    BaseIsFrom(input);
    ModulesAreFrom(input, input.modules);
    SharedAreFrom(input, input.shared);
    SpecsAskNothing(input.modules, input.shared);
    FromJoins(input, base, modules);
    FromJoins(input, base + modules, SharedActions(input.shared));
    FromJoins(input, base + modules + SharedActions(input.shared), SpecActions(input.modules, input.shared));
  }

  lemma BaseIsFrom(input: Input)
    ensures AllFrom(input, [Ask(BASE_ENV, BaseEnv, None)])
  {
  }

  /** The requests of a definition come from a definition. */
  ghost predicate AllFromDefinition(actions: seq<Action>) {
    forall a :: a in actions && a.Ask? ==> a.origin.FromReference? || a.origin.FromProvision? || a.origin.FromParams?
  }

  lemma {:induction false} RefsFromDefinition(input: Input, d: Descriptor, origin: Origin, refs: seq<ResourceRef>)
    requires origin.FromReference?
    ensures AllFromDefinition(RefActions(input, d, origin, refs))
    decreases refs
  {
    hide ResolveRef;
    if refs != [] {
      RefsFromDefinition(input, d, origin, refs[1..]);
    }
  }

  lemma {:induction false} ParamsFromDefinition(input: Input, d: Descriptor, co: Descriptor, origin: Origin,
      refs: seq<ResourceRef>)
    requires origin.FromParams?
    ensures AllFromDefinition(ParamActions(input, d, co, origin, refs))
    decreases refs
  {
    hide ResolveRef;
    if refs != [] {
      ParamsFromDefinition(input, d, co, origin, refs[1..]);
    }
  }

  lemma EntryFromDefinition(input: Input, def: Definition, d: Descriptor, entry: ProvisionEntry)
    ensures AllFromDefinition(EntryActions(input, def, d, entry))
  {
    hide ResolveRef, ParseRef, Collected, ParamActions, Targets;
    var target := ParseRef(entry.key);
    var found := Collected(OrNull(entry.provision.params), InDefinition);
    if target.Some? && found.Ok? {
      ParamsFromDefinition(input, d, ResolveRef(input, target.value, d), FromParams(def.id, entry.key, d),
        Targets(found.value));
    }
  }

  lemma {:induction false} EntriesFromDefinition(input: Input, def: Definition, d: Descriptor,
      entries: seq<ProvisionEntry>)
    ensures AllFromDefinition(ProvisionActions(input, def, d, entries))
  {
    hide EntryActions;
    if entries != [] {
      EntryFromDefinition(input, def, d, entries[0]);
      EntriesFromDefinition(input, def, d, entries[1..]);
    }
  }

  lemma ExpansionFromDefinition(input: Input, d: Descriptor)
    ensures AllFromDefinition(ActionsOf(input, d))
  {
    hide DefinitionOf, FoundIn, RefActions, ProvisionActions, Targets;
    if DefinitionOf(input, d).Some? && FoundIn(DefinitionOf(input, d).value).Ok? {
      var def := DefinitionOf(input, d).value;
      RefsFromDefinition(input, d, FromReference(def.id, d), Targets(FoundIn(def).value));
      EntriesFromDefinition(input, def, d, def.provisions);
    }
  }

  lemma CalledIsFrom(input: Input, a: Action)
    requires IsCalledFor(input, a) && a.Ask?
    ensures IsFrom(input, a.origin, a.d)
  {
    hide RootActions, ActionsOf, IsNeeded;
    if a in RootActions(input) {
      RootsAreFrom(input);
    } else {
      var d :| IsNeeded(input, d) && a in ActionsOf(input, d);
      ExpansionFromDefinition(input, d);
    }
  }

  /** What a node is requested for is what it is. */
  lemma RequestedIsFrom(input: Input, g: ResourceGraph, d: Descriptor, origin: Origin)
    requires IsGraphOf(input, g) && IsRequested(g, d, origin)
    ensures IsFrom(input, origin, d)
  {
    hide IsFrom, IsCalledFor, IsDepsOf, Topology.IsLayering, Topology.Closed, NodeMatches;
    assert IsNodeOf(input, d, g.nodes[d]);
    var r :| r in g.nodes[d].requests && r.origin == origin;
    assert IsRequest(input, d, r);
    var a :| IsCalledFor(input, a) && RequestsAs(a, d, r);
    CalledIsFrom(input, a);
  }

  // ---- A workload's own dependencies ----

  /** The set holds one workload for each ID. */
  ghost predicate HasUniqueModules(input: Input) {
    forall m, n :: m in input.modules && n in input.modules && m.id == n.id ==> m == n
  }

  lemma OwnIsDependency(input: Input, g: ResourceGraph, d: Descriptor, key: string, o: Descriptor)
    requires Faultless(input) && IsGraphOf(input, g) && HasUniqueModules(input) && IsOwn(g, d, key, o)
    ensures d in g.nodes && o in g.deps[d]
  {
    hide Faultless, IsGraphOf, IsRequested, ReadsShared, NodeLinks, WorkloadOf, ExternalOf;
    var w :| IsRequested(g, d, FromModule(w)) && IsRequested(g, o, FromExternal(w, key));
    RequestedIsFrom(input, g, d, FromModule(w));
    RequestedIsFrom(input, g, o, FromExternal(w, key));
    RequestedIsNode(g, d, FromModule(w));
    var m :| m in input.modules && m.id == w && d == WorkloadOf(m);
    var n, e :| n in input.modules && n.id == w && IsExternal(n, e, key, o);
    assert IsDependencyOf(m, o) && RootLinks(input, d, o);
    LinkIsDependency(input, g, d, o);
  }

  lemma RequestedIsNode(g: ResourceGraph, d: Descriptor, origin: Origin)
    requires IsRequested(g, d, origin)
    ensures d in g.nodes
  {
  }

  /** What a workload sees under `externals` are its dependencies. */
  lemma ExternalsAreDependencies(input: Input, g: ResourceGraph, v: Setting, d: Descriptor, e: Expr)
    requires Faultless(input) && IsGraphOf(input, g) && HasUniqueModules(input) && d in g.deps && e.Externals?
    ensures ReadsDependencies(g, v, d, e)
  {
    hide Faultless, IsGraphOf, HasUniqueModules, IsOwn;
    forall o | o in Sources(g, v, d, e) ensures o in g.deps[d] {
      if IsOwn(g, d, e.external, o) {
        OwnIsDependency(input, g, d, e.external, o);
      }
    }
  }

  // ---- Driver inputs ----

  /** What placeholders of a dialect can mean. */
  ghost predicate Allows(dialect: Dialect, e: Expr) {
    dialect == InSet <==> !e.Context? && !e.Resource?
  }

  lemma InterpretedIsAllowed(raw: Template.RawPlaceholder, dialect: Dialect)
    requires Interpret(raw, dialect).Ok?
    ensures Allows(dialect, Interpret(raw, dialect).value)
  {
    hide ParseResourceRef, ContextOf, Placeholder.Names;
  }

  lemma {:induction false} MentionedIsAllowed(value: Value, dialect: Dialect, e: Expr)
    requires IsMentioned(value, dialect, e)
    ensures Allows(dialect, e)
    decreases value
  {
    hide Interpret, Allows;
    match value
    case Str(s) =>
      var ps := Placeholders(Template.Parse(s).value);
      var i :| 0 <= i < |ps| && Interpret(ps[i], dialect) == Ok(e);
      InterpretedIsAllowed(ps[i], dialect);
    case Arr(items) =>
      var i :| 0 <= i < |items| && IsMentioned(items[i], dialect, e);
      MentionedIsAllowed(items[i], dialect, e);
    case Obj(fields) =>
      var i :| 0 <= i < |fields| && IsMentioned(fields[i].value, dialect, e);
      MentionedIsAllowed(fields[i].value, dialect, e);
    case _ =>
  }

  /** A resource placeholder in driver inputs that the run names as the graph does reads a dependency. */
  lemma InputReads(input: Input, g: ResourceGraph, v: Setting, d: Descriptor, def: Definition, e: Expr)
    requires Faultless(input) && IsGraphOf(input, g) && d in g.nodes && d in g.deps
    requires DefinitionOf(input, d) == Some(def) && InputMentions(def, e) && e.Resource?
    requires IsNamedAlike(input, v.implicitTypes, e.target, d, d)
    ensures ReadsDependencies(g, v, d, e)
  {
    hide Faultless, IsGraphOf, DefinitionOf, InputMentions, IsNamedAlike, ResolveRef;
    ReferenceIsDependency(input, g, d, def, e);
    var scope := Scope(map[], Some(d), v.implicitTypes, map[], map[], map[], map[]);
    NamedAlikeIff(input, scope, e.target, d, d);
    assert scope.DescriptorFor(e.target) == Some(e.target.Resolve(d, e.target.ty in v.implicitTypes));
  }

  /** The run names every reference in `d`'s driver inputs as the graph does, or shows the same node for it anyway. */
  ghost predicate InputsNamedAlike(input: Input, g: ResourceGraph, v: Setting, d: Descriptor, def: Definition)
    requires d in g.deps
  {
    forall e :: InputMentions(def, e) && e.Resource? ==>
      IsNamedAlike(input, v.implicitTypes, e.target, d, d) || IsSteady(g, v, d, e)
  }

  /** A definition's driver inputs and account are steady. */
  lemma InputsAreSteady(input: Input, g: ResourceGraph, v: Setting, d: Descriptor, def: Definition)
    requires Faultless(input) && IsGraphOf(input, g) && IsDag(g) && d in g.nodes
    requires DefinitionOf(input, d) == Some(def) && InputsNamedAlike(input, g, v, d, def)
    ensures AllSteady(g, v, d, def.values, InDefinition) && AllSteady(g, v, d, def.secrets, InDefinition)
    ensures def.driverAccount.Some? ==> AllSteady(g, v, d, Str(def.driverAccount.value), InDriverAccount)
  {
    hide Faultless, IsGraphOf, DefinitionOf, IsMentioned, ReadsDependencies, IsSteady, IsNamedAlike;
    forall e | InputMentions(def, e) ensures IsSteady(g, v, d, e) {
      InputIsAllowed(def, e);
      if e.Context? {
        NothingRead(g, v, d, e);
        DependenciesAreSteady(g, v, d, e);
      } else if IsNamedAlike(input, v.implicitTypes, e.target, d, d) {
        InputReads(input, g, v, d, def, e);
        DependenciesAreSteady(g, v, d, e);
      }
    }
  }

  lemma InputIsAllowed(def: Definition, e: Expr)
    requires InputMentions(def, e)
    ensures e.Context? || e.Resource?
  {
    hide IsMentioned;
    if IsMentioned(def.values, InDefinition, e) {
      MentionedIsAllowed(def.values, InDefinition, e);
    } else if IsMentioned(def.secrets, InDefinition, e) {
      MentionedIsAllowed(def.secrets, InDefinition, e);
    } else {
      MentionedIsAllowed(Str(def.driverAccount.value), InDriverAccount, e);
    }
  }

  // ---- Params of co-provisioned resources ----

  /** Every reference in the entry's params is read for `co` as the graph reads it for `d`. */
  ghost predicate AllNamedAlike(input: Input, v: Setting, d: Descriptor, entry: ProvisionEntry, co: Descriptor) {
    forall e :: IsMentioned(OrNull(entry.provision.params), InDefinition, e) && e.Resource? ==>
      IsNamedAlike(input, v.implicitTypes, e.target, d, co)
  }

  /** Co-provisioning params are steady, if the graph and the run name their references alike. */
  lemma CoParamsAreSteady(input: Input, g: ResourceGraph, v: Setting, d: Descriptor, def: Definition,
      entry: ProvisionEntry, co: Descriptor)
    requires Faultless(input) && IsGraphOf(input, g) && d in g.nodes && Provisions(input, d, def, entry, co)
    requires AllNamedAlike(input, v, d, entry, co) && IsDag(g) && co in g.nodes
    ensures AllSteady(g, v, co, OrNull(g.nodes[co].params), InDefinition)
  {
    hide Faultless, IsGraphOf, Provisions, IsMentioned, IsNamedAlike, ReadsDependencies, IsSteady;
    var params := OrNull(g.nodes[co].params);
    forall e | IsMentioned(params, InDefinition, e) ensures IsSteady(g, v, co, e) {
      MentionedIsAllowed(params, InDefinition, e);
      CoMentions(input, g, d, def, entry, co, e);
      if e.Resource? {
        ParamReads(input, g, v, d, def, entry, co, e);
      } else {
        NothingRead(g, v, co, e);
      }
      DependenciesAreSteady(g, v, co, e);
    }
  }

  lemma NothingRead(g: ResourceGraph, v: Setting, d: Descriptor, e: Expr)
    requires d in g.deps && !e.Resource? && !e.Externals? && !e.Shared?
    ensures ReadsDependencies(g, v, d, e)
  {
  }

  lemma ParamReads(input: Input, g: ResourceGraph, v: Setting, d: Descriptor, def: Definition,
      entry: ProvisionEntry, co: Descriptor, e: Expr)
    requires Faultless(input) && IsGraphOf(input, g) && d in g.nodes && Provisions(input, d, def, entry, co)
    requires co in g.nodes && co in g.deps && e.Resource? && IsNamedAlike(input, v.implicitTypes, e.target, d, co)
    requires IsMentioned(OrNull(entry.provision.params), InDefinition, e)
    ensures ReadsDependencies(g, v, co, e)
  {
    hide Faultless, IsGraphOf, Provisions, IsMentioned, IsNamedAlike, ResolveRef;
    ParamReferenceIsDependency(input, g, d, def, entry, co, e);
    var scope := Scope(map[], Some(co), v.implicitTypes, map[], map[], map[], map[]);
    NamedAlikeIff(input, scope, e.target, d, co);
    assert scope.DescriptorFor(e.target) == Some(e.target.Resolve(co, e.target.ty in v.implicitTypes));
  }

  // ---- Params from the set ----

  /** A value from the set is steady exactly when the shared resources it reads are. */
  lemma SetValueIsSteadyIff(input: Input, g: ResourceGraph, v: Setting, d: Descriptor, value: Value)
    requires Faultless(input) && IsGraphOf(input, g) && HasUniqueModules(input) && IsDag(g) && d in g.deps
    ensures AllSteady(g, v, d, value, InSet) <==>
      forall e :: IsMentioned(value, InSet, e) && e.Shared? ==> IsSteady(g, v, d, e)
  {
    hide Faultless, IsGraphOf, HasUniqueModules, IsMentioned, ReadsDependencies, IsSteady;
    forall e | IsMentioned(value, InSet, e) && !e.Shared? ensures IsSteady(g, v, d, e) {
      MentionedIsAllowed(value, InSet, e);
      if e.Externals? {
        ExternalsAreDependencies(input, g, v, d, e);
      } else {
        NothingRead(g, v, d, e);
      }
      DependenciesAreSteady(g, v, d, e);
    }
  }

  /**
   A resource that only another workload shares, and that need not wait for all
   that `d` waits for: in one run `d` starts with its outputs, and in another run
   of the same plan with none.
   */
  lemma ForeignSharedComesAndGoes(g: ResourceGraph, v: Setting, d: Descriptor, e: Expr, o: Descriptor)
    returns (p: Plan, run: History, other: History)
    requires Chooses(v) && IsDag(g) && d in g.deps && e.Shared?
    requires o in g.nodes && IsShared(g, e.shared, o) && o != d && CanPrecede(g.deps, d, o)
    requires forall c :: c in g.nodes && IsShared(g, e.shared, c) ==> !DependsOn(g.deps, d, c)
    ensures IsRunWith(g, p, run, d) && IsRunWith(g, p, other, d) && NeverLate(p)
    ensures Shown(g, v, d, e, LastOf(run).starts[d].seen) != Shown(g, v, d, e, LastOf(other).starts[d].seen)
    ensures o in LastOf(run).starts[d].seen && o !in LastOf(other).starts[d].seen
  {
    hide Chooses, IsShared, IsDag, DependsOn, CanPrecede, IsRunWith, NeverLate, LastOf, Shown;
    assert o in Sources(g, v, d, e);
    p, run, other := ShowsDifferently(g, v, d, e, o);
  }

  /** A shared resource of the set that a workload's spec reads is a dependency of it. */
  lemma SharedReadIsDependency(input: Input, g: ResourceGraph, m: Module, e: Expr)
    requires Faultless(input) && IsGraphOf(input, g) && m in input.modules && WorkloadOf(m) in g.nodes
    requires Collected(Obj(m.spec), InSet).Ok? && IsMentioned(Obj(m.spec), InSet, e) && e.Shared?
    requires FindShared(input.shared, e.shared).Some?
    ensures SharedOf(FindShared(input.shared, e.shared).value) in g.deps[WorkloadOf(m)]
  {
    hide Faultless, IsGraphOf, IsMentioned, Collected, NodeLinks, WorkloadOf, FindShared, IsResId;
    CollectedIffMentioned(Obj(m.spec), InSet, e);
    var s := FindShared(input.shared, e.shared).value;
    SharedHasId(input, g, s);
    assert IsReadOf(e, input.shared, SharedOf(s));
    assert RootLinks(input, WorkloadOf(m), SharedOf(s));
    LinkIsDependency(input, g, WorkloadOf(m), SharedOf(s));
  }

  lemma SharedHasId(input: Input, g: ResourceGraph, s: SharedResource)
    requires Faultless(input) && IsGraphOf(input, g) && s in input.shared
    ensures IsResId(SharedOf(s).id)
  {
    hide Faultless, IsGraphOf, ModuleActions, SharedActions, SpecActions, IsResId, SharedOf, NoFail;
    FaultlessRuns(input, g);
    var front := [Ask(BASE_ENV, BaseEnv, None)] + ModuleActions(input.modules);
    SetsJoin(front + SharedActions(input.shared), SpecActions(input.modules, input.shared));
    SetsJoin(front, SharedActions(input.shared));
    SharedHaveIds(input.shared, s);
  }

  lemma {:induction false} SharedHaveIds(shared: seq<SharedResource>, s: SharedResource)
    requires NoFail(SharedActions(shared)) && s in shared
    ensures IsResId(SharedOf(s).id)
  {
    hide IsResId, SharedOf;
    var all := SharedActions(shared);
    assert !all[0].Fail?;
    if shared[0] != s {
      var first := [Ask(SharedOf(shared[0]), FromShared(shared[0].id), Some(OrNull(shared[0].params)))];
      SetsJoin(first, SharedActions(shared[1..]));
      SharedHaveIds(shared[1..], s);
    }
  }
}
