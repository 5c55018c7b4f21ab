/** What the edges and nodes of a graph mean, in terms of workloads and definitions. */
module GraphMeaning {
  import opened Basics
  import opened Coprovision
  import opened Criteria
  import opened Ids
  import opened Json
  import opened Collect
  import opened Placeholder
  import opened GraphSpec
  import opened GraphClosure
  import opened GraphFaults
  import opened Graph
  import Canonical
  import Text
  import Topology

  // ---- What definitions ask for ----

  /** The resources that a definition's driver inputs and account refer to. */
  function InputRefs(def: Definition): seq<ResourceRef> {
    if FoundIn(def).Ok? then Targets(FoundIn(def).value) else []
  }

  /** The resources that an entry's params refer to. */
  function ParamRefs(e: ProvisionEntry): seq<ResourceRef> {
    var found := Collected(OrNull(e.provision.params), InDefinition);
    if found.Ok? then Targets(found.value) else []
  }

  /** `to` is one of `refs`, as `d` names them. */
  ghost predicate Names(input: Input, d: Descriptor, refs: seq<ResourceRef>, to: Descriptor) {
    exists r :: r in refs && to == ResolveRef(input, r, d)
  }

  /** The resource that an entry co-provisions. */
  function CoOf(input: Input, d: Descriptor, e: ProvisionEntry): Option<Descriptor> {
    var target := ParseRef(e.key);
    if target.Some? then Some(ResolveRef(input, target.value, d)) else None
  }

  /** A dependent entry is a dependency, any other a dependant; and it depends on what its params read. */
  ghost predicate EntryLinks(input: Input, d: Descriptor, e: ProvisionEntry, x: Descriptor, y: Descriptor) {
    var co := CoOf(input, d, e);
    co.Some? && (
      || (e.provision.isDependent && x == d && y == co.value)
      || (!e.provision.isDependent && x == co.value && y == d)
      || (x == co.value && y != co.value && Names(input, d, ParamRefs(e), y)))
  }

  ghost predicate DefinitionLinks(input: Input, d: Descriptor, def: Definition, x: Descriptor, y: Descriptor) {
    || (x == d && Names(input, d, InputRefs(def), y))
    || (exists e :: e in def.provisions && EntryLinks(input, d, e, x, y))
  }

  ghost predicate EntryAsksFor(input: Input, d: Descriptor, e: ProvisionEntry, x: Descriptor) {
    CoOf(input, d, e) == Some(x) || (CoOf(input, d, e).Some? && Names(input, d, ParamRefs(e), x))
  }

  ghost predicate DefinitionAsksFor(input: Input, d: Descriptor, def: Definition, x: Descriptor) {
    || Names(input, d, InputRefs(def), x)
    || (exists e :: e in def.provisions && EntryAsksFor(input, d, e, x))
  }

  // ---- Membership ----

  lemma InLinkSet(actions: seq<Action>, x: Descriptor, y: Descriptor)
    ensures (x, y) in LinkSet(actions) <==> Link(x, y) in actions
  {
    if Link(x, y) in actions {
      var i :| 0 <= i < |actions| && actions[i] == Link(x, y);
    }
  }

  ghost predicate Asks(actions: seq<Action>, x: Descriptor) {
    x in AskSet(actions)
  }

  lemma AsksSplit(a: seq<Action>, b: seq<Action>, x: Descriptor, y: Descriptor)
    ensures Asks(a + b, x) <==> Asks(a, x) || Asks(b, x)
    ensures Link(x, y) in a + b <==> Link(x, y) in a || Link(x, y) in b
  {
    hide AskSet, LinkSet, CoSet, NoFail;
    SetsJoin(a, b);
  }

  lemma TwoActions(d: Descriptor, origin: Origin, params: Option<Canonical.Document>, from: Descriptor, to: Descriptor,
      x: Descriptor, y: Descriptor)
    ensures Asks([Ask(d, origin, params), Link(from, to)], x) <==> x == d
    ensures Link(x, y) in [Ask(d, origin, params), Link(from, to)] <==> x == from && y == to
  {
    var two := [Ask(d, origin, params), Link(from, to)];
    assert two[0].Ask?;
  }

  lemma OneAction(a: Action, x: Descriptor, y: Descriptor)
    ensures Asks([a], x) <==> a.Ask? && x == a.d
    ensures Link(x, y) in [a] <==> a == Link(x, y)
  {
    assert [a][0] == a;
  }

  lemma NoActions(x: Descriptor, y: Descriptor)
    ensures !Asks([], x) && Link(x, y) !in []
  {
  }

  // ---- References and params ----

  lemma NamesFirst(input: Input, d: Descriptor, refs: seq<ResourceRef>, to: Descriptor)
    requires refs != []
    ensures Names(input, d, refs, to) <==> to == ResolveRef(input, refs[0], d) || Names(input, d, refs[1..], to)
  {
    hide ResolveRef;
    assert forall r :: r in refs <==> r == refs[0] || r in refs[1..];
  }

  lemma {:induction false} RefsMean(input: Input, d: Descriptor, origin: Origin, refs: seq<ResourceRef>,
      x: Descriptor, y: Descriptor)
    ensures Link(x, y) in RefActions(input, d, origin, refs) <==> x == d && Names(input, d, refs, y)
    ensures Asks(RefActions(input, d, origin, refs), x) <==> Names(input, d, refs, x)
  {
    hide ResolveRef, Names, Asks;
    if refs == [] {
      NoActions(x, y);
      NoNames(input, d, x);
      NoNames(input, d, y);
    } else {
      var to := ResolveRef(input, refs[0], d);
      RefsMean(input, d, origin, refs[1..], x, y);
      AsksSplit([Ask(to, origin, None), Link(d, to)], RefActions(input, d, origin, refs[1..]), x, y);
      TwoActions(to, origin, None, d, to, x, y);
      NamesFirst(input, d, refs, x);
      NamesFirst(input, d, refs, y);
    }
  }

  lemma NoNames(input: Input, d: Descriptor, to: Descriptor)
    ensures !Names(input, d, [], to)
  {
  }

  lemma {:induction false} ParamsMean(input: Input, d: Descriptor, co: Descriptor, origin: Origin,
      refs: seq<ResourceRef>, x: Descriptor, y: Descriptor)
    ensures Link(x, y) in ParamActions(input, d, co, origin, refs) <==> x == co && y != co && Names(input, d, refs, y)
    ensures Asks(ParamActions(input, d, co, origin, refs), x) <==> Names(input, d, refs, x)
  {
    hide ResolveRef, Names, Asks;
    if refs == [] {
      NoActions(x, y);
      NoNames(input, d, x);
      NoNames(input, d, y);
    } else {
      var to := ResolveRef(input, refs[0], d);
      var ask, link := [Ask(to, origin, None)], if to != co then [Link(co, to)] else [];
      ParamsMean(input, d, co, origin, refs[1..], x, y);
      AsksSplit(ask + link, ParamActions(input, d, co, origin, refs[1..]), x, y);
      AsksSplit(ask, link, x, y);
      OneAction(ask[0], x, y);
      OneAction(Link(co, to), x, y);
      NoActions(x, y);
      NamesFirst(input, d, refs, x);
      NamesFirst(input, d, refs, y);
    }
  }

  // ---- Entries ----

  lemma EntryMeans(input: Input, def: Definition, d: Descriptor, e: ProvisionEntry, x: Descriptor, y: Descriptor)
    requires NoFail(EntryActions(input, def, d, e))
    ensures Link(x, y) in EntryActions(input, def, d, e) <==> EntryLinks(input, d, e, x, y)
    ensures Asks(EntryActions(input, def, d, e), x) <==> EntryAsksFor(input, d, e, x)
  {
    hide ResolveRef, Names, Asks, Collected, ParseRef, ParamActions;
    EntryParses(input, def, d, e);
    var co, params := CoOf(input, d, e).value, OrNull(e.provision.params);
    var exprs, origin := Collected(params, InDefinition).value, FromParams(def.id, e.key, d);
    var link := if e.provision.isDependent then Link(d, co) else Link(co, d);
    var head := [Ask(co, FromProvision(def.id, e.key, d), Some(params)), link];
    var asked := ParamActions(input, d, co, origin, Targets(exprs));
    var done := [AddCo(CoProvision(d, co, e.provision.matchDependents))];
    AsksSplit(head, asked + done, x, y);
    AsksSplit(asked, done, x, y);
    OneAction(done[0], x, y);
    TwoActions(co, FromProvision(def.id, e.key, d), Some(params), link.from, link.to, x, y);
    ParamsMean(input, d, co, origin, Targets(exprs), x, y);
  }

  /** An entry that does not fail has a key and params that parse. */
  lemma EntryParses(input: Input, def: Definition, d: Descriptor, e: ProvisionEntry)
    requires NoFail(EntryActions(input, def, d, e))
    ensures ParseRef(e.key).Some? && Collected(OrNull(e.provision.params), InDefinition).Ok?
  {
    hide EntryActions, Collected, ParseRef;
    if ParseRef(e.key).None? || Collected(OrNull(e.provision.params), InDefinition).Err? {
      EntryFailsUnparsed(input, def, d, e);
    }
  }

  lemma EntryFailsUnparsed(input: Input, def: Definition, d: Descriptor, e: ProvisionEntry)
    requires ParseRef(e.key).None? || Collected(OrNull(e.provision.params), InDefinition).Err?
    ensures !NoFail(EntryActions(input, def, d, e))
  {
    hide ResolveRef, Collected, ParseRef, ParamActions;
    var all := EntryActions(input, def, d, e);
    if ParseRef(e.key).None? {
      assert all[0].Fail?;
    } else {
      assert all[2].Fail?;
    }
  }

  lemma {:induction false} EntriesMean(input: Input, def: Definition, d: Descriptor, entries: seq<ProvisionEntry>,
      x: Descriptor, y: Descriptor)
    requires NoFail(ProvisionActions(input, def, d, entries))
    ensures Link(x, y) in ProvisionActions(input, def, d, entries) <==>
      exists e :: e in entries && EntryLinks(input, d, e, x, y)
    ensures Asks(ProvisionActions(input, def, d, entries), x) <==>
      exists e :: e in entries && EntryAsksFor(input, d, e, x)
  {
    hide EntryActions, EntryLinks, EntryAsksFor, Asks, AskSet, LinkSet, CoSet, NoFail;
    if entries == [] {
      NoActions(x, y);
    } else {
      var first, rest := EntryActions(input, def, d, entries[0]), ProvisionActions(input, def, d, entries[1..]);
      SetsJoin(first, rest);
      AsksSplit(first, rest, x, y);
      EntryMeans(input, def, d, entries[0], x, y);
      EntriesMean(input, def, d, entries[1..], x, y);
      assert forall e :: e in entries <==> e == entries[0] || e in entries[1..];
    }
  }

  /**
   Expanding a resource adds exactly these edges and asks for exactly these
   resources, in whatever order its definition lists them.
   */
  lemma ExpansionMeans(input: Input, d: Descriptor, def: Definition, x: Descriptor, y: Descriptor)
    requires DefinitionOf(input, d) == Some(def) && NoFail(ActionsOf(input, d))
    ensures (x, y) in LinkSet(ActionsOf(input, d)) <==> DefinitionLinks(input, d, def, x, y)
    ensures x in AskSet(ActionsOf(input, d)) <==> DefinitionAsksFor(input, d, def, x)
  {
    hide DefinitionOf, FoundIn, RefActions, ProvisionActions, Names, EntryLinks, EntryAsksFor, AskSet, LinkSet,
      CoSet, NoFail;
    ExpansionParses(input, d, def);
    var origin := FromReference(def.id, d);
    var refs, entries := RefActions(input, d, origin, InputRefs(def)), ProvisionActions(input, def, d, def.provisions);
    SetsJoin(refs, entries);
    AsksSplit(refs, entries, x, y);
    RefsMean(input, d, origin, InputRefs(def), x, y);
    EntriesMean(input, def, d, def.provisions, x, y);
    InLinkSet(ActionsOf(input, d), x, y);
  }

  lemma ExpansionParses(input: Input, d: Descriptor, def: Definition)
    requires DefinitionOf(input, d) == Some(def) && NoFail(ActionsOf(input, d))
    ensures FoundIn(def).Ok?
  {
    hide ActionsOf, FoundIn;
    if FoundIn(def).Err? {
      ExpansionFailsUnparsed(input, d, def);
    }
  }

  lemma ExpansionFailsUnparsed(input: Input, d: Descriptor, def: Definition)
    requires DefinitionOf(input, d) == Some(def) && FoundIn(def).Err?
    ensures !NoFail(ActionsOf(input, d))
  {
    hide DefinitionOf, FoundIn, RefActions, ProvisionActions;
    assert ActionsOf(input, d)[0].Fail?;
  }

  // ---- Workloads and shared resources ----

  ghost predicate IsDependencyOf(m: Module, x: Descriptor) {
    exists e :: e in m.externals && x == ExternalOf(m, e)
  }

  /** The workload's spec reads `x`, a shared resource of the set. */
  ghost predicate ReadsShared(m: Module, shared: seq<SharedResource>, x: Descriptor) {
    var found := Collected(Obj(m.spec), InSet);
    found.Ok? && exists e :: e in found.value && IsReadOf(e, shared, x)
  }

  ghost predicate IsReadOf(e: Expr, shared: seq<SharedResource>, x: Descriptor) {
    e.Shared? && FindShared(shared, e.shared).Some? && x == SharedOf(FindShared(shared, e.shared).value) &&
      IsResId(x.id)
  }

  ghost predicate RootLinks(input: Input, x: Descriptor, y: Descriptor) {
    exists m :: m in input.modules && x == WorkloadOf(m) && (IsDependencyOf(m, y) || ReadsShared(m, input.shared, y))
  }

  ghost predicate RootAsksFor(input: Input, x: Descriptor) {
    || x == BASE_ENV
    || (exists m :: m in input.modules && (x == WorkloadOf(m) || IsDependencyOf(m, x)))
    || (exists s :: s in input.shared && x == SharedOf(s))
  }

  lemma {:induction false} ExternalsMean(m: Module, externals: seq<External>, x: Descriptor, y: Descriptor)
    requires NoFail(ExternalActions(m, externals))
    ensures Link(x, y) in ExternalActions(m, externals) <==>
      x == WorkloadOf(m) && exists e :: e in externals && y == ExternalOf(m, e)
    ensures Asks(ExternalActions(m, externals), x) <==> exists e :: e in externals && x == ExternalOf(m, e)
  {
    hide IsResId, WorkloadOf, ExternalOf, Asks, AskSet, LinkSet, CoSet;
    if externals == [] {
      NoActions(x, y);
    } else {
      var e := externals[0];
      var all := ExternalActions(m, externals);
      assert !all[0].Fail?;
      var first := [Ask(ExternalOf(m, e), FromExternal(m.id, e.key), Some(OrNull(e.params))),
        Link(WorkloadOf(m), ExternalOf(m, e))];
      var rest := ExternalActions(m, externals[1..]);
      SetsJoin(first, rest);
      AsksSplit(first, rest, x, y);
      TwoActions(ExternalOf(m, e), FromExternal(m.id, e.key), Some(OrNull(e.params)), WorkloadOf(m), ExternalOf(m, e),
        x, y);
      ExternalsMean(m, externals[1..], x, y);
      assert forall f :: f in externals <==> f == externals[0] || f in externals[1..];
    }
  }

  lemma {:induction false} ModulesMean(modules: seq<Module>, x: Descriptor, y: Descriptor)
    requires NoFail(ModuleActions(modules))
    ensures Link(x, y) in ModuleActions(modules) <==>
      exists m :: m in modules && x == WorkloadOf(m) && IsDependencyOf(m, y)
    ensures Asks(ModuleActions(modules), x) <==>
      exists m :: m in modules && (x == WorkloadOf(m) || IsDependencyOf(m, x))
  {
    hide WorkloadOf, ExternalActions, Asks, AskSet, LinkSet, CoSet, NoFail;
    if modules == [] {
      NoActions(x, y);
    } else {
      var m := modules[0];
      var ask := [Ask(WorkloadOf(m), FromModule(m.id), Some(WorkloadParams(m)))];
      var externals, rest := ExternalActions(m, m.externals), ModuleActions(modules[1..]);
      SetsJoin(ask + externals, rest);
      SetsJoin(ask, externals);
      AsksSplit(ask + externals, rest, x, y);
      AsksSplit(ask, externals, x, y);
      OneAction(ask[0], x, y);
      ExternalsMean(m, m.externals, x, y);
      ModulesMean(modules[1..], x, y);
      assert forall n :: n in modules <==> n == modules[0] || n in modules[1..];
    }
  }

  lemma {:induction false} SharedMean(shared: seq<SharedResource>, x: Descriptor, y: Descriptor)
    requires NoFail(SharedActions(shared))
    ensures Link(x, y) !in SharedActions(shared)
    ensures Asks(SharedActions(shared), x) <==> exists s :: s in shared && x == SharedOf(s)
  {
    hide IsResId, SharedOf, Asks, AskSet, LinkSet, CoSet;
    if shared == [] {
      NoActions(x, y);
    } else {
      var all := SharedActions(shared);
      assert !all[0].Fail?;
      var first := [Ask(SharedOf(shared[0]), FromShared(shared[0].id), Some(OrNull(shared[0].params)))];
      var rest := SharedActions(shared[1..]);
      SetsJoin(first, rest);
      AsksSplit(first, rest, x, y);
      OneAction(first[0], x, y);
      SharedMean(shared[1..], x, y);
      assert forall s :: s in shared <==> s == shared[0] || s in shared[1..];
    }
  }

  lemma {:induction false} ReadsMean(w: Descriptor, exprs: seq<Expr>, shared: seq<SharedResource>, x: Descriptor,
      y: Descriptor)
    ensures Link(x, y) in ReadActions(w, exprs, shared) <==> x == w && exists e :: e in exprs && IsReadOf(e, shared, y)
    ensures !Asks(ReadActions(w, exprs, shared), x)
  {
    hide IsResId, SharedOf, FindShared, Asks, AskSet, LinkSet, CoSet;
    if exprs == [] {
      NoActions(x, y);
    } else {
      ReadsMean(w, exprs[1..], shared, x, y);
      var rest := ReadActions(w, exprs[1..], shared);
      assert forall e :: e in exprs <==> e == exprs[0] || e in exprs[1..];
      if exprs[0].Shared? && FindShared(shared, exprs[0].shared).Some? {
        var to := SharedOf(FindShared(shared, exprs[0].shared).value);
        assert IsReadOf(exprs[0], shared, y) <==> y == to && IsResId(to.id);
        AsksSplit([Link(w, to)], rest, x, y);
        OneAction(Link(w, to), x, y);
      } else {
        assert !IsReadOf(exprs[0], shared, y);
      }
    }
  }

  lemma {:induction false} SpecsMean(modules: seq<Module>, shared: seq<SharedResource>, x: Descriptor, y: Descriptor)
    ensures Link(x, y) in SpecActions(modules, shared) <==>
      exists m :: m in modules && x == WorkloadOf(m) && ReadsShared(m, shared, y)
    ensures !Asks(SpecActions(modules, shared), x)
  {
    hide WorkloadOf, Collected, ReadActions, IsReadOf, Asks, AskSet, LinkSet, CoSet;
    if modules == [] {
      NoActions(x, y);
    } else {
      var found := Collected(Obj(modules[0].spec), InSet);
      var first := if found.Ok? then ReadActions(WorkloadOf(modules[0]), found.value, shared) else [];
      if found.Ok? {
        ReadsMean(WorkloadOf(modules[0]), found.value, shared, x, y);
      }
      NoActions(x, y);
      AsksSplit(first, SpecActions(modules[1..], shared), x, y);
      SpecsMean(modules[1..], shared, x, y);
      assert forall m :: m in modules <==> m == modules[0] || m in modules[1..];
    }
  }

  /** What a deployment asks for by itself: the base environment, workloads, their dependencies and shared resources. */
  lemma RootsMean(input: Input, x: Descriptor, y: Descriptor)
    requires NoFail(RootActions(input))
    ensures (x, y) in LinkSet(RootActions(input)) <==> RootLinks(input, x, y)
    ensures x in AskSet(RootActions(input)) <==> RootAsksFor(input, x)
  {
    hide ModuleActions, SharedActions, SpecActions, WorkloadOf, SharedOf, IsDependencyOf, ReadsShared, AskSet,
      LinkSet, CoSet, NoFail;
    var base := [Ask(BASE_ENV, BaseEnv, None)];
    var modules, shared := ModuleActions(input.modules), SharedActions(input.shared);
    var specs := SpecActions(input.modules, input.shared);
    SetsJoin(base + modules + shared, specs);
    SetsJoin(base + modules, shared);
    SetsJoin(base, modules);
    AsksSplit(base + modules + shared, specs, x, y);
    AsksSplit(base + modules, shared, x, y);
    AsksSplit(base, modules, x, y);
    OneAction(base[0], x, y);
    ModulesMean(input.modules, x, y);
    SharedMean(input.shared, x, y);
    SpecsMean(input.modules, input.shared, x, y);
    InLinkSet(RootActions(input), x, y);
  }

  // ---- The whole graph ----

  lemma FaultlessRuns(input: Input, g: ResourceGraph)
    requires Faultless(input) && IsGraphOf(input, g)
    ensures NoFail(RootActions(input))
    ensures forall d :: d in g.nodes ==> NoFail(ActionsOf(input, d))
  {
    hide RootActions, ActionsOf, IsDepsOf, IsNodeOf, Topology.IsLayering, Topology.Closed;
    forall i | 0 <= i < |RootActions(input)| && RootActions(input)[i].Fail? ensures false {
      CalledFailure(input, RootActions(input)[i]);
    }
    forall d | d in g.nodes ensures NoFail(ActionsOf(input, d)) {
      NodeIsNeeded(input, g, d);
      NeededRuns(input, d);
    }
  }

  lemma NodeIsNeeded(input: Input, g: ResourceGraph, d: Descriptor)
    requires IsGraphOf(input, g) && d in g.nodes
    ensures IsNeeded(input, d) && g.nodes.Keys == g.deps.Keys
  {
    hide IsClosed, Topology.IsLayering, IsNodeOf, IsMatchClosure;
  }

  lemma NeededRuns(input: Input, d: Descriptor)
    requires Faultless(input) && IsNeeded(input, d)
    ensures NoFail(ActionsOf(input, d))
  {
    hide RootActions, ActionsOf, IsNeeded, Faultless;
    forall i | 0 <= i < |ActionsOf(input, d)| && ActionsOf(input, d)[i].Fail? ensures false {
      CalledFailure(input, ActionsOf(input, d)[i]);
    }
  }

  lemma CalledFailure(input: Input, a: Action)
    requires a.Fail? && IsCalledFor(input, a)
    ensures !Faultless(input)
  {
    hide IsCalledFor;
    FailIsFault(input, a.error);
  }

  /** An edge of a built graph, before consumers are matched, is one that a workload or a node's definition asks for. */
  lemma EdgeMeans(input: Input, g: ResourceGraph, x: Descriptor, y: Descriptor)
    requires Faultless(input) && IsGraphOf(input, g) && x in g.nodes
    ensures y in BaseDeps(input, g.nodes.Keys)[x] <==>
      RootLinks(input, x, y) || exists d :: d in g.nodes && NodeLinks(input, d, x, y)
  {
    hide Faultless, IsGraphOf, RootLinks, DefinitionLinks, RootActions, ActionsOf, LinkSet, DefinitionOf;
    FaultlessRuns(input, g);
    RootsMean(input, x, y);
    forall d | d in g.nodes ensures (x, y) in LinkSet(ActionsOf(input, d)) <==> NodeLinks(input, d, x, y) {
      NodeMeans(input, d, x, y);
    }
  }

  ghost predicate NodeLinks(input: Input, d: Descriptor, x: Descriptor, y: Descriptor) {
    DefinitionOf(input, d).Some? && DefinitionLinks(input, d, DefinitionOf(input, d).value, x, y)
  }

  lemma NodeMeans(input: Input, d: Descriptor, x: Descriptor, y: Descriptor)
    requires NoFail(ActionsOf(input, d))
    ensures (x, y) in LinkSet(ActionsOf(input, d)) <==> NodeLinks(input, d, x, y)
  {
    hide DefinitionOf, DefinitionLinks, DefinitionAsksFor, LinkSet, NoFail;
    if DefinitionOf(input, d).Some? {
      ExpansionMeans(input, d, DefinitionOf(input, d).value, x, y);
    } else {
      NoActions(x, y);
      InLinkSet([], x, y);
    }
  }

  // ---- Co-provisioning ----

  /** An entry of `d`'s definition co-provisions `co`, and says whether consumers of `d` wait for it. */
  ghost predicate CoProvisions(input: Input, d: Descriptor, def: Definition, co: Descriptor, waits: bool) {
    exists e :: e in def.provisions && CoOf(input, d, e) == Some(co) && e.provision.matchDependents == waits
  }

  lemma CosSplit(a: seq<Action>, b: seq<Action>, c: CoProvision)
    ensures AddCo(c) in a + b <==> AddCo(c) in a || AddCo(c) in b
  {
  }

  lemma {:induction false} RefsAddNoCo(input: Input, d: Descriptor, origin: Origin, refs: seq<ResourceRef>)
    ensures forall c :: AddCo(c) !in RefActions(input, d, origin, refs)
  {
    hide ResolveRef;
    if refs != [] {
      RefsAddNoCo(input, d, origin, refs[1..]);
    }
  }

  lemma {:induction false} ParamsAddNoCo(input: Input, d: Descriptor, co: Descriptor, origin: Origin,
      refs: seq<ResourceRef>)
    ensures forall c :: AddCo(c) !in ParamActions(input, d, co, origin, refs)
  {
    hide ResolveRef;
    if refs != [] {
      ParamsAddNoCo(input, d, co, origin, refs[1..]);
    }
  }

  lemma EntryCoMeans(input: Input, def: Definition, d: Descriptor, e: ProvisionEntry, c: CoProvision)
    requires NoFail(EntryActions(input, def, d, e))
    ensures AddCo(c) in EntryActions(input, def, d, e) <==>
      c.source == d && CoOf(input, d, e) == Some(c.co) && c.matchDependents == e.provision.matchDependents
  {
    hide ResolveRef, Collected, ParseRef, ParamActions;
    EntryParses(input, def, d, e);
    var co := CoOf(input, d, e).value;
    var exprs := Collected(OrNull(e.provision.params), InDefinition).value;
    ParamsAddNoCo(input, d, co, FromParams(def.id, e.key, d), Targets(exprs));
  }

  lemma {:induction false} EntriesCoMean(input: Input, def: Definition, d: Descriptor, entries: seq<ProvisionEntry>,
      c: CoProvision)
    requires NoFail(ProvisionActions(input, def, d, entries))
    ensures AddCo(c) in ProvisionActions(input, def, d, entries) <==>
      c.source == d && exists e ::
        e in entries && CoOf(input, d, e) == Some(c.co) && c.matchDependents == e.provision.matchDependents
  {
    hide EntryActions, CoOf, AskSet, LinkSet, CoSet, NoFail;
    if entries != [] {
      var first, rest := EntryActions(input, def, d, entries[0]), ProvisionActions(input, def, d, entries[1..]);
      SetsJoin(first, rest);
      CosSplit(first, rest, c);
      EntryCoMeans(input, def, d, entries[0], c);
      EntriesCoMean(input, def, d, entries[1..], c);
      assert forall e :: e in entries <==> e == entries[0] || e in entries[1..];
    }
  }

  /** Expanding a resource notes exactly the co-provisionings its definition's entries ask for. */
  lemma CoProvisionMeans(input: Input, d: Descriptor, def: Definition, c: CoProvision)
    requires DefinitionOf(input, d) == Some(def) && NoFail(ActionsOf(input, d))
    ensures c in CoSet(ActionsOf(input, d)) <==>
      c.source == d && CoProvisions(input, d, def, c.co, c.matchDependents)
  {
    hide DefinitionOf, FoundIn, RefActions, ProvisionActions, AskSet, LinkSet, NoFail, CoOf;
    ExpansionParses(input, d, def);
    var origin := FromReference(def.id, d);
    var refs, entries := RefActions(input, d, origin, InputRefs(def)), ProvisionActions(input, def, d, def.provisions);
    SetsJoin(refs, entries);
    RefsAddNoCo(input, d, origin, InputRefs(def));
    CosSplit(refs, entries, c);
    EntriesCoMean(input, def, d, def.provisions, c);
    InCoSet(ActionsOf(input, d), c);
  }

  lemma InCoSet(actions: seq<Action>, c: CoProvision)
    ensures c in CoSet(actions) <==> AddCo(c) in actions
  {
    if AddCo(c) in actions {
      var i :| 0 <= i < |actions| && actions[i] == AddCo(c);
    }
  }

  lemma {:induction false} ModulesAddNoCo(modules: seq<Module>)
    ensures forall c :: AddCo(c) !in ModuleActions(modules)
  {
    hide ExternalActions, WorkloadParams, WorkloadOf;
    if modules != [] {
      ExternalsAddNoCo(modules[0], modules[0].externals);
      ModulesAddNoCo(modules[1..]);
    }
  }

  lemma {:induction false} ExternalsAddNoCo(m: Module, externals: seq<External>)
    ensures forall c :: AddCo(c) !in ExternalActions(m, externals)
  {
    hide IsResId, WorkloadOf, ExternalOf;
    if externals != [] {
      ExternalsAddNoCo(m, externals[1..]);
    }
  }

  lemma {:induction false} SharedAddNoCo(shared: seq<SharedResource>)
    ensures forall c :: AddCo(c) !in SharedActions(shared)
  {
    hide IsResId, SharedOf;
    if shared != [] {
      SharedAddNoCo(shared[1..]);
    }
  }

  lemma {:induction false} ReadsAddNoCo(w: Descriptor, exprs: seq<Expr>, shared: seq<SharedResource>)
    ensures forall c :: AddCo(c) !in ReadActions(w, exprs, shared)
  {
    hide IsResId, SharedOf, FindShared;
    if exprs != [] {
      ReadsAddNoCo(w, exprs[1..], shared);
    }
  }

  lemma {:induction false} SpecsAddNoCo(modules: seq<Module>, shared: seq<SharedResource>)
    ensures forall c :: AddCo(c) !in SpecActions(modules, shared)
  {
    hide Collected, ReadActions, WorkloadOf;
    if modules != [] {
      var found := Collected(Obj(modules[0].spec), InSet);
      if found.Ok? {
        ReadsAddNoCo(WorkloadOf(modules[0]), found.value, shared);
      }
      SpecsAddNoCo(modules[1..], shared);
    }
  }

  lemma RootsAddNoCo(input: Input)
    ensures CoSet(RootActions(input)) == {}
  {
    hide ModuleActions, SharedActions, SpecActions;
    ModulesAddNoCo(input.modules);
    SharedAddNoCo(input.shared);
    SpecsAddNoCo(input.modules, input.shared);
    forall c ensures AddCo(c) !in RootActions(input) {
    }
  }

  /** A node's definition co-provisions `co`, for which consumers of the node wait. */
  ghost predicate NodeCoProvisions(input: Input, d: Descriptor, co: Descriptor) {
    DefinitionOf(input, d).Some? && CoProvisions(input, d, DefinitionOf(input, d).value, co, true)
  }

  lemma MatchingCosMean(input: Input, g: ResourceGraph, c: CoProvision)
    requires Faultless(input) && IsGraphOf(input, g) && c.matchDependents
    ensures c in CosOf(input, g.deps.Keys) <==> c.source in g.nodes && NodeCoProvisions(input, c.source, c.co)
  {
    hide Faultless, IsGraphOf, RootActions, ActionsOf, CoSet, CoProvisions, DefinitionOf;
    FaultlessRuns(input, g);
    NodesAreKeys(input, g);
    RootsAddNoCo(input);
    forall d | d in g.nodes
      ensures c in CoSet(ActionsOf(input, d)) <==> c.source == d && NodeCoProvisions(input, d, c.co)
    {
      NodeCoMeans(input, d, c);
    }
  }

  lemma NodesAreKeys(input: Input, g: ResourceGraph)
    requires IsGraphOf(input, g)
    ensures g.nodes.Keys == g.deps.Keys
  {
    hide IsDepsOf, IsNodeOf, Topology.IsLayering, Topology.Closed;
  }

  lemma NodeCoMeans(input: Input, d: Descriptor, c: CoProvision)
    requires NoFail(ActionsOf(input, d)) && c.matchDependents
    ensures c in CoSet(ActionsOf(input, d)) <==> c.source == d && NodeCoProvisions(input, d, c.co)
  {
    hide DefinitionOf, CoProvisions, NoFail;
    if DefinitionOf(input, d).Some? {
      hide CoSet;
      CoProvisionMeans(input, d, DefinitionOf(input, d).value, c);
    }
  }

  /** `n` depends on a resource whose definition co-provisions `y` for its consumers, and `n` is neither of the two. */
  ghost predicate IsMatched(input: Input, g: ResourceGraph, n: Descriptor, y: Descriptor)
    requires n in g.deps
  {
    exists d :: d in g.nodes && d in g.deps[n] && n != d && n != y && NodeCoProvisions(input, d, y)
  }

  /** The dependencies of a node before consumers are matched. */
  ghost predicate AsksToDepend(input: Input, g: ResourceGraph, n: Descriptor, y: Descriptor) {
    RootLinks(input, n, y) || exists d :: d in g.nodes && NodeLinks(input, d, n, y)
  }

  /** Every consumer of a resource waits for what the resource's definition co-provisions for its consumers. */
  lemma ConsumersWait(input: Input, g: ResourceGraph, n: Descriptor, d: Descriptor, co: Descriptor)
    requires Faultless(input) && IsGraphOf(input, g) && n in g.deps && d in g.nodes && d in g.deps[n]
    requires n != d && n != co && NodeCoProvisions(input, d, co)
    ensures co in g.deps[n]
  {
    MatchingCosMean(input, g, CoProvision(d, co, true));
    hide Faultless, NodeCoProvisions, CosOf, BaseDeps, IsNodeClosure, IsNodeOf, Topology.IsLayering, Topology.Closed;
    assert MatchClosed(g.deps, CosOf(input, g.deps.Keys));
    assert IsConsumer(g.deps, CoProvision(d, co, true), n);
  }

  /** `g` without one edge. */
  ghost function Without(g: Topology.Deps, n: Descriptor, y: Descriptor): Topology.Deps
    requires n in g
  {
    g[n := g[n] - {y}]
  }

  lemma SmallerIsUpper(base: Topology.Deps, cos: set<CoProvision>, g: Topology.Deps, n: Descriptor, y: Descriptor)
    requires IsUpper(base, cos, g) && n in g && y !in base[n]
    requires forall c :: c in cos && c.matchDependents && c.co == y ==> !IsConsumer(g, c, n)
    ensures IsUpper(base, cos, Without(g, n, y))
  {
    var h := Without(g, n, y);
    forall c, m | c in cos && c.matchDependents && IsConsumer(h, c, m) ensures c.co in h[m] {
      assert IsConsumer(g, c, m);
      assert ClosedFor(g, c);
    }
  }

  /** A dependency that nothing asks for is there only because it was matched. */
  lemma EdgeHasReason(base: Topology.Deps, cos: set<CoProvision>, g: Topology.Deps, n: Descriptor, y: Descriptor)
    requires IsMatchClosure(base, cos, g) && n in g && y in g[n] && y !in base[n]
    ensures exists c :: c in cos && c.matchDependents && c.co == y && IsConsumer(g, c, n)
  {
    if forall c :: c in cos && c.matchDependents && c.co == y ==> !IsConsumer(g, c, n) {
      SmallerIsUpper(base, cos, g, n, y);
    }
  }

  lemma GraphIsClosure(input: Input, g: ResourceGraph)
    requires IsGraphOf(input, g)
    ensures IsMatchClosure(BaseDeps(input, g.deps.Keys), CosOf(input, g.deps.Keys), g.deps)
  {
    hide IsNodeOf, Topology.IsLayering, Topology.Closed, IsNodeClosure, IsMatchClosure, BaseDeps, CosOf;
  }

  lemma BaseIsThere(input: Input, g: ResourceGraph, n: Descriptor, y: Descriptor)
    requires IsGraphOf(input, g) && n in g.nodes && n in g.deps
    ensures y in BaseDeps(input, g.nodes.Keys)[n] ==> y in g.deps[n]
  {
    hide IsNodeOf, Topology.IsLayering, Topology.Closed, IsNodeClosure, BaseDeps, CosOf, MatchClosed;
    assert Extends(BaseDeps(input, g.deps.Keys), g.deps);
  }

  lemma AddedIsMatched(input: Input, g: ResourceGraph, n: Descriptor, y: Descriptor)
    requires Faultless(input) && IsGraphOf(input, g) && n in g.deps
    requires y in g.deps[n] && y !in BaseDeps(input, g.deps.Keys)[n]
    ensures IsMatched(input, g, n, y)
  {
    hide Faultless, IsGraphOf, NodeCoProvisions, BaseDeps, CosOf, IsMatchClosure;
    GraphIsClosure(input, g);
    EdgeHasReason(BaseDeps(input, g.deps.Keys), CosOf(input, g.deps.Keys), g.deps, n, y);
    var c :| c in CosOf(input, g.deps.Keys) && c.matchDependents && c.co == y && IsConsumer(g.deps, c, n);
    MatchingCosMean(input, g, c);
  }

  lemma MatchedIsAdded(input: Input, g: ResourceGraph, n: Descriptor, y: Descriptor)
    requires Faultless(input) && IsGraphOf(input, g) && n in g.deps && IsMatched(input, g, n, y)
    ensures y in g.deps[n]
  {
    hide Faultless, IsGraphOf, NodeCoProvisions;
    var d :| d in g.nodes && d in g.deps[n] && n != d && n != y && NodeCoProvisions(input, d, y);
    ConsumersWait(input, g, n, d, y);
  }

  /** The dependencies of a node are those asked for, and those matched: nothing is missing, and nothing is added. */
  lemma DependencyMeans(input: Input, g: ResourceGraph, n: Descriptor, y: Descriptor)
    requires Faultless(input) && IsGraphOf(input, g) && n in g.nodes && n in g.deps
    ensures y in g.deps[n] <==> AsksToDepend(input, g, n, y) || IsMatched(input, g, n, y)
  {
    EdgeMeans(input, g, n, y);
    NodesAreKeys(input, g);
    BaseIsThere(input, g, n, y);
    hide Faultless, IsGraphOf, RootLinks, NodeLinks, IsMatched, BaseDeps;
    if IsMatched(input, g, n, y) {
      MatchedIsAdded(input, g, n, y);
    }
    if y in g.deps[n] && y !in BaseDeps(input, g.nodes.Keys)[n] {
      AddedIsMatched(input, g, n, y);
    }
  }

  // ---- Whose a resource is ----

  lemma PrefixEnds(m: string, a: string, n: string, b: string)
    requires '.' !in m && '.' !in n && m + ("." + a) == n + ("." + b)
    ensures m == n && a == b
  {
    var s, t := m + ("." + a), n + ("." + b);
    Text.FindIs(s, '.', |m|);
    Text.FindIs(t, '.', |n|);
    assert s[..|m|] == m && t[..|m|] == n;
    assert s[|m| + 1..] == a && t[|m| + 1..] == b;
  }

  lemma PrivateId(m: Module, e: External)
    requires e.id.None?
    ensures ExternalId(m, e) == "modules." + (m.id + ("." + ("externals." + e.key)))
  {
    assert "modules." + m.id + ".externals." + e.key == "modules." + (m.id + (".externals." + e.key));
    assert ".externals." == "." + "externals." && "." + "externals." + e.key == "." + ("externals." + e.key);
  }

  /** A private resource belongs to one dependency of one workload. */
  lemma PrivateIsOwn(m: Module, e: External, n: Module, f: External)
    requires '.' !in m.id && '.' !in n.id && e.id.None? && f.id.None? && ExternalOf(m, e) == ExternalOf(n, f)
    ensures m.id == n.id && e.key == f.key && e.ty == f.ty && e.cls == f.cls
  {
    hide ExternalId;
    PrivateId(m, e);
    PrivateId(n, f);
    var a, b := "externals." + e.key, "externals." + f.key;
    SameRest("modules.", m.id + ("." + a), n.id + ("." + b));
    PrefixEnds(m.id, a, n.id, b);
    SameRest("externals.", e.key, f.key);
  }

  lemma SameRest(p: string, a: string, b: string)
    requires p + a == p + b
    ensures a == b
  {
    assert (p + a)[|p|..] == a && (p + b)[|p|..] == b;
  }

  /** A dependency with an ID is the shared resource with that ID, whichever workload has it; no private one is. */
  lemma SharedIsShared(m: Module, e: External, s: SharedResource)
    ensures ExternalOf(m, e) == SharedOf(s) <==> e.id == Some(s.id) && e.ty == s.ty && e.cls == s.cls
  {
    if e.id.Some? && "shared." + e.id.value == "shared." + s.id {
      SameRest("shared.", e.id.value, s.id);
    }
    if e.id.None? {
      assert ExternalId(m, e)[0] == 'm' && ("shared." + s.id)[0] == 's';
    }
  }

  /** A workload's inputs are its ID, its class and its spec, each under its name. */
  lemma WorkloadParamsAre(m: Module)
    ensures WorkloadParams(m).Obj? && |WorkloadParams(m).fields| == 3
    ensures Field("id", Str(m.id)) in WorkloadParams(m).fields
    ensures Field("class", Str(m.cls)) in WorkloadParams(m).fields
    ensures Field("spec", Obj(m.spec)) in WorkloadParams(m).fields
  {
  }

  /** A class is missing exactly when something needs one that is not the default, and that the set does not define. */
  lemma MissingClassIff(input: Input, origin: Origin, ty: string, cls: string)
    ensures IsFault(input, MissingClass(origin, ty, cls)) <==>
      && cls != "default" && (ty, cls) !in input.classes
      && exists d :: IsNeeded(input, d) && IsAskedFrom(input, d, origin) && d.ty == ty && d.cls == cls
  {
    hide IsNeeded, IsAskedFrom;
    if d :| IsNeeded(input, d) && IsAskedFrom(input, d, origin) && d.ty == ty && d.cls == cls {
    }
  }
}
