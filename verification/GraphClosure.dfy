/**
 The least set of resources a deployment needs, and the finite universe it
 lies in.
 */
module GraphClosure {
  import opened Basics
  import opened Catalog
  import opened Criteria
  import opened Ids
  import opened Json
  import opened Text
  import opened Collect
  import opened Placeholder
  import opened Coprovision
  import opened GraphSpec

  type Edge = (Descriptor, Descriptor)

  ghost function AskSet(actions: seq<Action>): set<Descriptor> {
    set i | 0 <= i < |actions| && actions[i].Ask? :: actions[i].d
  }

  ghost function LinkSet(actions: seq<Action>): set<Edge> {
    set i | 0 <= i < |actions| && actions[i].Link? :: (actions[i].from, actions[i].to)
  }

  ghost function CoSet(actions: seq<Action>): set<CoProvision> {
    set i | 0 <= i < |actions| && actions[i].AddCo? :: actions[i].co
  }

  ghost predicate NoFail(actions: seq<Action>) {
    forall i :: 0 <= i < |actions| ==> !actions[i].Fail?
  }

  lemma SetsJoin(a: seq<Action>, b: seq<Action>)
    ensures AskSet(a + b) == AskSet(a) + AskSet(b)
    ensures LinkSet(a + b) == LinkSet(a) + LinkSet(b)
    ensures CoSet(a + b) == CoSet(a) + CoSet(b)
    ensures NoFail(a + b) <==> NoFail(a) && NoFail(b)
  {
    var all := a + b;
    assert forall i :: 0 <= i < |a| ==> all[i] == a[i];
    assert forall i :: 0 <= i < |b| ==> all[i + |a|] == b[i];
    assert forall i :: |a| <= i < |all| ==> all[i] == b[i - |a|];
  }

  // ---- The least set of resources ----

  /** The resources that are asked for anyway, and those that members ask for. */
  ghost predicate IsClosed(input: Input, n: set<Descriptor>) {
    && AskSet(RootActions(input)) <= n
    && forall d :: d in n ==> AskSet(ActionsOf(input, d)) <= n
  }

  ghost predicate IsNodeClosure(input: Input, n: set<Descriptor>) {
    IsClosed(input, n) && forall m :: IsClosed(input, m) ==> n <= m
  }

  lemma NodeClosureIsUnique(input: Input, n: set<Descriptor>, m: set<Descriptor>)
    requires IsNodeClosure(input, n) && IsNodeClosure(input, m)
    ensures n == m
  {
  }

  /** A resource every closed set holds. */
  ghost predicate IsNeeded(input: Input, d: Descriptor) {
    forall m :: IsClosed(input, m) ==> d in m
  }

  // ---- The universe ----

  /** The references of an entry of a definition's `provision`. */
  function EntryRefs(e: ProvisionEntry): seq<ResourceRef> {
    var key := ParseRef(e.key);
    var found := Collected(OrNull(e.provision.params), InDefinition);
    (if key.Some? then [key.value] else []) + (if found.Ok? then Targets(found.value) else [])
  }

  function ProvisionRefs(entries: seq<ProvisionEntry>): seq<ResourceRef> {
    if entries == [] then [] else EntryRefs(entries[0]) + ProvisionRefs(entries[1..])
  }

  function DefinitionRefs(def: Definition): seq<ResourceRef> {
    (if FoundIn(def).Ok? then Targets(FoundIn(def).value) else []) + ProvisionRefs(def.provisions)
  }

  ghost function AllRefs(input: Input): set<ResourceRef> {
    set def, r | def in input.definitions && r in DefinitionRefs(def) :: r
  }

  ghost function Types(input: Input): set<string> {
    (set r | r in AllRefs(input) :: r.ty) + (set d | d in AskSet(RootActions(input)) :: d.ty)
  }

  ghost function Classes(input: Input): set<string> {
    {DEFAULT_CLASS}
    + (set r | r in AllRefs(input) && r.cls.Some? :: r.cls.value)
    + (set d | d in AskSet(RootActions(input)) :: d.cls)
  }

  ghost function ResIds(input: Input): set<string> {
    (set r | r in AllRefs(input) :: ReplaceAll(r.ty, "/", "-"))
    + (set r | r in AllRefs(input) && r.id.Some? :: r.id.value)
    + (set d | d in AskSet(RootActions(input)) :: d.id)
  }

  /** Every descriptor made of types, classes and IDs that the deployment mentions. */
  ghost function Universe(input: Input): set<Descriptor> {
    set t, c, i | t in Types(input) && c in Classes(input) && i in ResIds(input) :: Descriptor(t, c, i)
  }

  lemma InUniverse(input: Input, d: Descriptor)
    ensures d in Universe(input) <==> d.ty in Types(input) && d.cls in Classes(input) && d.id in ResIds(input)
  {
  }

  lemma RootsAreInUniverse(input: Input)
    ensures AskSet(RootActions(input)) <= Universe(input)
  {
    hide RootActions, AllRefs, Universe;
    forall d | d in AskSet(RootActions(input)) ensures d in Universe(input) {
      InUniverse(input, d);
    }
  }

  lemma ResolvedIsInUniverse(input: Input, r: ResourceRef, d: Descriptor)
    requires r in AllRefs(input) && d in Universe(input)
    ensures ResolveRef(input, r, d) in Universe(input)
  {
    hide RootActions, AllRefs, Universe, ReplaceAll;
    InUniverse(input, d);
    var to := ResolveRef(input, r, d);
    InUniverse(input, to);
    assert r.ty in Types(input);
    assert to.cls in Classes(input);
    assert to.id in ResIds(input);
  }

  /** Every resource an expansion asks for is one of the definition's references, resolved. */
  ghost predicate AsksFor(input: Input, d: Descriptor, refs: seq<ResourceRef>, actions: seq<Action>) {
    forall i :: 0 <= i < |actions| && actions[i].Ask? ==>
      exists r :: r in refs && actions[i].d == ResolveRef(input, r, d)
  }

  lemma AsksJoin(input: Input, d: Descriptor, refs: seq<ResourceRef>, more: seq<ResourceRef>, a: seq<Action>,
      b: seq<Action>)
    requires AsksFor(input, d, refs, a) && AsksFor(input, d, more, b)
    ensures AsksFor(input, d, refs + more, a + b)
  {
    hide ResolveRef;
    forall i | 0 <= i < |a + b| && (a + b)[i].Ask?
      ensures exists r :: r in refs + more && (a + b)[i].d == ResolveRef(input, r, d)
    {
      if i < |a| {
        assert (a + b)[i] == a[i];
        var r :| r in refs && a[i].d == ResolveRef(input, r, d);
        assert r in refs + more;
      } else {
        assert (a + b)[i] == b[i - |a|];
        var r :| r in more && b[i - |a|].d == ResolveRef(input, r, d);
        assert r in refs + more;
      }
    }
  }

  lemma {:induction false} RefAsks(input: Input, d: Descriptor, origin: Origin, refs: seq<ResourceRef>)
    ensures AsksFor(input, d, refs, RefActions(input, d, origin, refs))
  {
    hide ResolveRef;
    if refs != [] {
      RefAsks(input, d, origin, refs[1..]);
      var to := ResolveRef(input, refs[0], d);
      var first := [Ask(to, origin, None), Link(d, to)];
      assert AsksFor(input, d, [refs[0]], first) by { assert refs[0] in [refs[0]]; }
      AsksJoin(input, d, [refs[0]], refs[1..], first, RefActions(input, d, origin, refs[1..]));
      assert refs == [refs[0]] + refs[1..];
    }
  }

  lemma {:induction false} ParamAsks(input: Input, d: Descriptor, co: Descriptor, origin: Origin,
      refs: seq<ResourceRef>)
    ensures AsksFor(input, d, refs, ParamActions(input, d, co, origin, refs))
  {
    hide ResolveRef;
    if refs != [] {
      ParamAsks(input, d, co, origin, refs[1..]);
      var to := ResolveRef(input, refs[0], d);
      var first := [Ask(to, origin, None)] + (if to != co then [Link(co, to)] else []);
      assert AsksFor(input, d, [refs[0]], first) by { assert refs[0] in [refs[0]]; }
      AsksJoin(input, d, [refs[0]], refs[1..], first, ParamActions(input, d, co, origin, refs[1..]));
      assert refs == [refs[0]] + refs[1..];
    }
  }

  lemma NoAsks(input: Input, d: Descriptor, refs: seq<ResourceRef>, actions: seq<Action>)
    requires forall i :: 0 <= i < |actions| ==> !actions[i].Ask?
    ensures AsksFor(input, d, refs, actions)
  {
  }

  /** The head of a provision entry: the co-provisioned resource and its edge. */
  lemma HeadAsks(input: Input, def: Definition, d: Descriptor, e: ProvisionEntry, target: ResourceRef)
    ensures var co := ResolveRef(input, target, d);
      AsksFor(input, d, [target],
        [Ask(co, FromProvision(def.id, e.key, d), Some(OrNull(e.provision.params))),
         if e.provision.isDependent then Link(d, co) else Link(co, d)])
  {
    hide ResolveRef;
    assert target in [target];
  }

  lemma EntryAsks(input: Input, def: Definition, d: Descriptor, e: ProvisionEntry)
    ensures AsksFor(input, d, EntryRefs(e), EntryActions(input, def, d, e))
  {
    hide ResolveRef, AsksFor, Collected, ParamActions, ParseRef;
    match ParseRef(e.key)
    case None => NoAsks(input, d, EntryRefs(e), EntryActions(input, def, d, e));
    case Some(target) =>
      var co, params := ResolveRef(input, target, d), OrNull(e.provision.params);
      var head :=
        [Ask(co, FromProvision(def.id, e.key, d), Some(params)),
         if e.provision.isDependent then Link(d, co) else Link(co, d)];
      HeadAsks(input, def, d, e, target);
      match Collected(params, InDefinition)
      case Err(k) =>
        NoAsks(input, d, [], [Fail(BadPlaceholder(def.id, k))]);
        AsksJoin(input, d, [target], [], head, [Fail(BadPlaceholder(def.id, k))]);
      case Ok(exprs) =>
        var origin := FromParams(def.id, e.key, d);
        var asked := ParamActions(input, d, co, origin, Targets(exprs));
        var done := [AddCo(CoProvision(d, co, e.provision.matchDependents))];
        ParamAsks(input, d, co, origin, Targets(exprs));
        NoAsks(input, d, [], done);
        AsksJoin(input, d, Targets(exprs), [], asked, done);
        assert Targets(exprs) + [] == Targets(exprs);
        AsksJoin(input, d, [target], Targets(exprs), head, asked + done);
  }

  lemma {:induction false} ProvisionAsks(input: Input, def: Definition, d: Descriptor, entries: seq<ProvisionEntry>)
    ensures AsksFor(input, d, ProvisionRefs(entries), ProvisionActions(input, def, d, entries))
  {
    hide AsksFor, EntryActions, EntryRefs;
    if entries == [] {
      NoAsks(input, d, [], []);
    } else {
      EntryAsks(input, def, d, entries[0]);
      ProvisionAsks(input, def, d, entries[1..]);
      AsksJoin(input, d, EntryRefs(entries[0]), ProvisionRefs(entries[1..]),
        EntryActions(input, def, d, entries[0]), ProvisionActions(input, def, d, entries[1..]));
    }
  }

  lemma ExpandAsks(input: Input, def: Definition, d: Descriptor)
    ensures AsksFor(input, d, DefinitionRefs(def), ExpandActions(input, def, d))
  {
    hide AsksFor, FoundIn, RefActions, ProvisionActions, ProvisionRefs;
    match FoundIn(def)
    case Err(k) => NoAsks(input, d, DefinitionRefs(def), ExpandActions(input, def, d));
    case Ok(exprs) =>
      var origin := FromReference(def.id, d);
      RefAsks(input, d, origin, Targets(exprs));
      ProvisionAsks(input, def, d, def.provisions);
      AsksJoin(input, d, Targets(exprs), ProvisionRefs(def.provisions),
        RefActions(input, d, origin, Targets(exprs)), ProvisionActions(input, def, d, def.provisions));
  }

  /** Expanding a resource of the universe stays inside it. */
  lemma ExpansionStaysInUniverse(input: Input, d: Descriptor)
    requires d in Universe(input)
    ensures AskSet(ActionsOf(input, d)) <= Universe(input)
  {
    hide Universe, ExpandActions, DefinitionRefs, ResolveRef;
    if DefinitionOf(input, d).Some? {
      var def := DefinitionOf(input, d).value;
      var actions := ExpandActions(input, def, d);
      ExpandAsks(input, def, d);
      forall i | 0 <= i < |actions| && actions[i].Ask? ensures actions[i].d in Universe(input) {
        var r :| r in DefinitionRefs(def) && actions[i].d == ResolveRef(input, r, d);
        assert r in AllRefs(input);
        ResolvedIsInUniverse(input, r, d);
      }
    }
  }

  /** The universe is closed, so the resources a deployment needs are finitely many. */
  lemma UniverseIsClosed(input: Input)
    ensures IsClosed(input, Universe(input))
  {
    hide Universe, RootActions, ActionsOf;
    RootsAreInUniverse(input);
    forall d | d in Universe(input) ensures AskSet(ActionsOf(input, d)) <= Universe(input) {
      ExpansionStaysInUniverse(input, d);
    }
  }

  // ---- Edges join resources that were asked for ----

  /** Edges and co-provisioning are between resources known when they are added, up to a failure. */
  ghost predicate Ready(actions: seq<Action>, known: set<Descriptor>) {
    if actions == [] then true
    else
      match actions[0]
      case Ask(d, _, _) => Ready(actions[1..], known + {d})
      case Link(from, to) => from in known && to in known && Ready(actions[1..], known)
      case AddCo(c) => c.co in known && Ready(actions[1..], known)
      case Fail(_) => true
  }

  lemma AskSetStep(actions: seq<Action>)
    requires actions != []
    ensures AskSet(actions) == (if actions[0].Ask? then {actions[0].d} else {}) + AskSet(actions[1..])
    ensures NoFail(actions) <==> !actions[0].Fail? && NoFail(actions[1..])
  {
    SetsJoin([actions[0]], actions[1..]);
    assert actions == [actions[0]] + actions[1..];
    var one := [actions[0]];
    assert one[0] == actions[0];
    assert AskSet(one) == if actions[0].Ask? then {actions[0].d} else {};
    assert NoFail(one) <==> !one[0].Fail?;
  }

  lemma {:induction false} ReadyJoins(a: seq<Action>, b: seq<Action>, known: set<Descriptor>)
    requires Ready(a, known) && (NoFail(a) ==> Ready(b, known + AskSet(a)))
    ensures Ready(a + b, known)
    decreases |a|
  {
    hide AskSet, NoFail;
    if a == [] {
      assert a + b == b;
      EmptySets(known);
    } else {
      assert (a + b)[0] == a[0] && (a + b)[1..] == a[1..] + b;
      AskSetStep(a);
      match a[0]
      case Ask(d, _, _) =>
        assert known + AskSet(a) == known + {d} + AskSet(a[1..]);
        ReadyJoins(a[1..], b, known + {d});
      case Fail(_) =>
      case _ =>
        assert {} + AskSet(a[1..]) == AskSet(a[1..]);
        ReadyJoins(a[1..], b, known);
    }
  }

  lemma EmptySets(known: set<Descriptor>)
    ensures AskSet([]) == {} && LinkSet([]) == {} && CoSet([]) == {} && NoFail([])
    ensures known + AskSet([]) == known
  {
  }

  lemma {:induction false} RefsAreReady(input: Input, d: Descriptor, origin: Origin, refs: seq<ResourceRef>,
      known: set<Descriptor>)
    requires d in known
    ensures Ready(RefActions(input, d, origin, refs), known)
    decreases |refs|
  {
    hide ResolveRef;
    if refs != [] {
      var to := ResolveRef(input, refs[0], d);
      var all := RefActions(input, d, origin, refs);
      RefsAreReady(input, d, origin, refs[1..], known + {to});
      assert all[0] == Ask(to, origin, None) && all[1..][0] == Link(d, to);
      assert all[1..][1..] == RefActions(input, d, origin, refs[1..]);
    }
  }

  lemma {:induction false} ParamsAreReady(input: Input, d: Descriptor, co: Descriptor, origin: Origin,
      refs: seq<ResourceRef>, known: set<Descriptor>)
    requires co in known
    ensures Ready(ParamActions(input, d, co, origin, refs), known)
    decreases |refs|
  {
    hide ResolveRef;
    if refs != [] {
      var to := ResolveRef(input, refs[0], d);
      var all := ParamActions(input, d, co, origin, refs);
      var rest := ParamActions(input, d, co, origin, refs[1..]);
      ParamsAreReady(input, d, co, origin, refs[1..], known + {to});
      assert all[0] == Ask(to, origin, None);
      if to != co {
        assert all[1..][0] == Link(co, to) && all[1..][1..] == rest;
      } else {
        assert all[1..] == rest;
      }
    }
  }

  lemma EntryIsReady(input: Input, def: Definition, d: Descriptor, e: ProvisionEntry, known: set<Descriptor>)
    requires d in known
    ensures Ready(EntryActions(input, def, d, e), known)
  {
    hide ResolveRef, Collected, ParseRef, ParamActions;
    if ParseRef(e.key).Some? {
      var co, params := ResolveRef(input, ParseRef(e.key).value, d), OrNull(e.provision.params);
      var ask := Ask(co, FromProvision(def.id, e.key, d), Some(params));
      var link := if e.provision.isDependent then Link(d, co) else Link(co, d);
      var more := known + {co};
      match Collected(params, InDefinition)
      case Err(k) =>
        HeadIsReady(ask, link, [Fail(BadPlaceholder(def.id, k))], known);
      case Ok(exprs) =>
        var origin := FromParams(def.id, e.key, d);
        var asked := ParamActions(input, d, co, origin, Targets(exprs));
        var done := [AddCo(CoProvision(d, co, e.provision.matchDependents))];
        ParamsAreReady(input, d, co, origin, Targets(exprs), more);
        OneCoIsReady(done[0], more + AskSet(asked));
        ReadyJoins(asked, done, more);
        HeadIsReady(ask, link, asked + done, known);
    }
  }

  lemma {:induction false} ProvisionsAreReady(input: Input, def: Definition, d: Descriptor,
      entries: seq<ProvisionEntry>, known: set<Descriptor>)
    requires d in known
    ensures Ready(ProvisionActions(input, def, d, entries), known)
    decreases |entries|
  {
    hide EntryActions, AskSet;
    if entries != [] {
      var first := EntryActions(input, def, d, entries[0]);
      EntryIsReady(input, def, d, entries[0], known);
      ProvisionsAreReady(input, def, d, entries[1..], known + AskSet(first));
      ReadyJoins(first, ProvisionActions(input, def, d, entries[1..]), known);
    }
  }

  lemma HeadIsReady(ask: Action, link: Action, rest: seq<Action>, known: set<Descriptor>)
    requires ask.Ask? && link.Link? && link.from in known + {ask.d} && link.to in known + {ask.d}
    requires Ready(rest, known + {ask.d})
    ensures Ready([ask, link] + rest, known)
  {
    var all := [ask, link] + rest;
    assert all[0] == ask && all[1..][0] == link && all[1..][1..] == rest;
  }

  lemma OneCoIsReady(a: Action, known: set<Descriptor>)
    requires a.AddCo? && a.co.co in known
    ensures Ready([a], known)
  {
    assert [a][1..] == [];
  }

  lemma ExpansionIsReady(input: Input, d: Descriptor, known: set<Descriptor>)
    requires d in known
    ensures Ready(ActionsOf(input, d), known)
  {
    hide RefActions, ProvisionActions, FoundIn, DefinitionOf;
    if DefinitionOf(input, d).Some? {
      var def := DefinitionOf(input, d).value;
      match FoundIn(def)
      case Err(k) =>
      case Ok(exprs) =>
        var refs := RefActions(input, d, FromReference(def.id, d), Targets(exprs));
        RefsAreReady(input, d, FromReference(def.id, d), Targets(exprs), known);
        ProvisionsAreReady(input, def, d, def.provisions, known + AskSet(refs));
        ReadyJoins(refs, ProvisionActions(input, def, d, def.provisions), known);
    }
  }

  lemma {:induction false} ExternalsAreReady(m: Module, externals: seq<External>, known: set<Descriptor>)
    requires WorkloadOf(m) in known
    ensures Ready(ExternalActions(m, externals), known)
    decreases |externals|
  {
    if externals != [] && IsResId(ExternalId(m, externals[0])) {
      var e := externals[0];
      var d := ExternalOf(m, e);
      ExternalsAreReady(m, externals[1..], known + {d});
      HeadIsReady(Ask(d, FromExternal(m.id, e.key), Some(OrNull(e.params))), Link(WorkloadOf(m), d),
        ExternalActions(m, externals[1..]), known);
    }
  }

  lemma {:induction false} ModulesAreReady(modules: seq<Module>, known: set<Descriptor>)
    ensures Ready(ModuleActions(modules), known)
    ensures forall m :: m in modules ==> WorkloadOf(m) in AskSet(ModuleActions(modules))
    decreases |modules|
  {
    hide ExternalActions;
    if modules != [] {
      var m := modules[0];
      var w := Ask(WorkloadOf(m), FromModule(m.id), Some(WorkloadParams(m)));
      var externals, rest := ExternalActions(m, m.externals), ModuleActions(modules[1..]);
      var more := known + {w.d};
      ExternalsAreReady(m, m.externals, more);
      ModulesAreReady(modules[1..], more + AskSet(externals));
      ReadyJoins(externals, rest, more);
      assert [w] + externals + rest == [w] + (externals + rest);
      assert ([w] + (externals + rest))[1..] == externals + rest;
      SetsJoin([w], externals + rest);
      SetsJoin(externals, rest);
      assert [w][0] == w;
    }
  }

  lemma {:induction false} SharedAreReady(shared: seq<SharedResource>, known: set<Descriptor>)
    ensures Ready(SharedActions(shared), known)
    ensures NoFail(SharedActions(shared)) ==> forall s :: s in shared ==> SharedOf(s) in AskSet(SharedActions(shared))
    decreases |shared|
  {
    hide AskSet, NoFail;
    if shared != [] {
      var all := SharedActions(shared);
      AskSetStep(all);
      if IsResId(SharedOf(shared[0]).id) {
        SharedAreReady(shared[1..], known + {SharedOf(shared[0])});
        assert all[1..] == SharedActions(shared[1..]);
      }
    }
  }

  lemma {:induction false} ReadsAreReady(w: Descriptor, exprs: seq<Expr>, shared: seq<SharedResource>,
      known: set<Descriptor>)
    requires w in known && forall s :: s in shared ==> SharedOf(s) in known
    ensures Ready(ReadActions(w, exprs, shared), known)
    decreases |exprs|
  {
    if exprs != [] {
      ReadsAreReady(w, exprs[1..], shared, known);
      var rest := ReadActions(w, exprs[1..], shared);
      if exprs[0].Shared? {
        var found := FindShared(shared, exprs[0].shared);
        if found.Some? {
          assert ([Link(w, SharedOf(found.value))] + rest)[1..] == rest;
        }
      }
    }
  }

  lemma {:induction false} SpecsAreReady(modules: seq<Module>, shared: seq<SharedResource>, known: set<Descriptor>)
    requires forall m :: m in modules ==> WorkloadOf(m) in known
    requires forall s :: s in shared ==> SharedOf(s) in known
    ensures Ready(SpecActions(modules, shared), known)
    decreases |modules|
  {
    hide Collected, ReadActions;
    if modules != [] {
      var m := modules[0];
      var found := Collected(Obj(m.spec), InSet);
      var first := if found.Ok? then ReadActions(WorkloadOf(m), found.value, shared) else [];
      if found.Ok? {
        ReadsAreReady(WorkloadOf(m), found.value, shared, known);
      }
      SpecsAreReady(modules[1..], shared, known + AskSet(first));
      ReadyJoins(first, SpecActions(modules[1..], shared), known);
    }
  }

  lemma RootsAreReady(input: Input)
    ensures Ready(RootActions(input), {})
  {
    hide ModuleActions, SharedActions, SpecActions, AskSet, NoFail, Ready;
    var base := [Ask(BASE_ENV, BaseEnv, None)];
    var modules, shared := ModuleActions(input.modules), SharedActions(input.shared);
    var specs := SpecActions(input.modules, input.shared);
    var k1 := AskSet(base);
    var k2 := k1 + AskSet(modules);
    var k3 := k2 + AskSet(shared);
    BaseIsReady();
    ModulesAreReady(input.modules, {} + k1);
    ReadyJoins(base, modules, {});
    SetsJoin(base, modules);
    SharedAreReady(input.shared, {} + AskSet(base + modules));
    ReadyJoins(base + modules, shared, {});
    SetsJoin(base + modules, shared);
    if NoFail(shared) {
      SpecsAreReady(input.modules, input.shared, {} + AskSet(base + modules + shared));
    }
    ReadyJoins(base + modules + shared, specs, {});
  }

  lemma BaseIsReady()
    ensures Ready([Ask(BASE_ENV, BaseEnv, None)], {})
  {
    assert [Ask(BASE_ENV, BaseEnv, None)][1..] == [];
  }
}
