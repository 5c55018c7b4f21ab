/**
 The resources that placeholders read are dependencies of the resource that
 reads them: `resolve_ref` and `expand` in `crates/core/src/graph.rs` against
 `scope_for` in `crates/engine/src/planner.rs`.
 */
module References {
  import opened Basics
  import opened Catalog
  import opened Collect
  import opened Coprovision
  import opened Criteria
  import opened Ids
  import opened Json
  import opened Placeholder
  import opened Topology
  import opened GraphSpec
  import opened GraphClosure
  import opened GraphState
  import opened GraphFaults
  import opened Graph
  import opened GraphMeaning
  import Canonical
  import Scheduler
  import Text

  // ---- The same name on both sides ----

  /** The scope a resource is provisioned in. */
  ghost predicate IsScopeOf(scope: Scope, d: Descriptor) {
    scope.referrer == Some(d)
  }

  /** The run treats the type as the graph did. */
  ghost predicate SameUse(input: Input, implicitTypes: set<string>, ty: string) {
    ty in implicitTypes <==> IsImplicit(input.types, ty)
  }

  /** A reference that means the same whether or not its type is implicit. */
  predicate IsFixed(target: ResourceRef, referrer: Descriptor) {
    && (target.cls.Some? || referrer.cls == DEFAULT_CLASS)
    && (target.id.Some? || referrer.id == Text.ReplaceAll(target.ty, "/", "-"))
  }

  /** A reference that takes the same class and ID from either resource. */
  predicate InheritsAlike(target: ResourceRef, a: Descriptor, b: Descriptor) {
    (target.cls.Some? || a.cls == b.cls) && (target.id.Some? || a.id == b.id)
  }

  /** The graph reads a reference in `d`'s definition as the run reads it for `co`. */
  predicate IsNamedAlike(input: Input, implicitTypes: set<string>, target: ResourceRef, d: Descriptor, co: Descriptor) {
    match (IsImplicit(input.types, target.ty), target.ty in implicitTypes)
    case (true, true) => true
    case (false, false) => InheritsAlike(target, d, co)
    case (true, false) => IsFixed(target, co)
    case (false, true) => IsFixed(target, d)
  }

  /**
   The graph names a reference from `d`, whose definition holds it; the run names
   it from `co`, which is provisioned with it. They name the same resource in
   just these cases.
   */
  lemma NamedAlikeIff(input: Input, scope: Scope, target: ResourceRef, d: Descriptor, co: Descriptor)
    requires IsScopeOf(scope, co)
    ensures scope.DescriptorFor(target) == Some(ResolveRef(input, target, d)) <==>
      IsNamedAlike(input, scope.implicitTypes, target, d, co)
  {
    hide IsImplicit, Text.ReplaceAll;
  }

  /** In driver inputs, where `d` and `co` are the same, only the type's use can make a difference. */
  lemma NamesAlikeIff(input: Input, scope: Scope, target: ResourceRef, d: Descriptor)
    requires IsScopeOf(scope, d)
    ensures scope.DescriptorFor(target) == Some(ResolveRef(input, target, d)) <==>
      SameUse(input, scope.implicitTypes, target.ty) || IsFixed(target, d)
  {
    hide IsImplicit, Text.ReplaceAll;
    NamedAlikeIff(input, scope, target, d, d);
  }

  /** In co-provisioning params, with the same use on both sides, what is inherited decides. */
  lemma ParamNamesAlikeIff(input: Input, scope: Scope, target: ResourceRef, d: Descriptor, co: Descriptor)
    requires IsScopeOf(scope, co) && SameUse(input, scope.implicitTypes, target.ty)
    ensures scope.DescriptorFor(target) == Some(ResolveRef(input, target, d)) <==>
      IsImplicit(input.types, target.ty) || InheritsAlike(target, d, co)
  {
    hide IsImplicit, Text.ReplaceAll;
    NamedAlikeIff(input, scope, target, d, co);
  }

  // ---- References are dependencies ----

  /** A placeholder in a definition's driver inputs or account means `e`. */
  ghost predicate InputMentions(def: Definition, e: Expr) {
    || IsMentioned(def.values, InDefinition, e)
    || IsMentioned(def.secrets, InDefinition, e)
    || (def.driverAccount.Some? && IsMentioned(Str(def.driverAccount.value), InDriverAccount, e))
  }

  lemma FoundIffMentioned(def: Definition, e: Expr)
    requires FoundIn(def).Ok?
    ensures e in FoundIn(def).value <==> InputMentions(def, e)
  {
    hide Collected, IsMentioned;
    CollectedIffMentioned(def.values, InDefinition, e);
    CollectedIffMentioned(def.secrets, InDefinition, e);
    if def.driverAccount.Some? {
      CollectedIffMentioned(Str(def.driverAccount.value), InDriverAccount, e);
    }
  }

  lemma {:induction false} TargetIsListed(exprs: seq<Expr>, e: Expr)
    requires e in exprs && e.Resource?
    ensures e.target in Targets(exprs)
  {
    if exprs[0] != e {
      TargetIsListed(exprs[1..], e);
    }
  }

  lemma LinkIsDependency(input: Input, g: ResourceGraph, x: Descriptor, y: Descriptor)
    requires Faultless(input) && IsGraphOf(input, g) && x in g.nodes
    requires RootLinks(input, x, y) || exists d :: d in g.nodes && NodeLinks(input, d, x, y)
    ensures y in g.deps[x]
  {
    EdgeMeans(input, g, x, y);
    hide IsNodeClosure, IsLayering, IsNodeOf, MatchClosed, CosOf, RootLinks, NodeLinks, Faultless, BaseDeps;
    assert Extends(BaseDeps(input, g.deps.Keys), g.deps);
  }

  /** The graph has an edge for every resource a placeholder names. */
  lemma ReferenceIsDependency(input: Input, g: ResourceGraph, d: Descriptor, def: Definition, e: Expr)
    requires Faultless(input) && IsGraphOf(input, g) && d in g.nodes && DefinitionOf(input, d) == Some(def)
    requires InputMentions(def, e) && e.Resource?
    ensures ResolveRef(input, e.target, d) in g.deps[d]
  {
    hide IsGraphOf, Faultless, FoundIn, DefinitionOf, ResolveRef, InputMentions, ActionsOf, RootLinks, EntryLinks;
    var to := ResolveRef(input, e.target, d);
    FaultlessRuns(input, g);
    ExpansionParses(input, d, def);
    FoundIffMentioned(def, e);
    TargetIsListed(FoundIn(def).value, e);
    assert GraphMeaning.Names(input, d, InputRefs(def), to);
    assert NodeLinks(input, d, d, to);
    LinkIsDependency(input, g, d, to);
  }

  /** With the same implicit types on both sides, what a placeholder reads at run time is a dependency. */
  lemma RunTimeReferenceIsDependency(input: Input, g: ResourceGraph, d: Descriptor, def: Definition, scope: Scope,
      e: Expr)
    requires Faultless(input) && IsGraphOf(input, g) && d in g.nodes && DefinitionOf(input, d) == Some(def)
    requires InputMentions(def, e) && e.Resource?
    requires IsScopeOf(scope, d) && SameUse(input, scope.implicitTypes, e.target.ty)
    ensures scope.DescriptorFor(e.target).Some? && scope.DescriptorFor(e.target).value in g.deps[d]
  {
    hide IsGraphOf, Faultless, DefinitionOf, InputMentions;
    ReferenceIsDependency(input, g, d, def, e);
    NamesAlikeIff(input, scope, e.target, d);
  }

  /** When a resource starts, the outputs its driver inputs read are in its scope. */
  lemma StartedHasItsReferences(input: Input, g: ResourceGraph, p: Scheduler.Plan, s: Scheduler.State, d: Descriptor,
      def: Definition, scope: Scope, e: Expr)
    requires Faultless(input) && IsGraphOf(input, g) && d in g.nodes && DefinitionOf(input, d) == Some(def)
    requires InputMentions(def, e) && e.Resource?
    requires p.deps == g.deps && Scheduler.Inv(p, s) && d in s.starts
    requires IsScopeOf(scope, d) && SameUse(input, scope.implicitTypes, e.target.ty)
    requires scope.resources == s.starts[d].seen
    ensures scope.DescriptorFor(e.target).Some? && scope.DescriptorFor(e.target).value in scope.resources
  {
    hide IsGraphOf, Faultless, InputMentions, DefinitionOf, Scheduler.Balanced, Scheduler.IsSafe, Scheduler.Records;
    RunTimeReferenceIsDependency(input, g, d, def, scope, e);
    assert Scheduler.SawDependencies(p, s, d);
  }

  // ---- References in co-provisioning params ----

  /** `d`'s definition co-provisions `co` with an entry. */
  ghost predicate Provisions(input: Input, d: Descriptor, def: Definition, entry: ProvisionEntry, co: Descriptor) {
    DefinitionOf(input, d) == Some(def) && entry in def.provisions && CoOf(input, d, entry) == Some(co)
  }

  lemma {:induction false} EntryIsCalledFor(input: Input, def: Definition, d: Descriptor, entries: seq<ProvisionEntry>,
      entry: ProvisionEntry)
    requires entry in entries && CoOf(input, d, entry).Some?
    ensures Ask(CoOf(input, d, entry).value, FromProvision(def.id, entry.key, d), Some(OrNull(entry.provision.params)))
      in ProvisionActions(input, def, d, entries)
    ensures NoFail(ProvisionActions(input, def, d, entries)) ==> NoFail(EntryActions(input, def, d, entry))
  {
    hide ResolveRef, ParseRef, AskSet, LinkSet, CoSet, NoFail;
    var first, rest := EntryActions(input, def, d, entries[0]), ProvisionActions(input, def, d, entries[1..]);
    SetsJoin(first, rest);
    if entries[0] == entry {
      EntryAsks(input, def, d, entry);
    } else {
      EntryIsCalledFor(input, def, d, entries[1..], entry);
    }
  }

  lemma EntryAsks(input: Input, def: Definition, d: Descriptor, entry: ProvisionEntry)
    requires CoOf(input, d, entry).Some?
    ensures Ask(CoOf(input, d, entry).value, FromProvision(def.id, entry.key, d), Some(OrNull(entry.provision.params)))
      in EntryActions(input, def, d, entry)
  {
    hide ResolveRef, ParseRef, ParamActions, Collected;
    var all := EntryActions(input, def, d, entry);
    assert all[0].Ask?;
  }

  /** The entry is called for, and its params parse. */
  lemma EntryRuns(input: Input, g: ResourceGraph, d: Descriptor, def: Definition, entry: ProvisionEntry, co: Descriptor)
    requires Faultless(input) && IsGraphOf(input, g) && d in g.nodes && Provisions(input, d, def, entry, co)
    ensures Ask(co, FromProvision(def.id, entry.key, d), Some(OrNull(entry.provision.params))) in ActionsOf(input, d)
    ensures Collected(OrNull(entry.provision.params), InDefinition).Ok?
  {
    hide IsGraphOf, Faultless, DefinitionOf, FoundIn, RefActions, ProvisionActions, EntryActions, CoOf, Collected,
      NoFail;
    FaultlessRuns(input, g);
    ExpansionParses(input, d, def);
    SetsJoin(RefActions(input, d, FromReference(def.id, d), Targets(FoundIn(def).value)),
      ProvisionActions(input, def, d, def.provisions));
    EntryIsCalledFor(input, def, d, def.provisions, entry);
    EntryParses(input, def, d, entry);
  }

  lemma AskedIsNode(input: Input, g: ResourceGraph, d: Descriptor, a: Action)
    requires IsGraphOf(input, g) && d in g.nodes && a.Ask? && a in ActionsOf(input, d)
    ensures a.d in g.nodes
  {
    hide RootActions, ActionsOf, IsNodeOf, IsLayering, IsMatchClosure;
    var i :| 0 <= i < |ActionsOf(input, d)| && ActionsOf(input, d)[i] == a;
    assert a.d in AskSet(ActionsOf(input, d));
  }

  /** The graph has an edge for every resource that an entry's params name, except the co-provisioned one itself. */
  lemma ParamReferenceIsDependency(input: Input, g: ResourceGraph, d: Descriptor, def: Definition,
      entry: ProvisionEntry, co: Descriptor, e: Expr)
    requires Faultless(input) && IsGraphOf(input, g) && d in g.nodes && Provisions(input, d, def, entry, co)
    requires IsMentioned(OrNull(entry.provision.params), InDefinition, e) && e.Resource?
    ensures co in g.nodes
    ensures ResolveRef(input, e.target, d) == co || ResolveRef(input, e.target, d) in g.deps[co]
  {
    hide IsGraphOf, Faultless, DefinitionOf, ResolveRef, ActionsOf, RootLinks, Collected, IsMentioned, ParseRef;
    var params := OrNull(entry.provision.params);
    EntryRuns(input, g, d, def, entry, co);
    AskedIsNode(input, g, d, Ask(co, FromProvision(def.id, entry.key, d), Some(params)));
    CollectedIffMentioned(params, InDefinition, e);
    TargetIsListed(Collected(params, InDefinition).value, e);
    var to := ResolveRef(input, e.target, d);
    assert GraphMeaning.Names(input, d, ParamRefs(entry), to);
    if to != co {
      assert EntryLinks(input, d, entry, co, to);
      assert NodeLinks(input, d, co, to);
      LinkIsDependency(input, g, co, to);
    }
  }

  // ---- The params a node carries ----

  /** Equivalent documents hold the same placeholders. */
  lemma {:induction false} EquivalentMentions(a: Value, b: Value, dialect: Dialect, e: Expr)
    requires Canonical.Valid(a) && Canonical.Valid(b) && Canonical.Equivalent(a, b)
    ensures IsMentioned(a, dialect, e) <==> IsMentioned(b, dialect, e)
    decreases a, 1
  {
    match (a, b)
    case (Arr(x), Arr(y)) =>
      forall i | 0 <= i < |x| ensures IsMentioned(x[i], dialect, e) <==> IsMentioned(y[i], dialect, e) {
        EquivalentMentions(x[i], y[i], dialect, e);
      }
    case (Obj(x), Obj(y)) => EquivalentObjects(x, y, dialect, e);
    case _ =>
  }

  lemma {:induction false} EquivalentObjects(x: seq<Field>, y: seq<Field>, dialect: Dialect, e: Expr)
    requires Canonical.Valid(Obj(x)) && Canonical.Valid(Obj(y)) && Canonical.Equivalent(Obj(x), Obj(y))
    ensures IsMentioned(Obj(x), dialect, e) <==> IsMentioned(Obj(y), dialect, e)
    decreases Obj(x), 0
  {
    FieldsMention(x, dialect, e);
    FieldsMention(y, dialect, e);
    hide IsMentioned, Canonical.Equivalent, Canonical.Valid;
    if f :| f in x && IsMentioned(f.value, dialect, e) {
      var h := PartnerIn(x, y, f);
      EquivalentMentions(f.value, h.value, dialect, e);
    }
    if h :| h in y && IsMentioned(h.value, dialect, e) {
      var f := PartnerFor(x, y, h);
      EquivalentMentions(f.value, h.value, dialect, e);
    }
  }

  lemma PartnerIn(x: seq<Field>, y: seq<Field>, f: Field) returns (h: Field)
    requires Canonical.Valid(Obj(x)) && Canonical.Valid(Obj(y)) && Canonical.Equivalent(Obj(x), Obj(y)) && f in x
    ensures h in y && Canonical.Valid(f.value) && Canonical.Valid(h.value) && Canonical.Equivalent(f.value, h.value)
  {
    hide Canonical.Equivalent, Canonical.Valid, Canonical.Covers;
    ObjectsCover(x, y);
    MembersAreValid(x);
    MembersAreValid(y);
    h :| h in y && Canonical.SameField(f, h);
  }

  lemma PartnerFor(x: seq<Field>, y: seq<Field>, h: Field) returns (f: Field)
    requires Canonical.Valid(Obj(x)) && Canonical.Valid(Obj(y)) && Canonical.Equivalent(Obj(x), Obj(y)) && h in y
    ensures f in x && Canonical.Valid(f.value) && Canonical.Valid(h.value) && Canonical.Equivalent(f.value, h.value)
  {
    hide Canonical.Equivalent, Canonical.Valid, Canonical.Covered;
    ObjectsCover(x, y);
    MembersAreValid(x);
    MembersAreValid(y);
    f :| f in x && Canonical.SameField(f, h);
  }

  lemma ObjectsCover(x: seq<Field>, y: seq<Field>)
    requires Canonical.Valid(Obj(x)) && Canonical.Valid(Obj(y)) && Canonical.Equivalent(Obj(x), Obj(y))
    ensures Canonical.Covered(x, y) && Canonical.Covers(x, y)
  {
    hide Canonical.Covered, Canonical.Covers;
  }

  lemma MembersAreValid(x: seq<Field>)
    requires Canonical.Valid(Obj(x))
    ensures forall f :: f in x ==> Canonical.Valid(f.value)
  {
  }

  lemma FieldsMention(fields: seq<Field>, dialect: Dialect, e: Expr)
    ensures IsMentioned(Obj(fields), dialect, e) <==> exists f :: f in fields && IsMentioned(f.value, dialect, e)
  {
  }

  /** All requests with params agree on what a node's params mention. */
  lemma NodeMentions(input: Input, g: ResourceGraph, a: Action, dialect: Dialect, e: Expr)
    requires IsGraphOf(input, g) && IsCalledFor(input, a) && a.Ask? && a.params.Some? && a.d in g.nodes
    ensures IsMentioned(OrNull(g.nodes[a.d].params), dialect, e) <==> IsMentioned(a.params.value, dialect, e)
  {
    hide IsDepsOf, IsLayering, Closed, NodeMatches, IsRequest, IsCalledFor, IsMentioned, Canonical.Equivalent;
    var n, params := g.nodes[a.d], a.params.value;
    var c := Canonical.ToCanonicalString(params);
    assert IsNodeOf(input, a.d, n);
    assert AsksWith(a, a.d, c) && IsWantedWith(input, a.d, c);
    Canonical.SameTextIffEquivalent(OrNull(n.params), params);
    EquivalentMentions(OrNull(n.params), params, dialect, e);
  }

  /** The params a co-provisioned node is provisioned with mention what its entry's params do. */
  lemma CoMentions(input: Input, g: ResourceGraph, d: Descriptor, def: Definition, entry: ProvisionEntry,
      co: Descriptor, e: Expr)
    requires Faultless(input) && IsGraphOf(input, g) && d in g.nodes && Provisions(input, d, def, entry, co)
    ensures co in g.nodes
    ensures IsMentioned(OrNull(g.nodes[co].params), InDefinition, e) <==>
      IsMentioned(OrNull(entry.provision.params), InDefinition, e)
  {
    hide Faultless, IsGraphOf, Provisions, IsMentioned, ActionsOf;
    var a := Ask(co, FromProvision(def.id, entry.key, d), Some(OrNull(entry.provision.params)));
    EntryRuns(input, g, d, def, entry, co);
    AskedIsNode(input, g, d, a);
    NodeIsNeeded(input, g, d);
    NeededCallsFor(input, d, a);
    NodeMentions(input, g, a, InDefinition, e);
  }

  lemma NeededCallsFor(input: Input, d: Descriptor, a: Action)
    requires IsNeeded(input, d) && a in ActionsOf(input, d)
    ensures IsCalledFor(input, a)
  {
    hide IsNeeded, ActionsOf;
  }

  /**
   What a co-provisioned resource's params read at run time is a dependency of
   it, or the resource itself, if the graph names it alike.
   */
  lemma RunTimeParamReference(input: Input, g: ResourceGraph, d: Descriptor, def: Definition, entry: ProvisionEntry,
      co: Descriptor, scope: Scope, e: Expr)
    requires Faultless(input) && IsGraphOf(input, g) && d in g.nodes && Provisions(input, d, def, entry, co)
    requires co in g.nodes && IsMentioned(OrNull(g.nodes[co].params), InDefinition, e) && e.Resource?
    requires IsScopeOf(scope, co) && IsNamedAlike(input, scope.implicitTypes, e.target, d, co)
    ensures var to := scope.DescriptorFor(e.target); to.Some? && (to.value == co || to.value in g.deps[co])
  {
    hide Faultless, IsGraphOf, Provisions, IsMentioned, IsNamedAlike, ResolveRef;
    CoMentions(input, g, d, def, entry, co, e);
    ParamReferenceIsDependency(input, g, d, def, entry, co, e);
    NamedAlikeIff(input, scope, e.target, d, co);
  }

  /**
   When a co-provisioned resource starts, the outputs its params read are in its
   scope, except its own, which no scope of it ever holds.
   */
  lemma StartedHasItsParamReferences(input: Input, g: ResourceGraph, p: Scheduler.Plan, s: Scheduler.State,
      d: Descriptor, def: Definition, entry: ProvisionEntry, co: Descriptor, scope: Scope, e: Expr)
    requires Faultless(input) && IsGraphOf(input, g) && d in g.nodes && Provisions(input, d, def, entry, co)
    requires co in g.nodes && IsMentioned(OrNull(g.nodes[co].params), InDefinition, e) && e.Resource?
    requires p.deps == g.deps && Scheduler.Inv(p, s) && co in s.starts && scope.resources == s.starts[co].seen
    requires IsScopeOf(scope, co) && IsNamedAlike(input, scope.implicitTypes, e.target, d, co)
    ensures var to := scope.DescriptorFor(e.target); to.Some? && (to.value in scope.resources <==> to.value != co)
  {
    hide Faultless, IsGraphOf, Provisions, IsMentioned, IsNamedAlike, Scheduler.Balanced, Scheduler.IsSafe,
      Scheduler.Records;
    RunTimeParamReference(input, g, d, def, entry, co, scope, e);
    assert Scheduler.SawDependencies(p, s, co);
  }
}
