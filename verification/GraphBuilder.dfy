/** Building a resource graph, step by step: `Builder` in `crates/core/src/graph.rs`. */
module GraphBuilder {
  import opened Basics
  import opened Catalog
  import opened Coprovision
  import opened Criteria
  import opened Ids
  import opened Json
  import opened GraphSpec
  import opened GraphState
  import opened GraphRun
  import Canonical
  import Collect
  import Placeholder
  import Topology

  /** A method's error and final state are the ones `r` gives. */
  ghost predicate Did(e: Option<GraphError>, r: Result<State, GraphError>, s: State) {
    if e.None? then r == Ok(s) else r == Err(e.value)
  }

  /** A node's definition is the one its expansion uses. */
  lemma ExpandsItsDefinition(input: Input, d: Descriptor, n: Node)
    requires NodeMatches(input, d, n)
    ensures FindDefinition(input.definitions, n.definition).Some?
    ensures ActionsOf(input, d) == ExpandActions(input, FindDefinition(input.definitions, n.definition).value, d)
  {
    hide Select, ExpandActions, FindType;
    SelectsUniqueHeaviest(input.definitions, ContextFor(input, d));
  }

  /** One placeholder at a time: a reference is a request and an edge, anything else nothing. */
  lemma RefsAt(input: Input, d: Descriptor, origin: Origin, exprs: seq<Placeholder.Expr>, i: nat)
    requires i < |exprs|
    ensures var left, rest := RefActions(input, d, origin, Targets(exprs[i..])),
      RefActions(input, d, origin, Targets(exprs[i + 1..]));
      if exprs[i].Resource? then
        var to := ResolveRef(input, exprs[i].target, d);
        |left| > 1 && left[0] == Ask(to, origin, None) && left[1..][0] == Link(d, to) && left[1..][1..] == rest
      else left == rest
  {
    hide ResolveRef;
    TargetsAt(exprs, i);
    if exprs[i].Resource? {
      var refs, to := Targets(exprs[i..]), ResolveRef(input, exprs[i].target, d);
      var rest := RefActions(input, d, origin, refs[1..]);
      assert RefActions(input, d, origin, refs) == [Ask(to, origin, None), Link(d, to)] + rest;
    }
  }

  lemma TargetsAt(exprs: seq<Placeholder.Expr>, i: nat)
    requires i < |exprs|
    ensures var refs, rest := Targets(exprs[i..]), Targets(exprs[i + 1..]);
      if exprs[i].Resource? then refs != [] && refs[0] == exprs[i].target && refs[1..] == rest else refs == rest
  {
    assert exprs[i..][0] == exprs[i] && exprs[i..][1..] == exprs[i + 1..];
    assert [] + Targets(exprs[i + 1..]) == Targets(exprs[i + 1..]);
  }

  lemma ParamsAt(input: Input, d: Descriptor, target: Descriptor, origin: Origin, exprs: seq<Placeholder.Expr>, i: nat)
    requires i < |exprs|
    ensures var left, rest := ParamActions(input, d, target, origin, Targets(exprs[i..])),
                              ParamActions(input, d, target, origin, Targets(exprs[i + 1..]));
      if exprs[i].Resource? then
        var to := ResolveRef(input, exprs[i].target, d);
        && left != [] && left[0] == Ask(to, origin, None)
        && (if to == target then left[1..] == rest
            else left[1..] != [] && left[1..][0] == Link(target, to) && left[1..][1..] == rest)
      else left == rest
  {
    hide ResolveRef;
    TargetsAt(exprs, i);
    if exprs[i].Resource? {
      var refs, to := Targets(exprs[i..]), ResolveRef(input, exprs[i].target, d);
      var rest := ParamActions(input, d, target, origin, refs[1..]);
      if to == target {
        assert ParamActions(input, d, target, origin, refs) == [Ask(to, origin, None)] + rest;
      } else {
        assert ParamActions(input, d, target, origin, refs) == [Ask(to, origin, None), Link(target, to)] + rest;
      }
    }
  }

  lemma NoRefsLeft(input: Input, d: Descriptor, target: Descriptor, origin: Origin)
    ensures Targets([]) == [] && RefActions(input, d, origin, []) == [] &&
      ParamActions(input, d, target, origin, []) == []
  {
  }

  class Builder {
    const input: Input
    var nodes: map<Descriptor, Node>
    var deps: Topology.Deps
    var explicit: map<Descriptor, Fixed>
    var queue: seq<Descriptor>
    var co: set<CoProvision>

    ghost function Value(): State
      reads this
    {
      State(nodes, deps, explicit, queue, co)
    }

    constructor (input: Input)
      ensures this.input == input && Value() == EMPTY
    {
      this.input := input;
      nodes, deps, explicit, queue, co := map[], map[], map[], [], {};
    }

    /** `request` */
    method Request(d: Descriptor, origin: Origin, params: Option<Canonical.Document>) returns (e: Option<GraphError>)
      modifies this
      ensures Did(e, RequestOn(input, old(Value()), d, origin, params), Value())
    {
      hide Canonical.ToCanonicalString, Canonical.Valid, Select;
      if FindType(input.types, d.ty).None? {
        return Some(UnknownType(origin, d.ty));
      }
      if !ClassDefined(input, d) {
        return Some(MissingClass(origin, d.ty, d.cls));
      }
      var canonical := Canonically(params);
      if d in nodes {
        var node := nodes[d];
        if canonical.Some? {
          if d in explicit {
            if explicit[d].canonical != canonical.value {
              return Some(Conflict(d, explicit[d].origin, origin));
            }
          } else {
            node := node.(params := WithoutNull(params));
            explicit := explicit[d := Fixed(origin, canonical.value)];
          }
        }
        nodes := nodes[d := node.(requests := node.requests + {GraphState.Request(origin, canonical)})];
        return None;
      }
      var def := SelectDefinition(input.definitions, ContextFor(input, d));
      if def.Err? {
        return Some(Unmatched(origin, def.error));
      }
      if canonical.Some? {
        explicit := explicit[d := Fixed(origin, canonical.value)];
      }
      nodes := nodes[d := Node(def.value.id, def.value.driverType, WithoutNull(params),
                               {GraphState.Request(origin, canonical)})];
      deps := deps[d := {}];
      queue := queue + [d];
      return None;
    }

    /** `edge` */
    method AddEdge(from: Descriptor, to: Descriptor)
      requires from in deps
      modifies this`deps
      ensures Value() == LinkOn(old(Value()), from, to)
    {
      deps := deps[from := deps[from] + {to}];
    }

    /** The requests of a workload's resource dependencies. */
    method AddExternals(m: Module) returns (e: Option<GraphError>)
      requires CanRun(input, Value(), ExternalActions(m, m.externals))
      modifies this
      ensures Did(e, ApplyAll(input, old(Value()), ExternalActions(m, m.externals)), Value())
    {
      hide CanRun, ApplyAll, Inv, RequestOn, Canonical.Valid, IsResId, WorkloadOf, ExternalOf, ExternalId;
      ghost var all := ApplyAll(input, Value(), ExternalActions(m, m.externals));
      assert m.externals[0..] == m.externals;
      for i := 0 to |m.externals|
        invariant CanRun(input, Value(), ExternalActions(m, m.externals[i..]))
        invariant all == ApplyAll(input, Value(), ExternalActions(m, m.externals[i..]))
      {
        var x := m.externals[i];
        var origin := FromExternal(m.id, x.key);
        ghost var left := ExternalActions(m, m.externals[i..]);
        assert m.externals[i..][1..] == m.externals[i + 1..];
        if !IsResId(ExternalId(m, x)) {
          FailFirst(input, Value(), left);
          return Some(InvalidId(origin));
        }
        var w, d := WorkloadOf(m), ExternalOf(m, x);
        AskFirst(input, Value(), left);
        e := Request(d, origin, Some(OrNull(x.params)));
        if e.Some? {
          return;
        }
        LinkFirst(input, Value(), left[1..]);
        AddEdge(w, d);
        assert left[1..][1..] == ExternalActions(m, m.externals[i + 1..]);
      }
      CanRunHasInv(input, Value(), []);
      NothingToApply(input, Value());
      e := None;
    }

    /** The requests of the workloads. */
    method AddModules() returns (e: Option<GraphError>)
      requires CanRun(input, Value(), ModuleActions(input.modules))
      modifies this
      ensures Did(e, ApplyAll(input, old(Value()), ModuleActions(input.modules)), Value())
    {
      hide CanRun, ApplyAll, Inv, RequestOn, Canonical.Valid, ExternalActions;
      ghost var all := ApplyAll(input, Value(), ModuleActions(input.modules));
      assert input.modules[0..] == input.modules;
      for i := 0 to |input.modules|
        invariant CanRun(input, Value(), ModuleActions(input.modules[i..]))
        invariant all == ApplyAll(input, Value(), ModuleActions(input.modules[i..]))
      {
        var m := input.modules[i];
        ghost var left := ModuleActions(input.modules[i..]);
        ghost var rest := ModuleActions(input.modules[i + 1..]);
        assert input.modules[i..][1..] == input.modules[i + 1..];
        AskFirst(input, Value(), left);
        e := Request(WorkloadOf(m), FromModule(m.id), Some(WorkloadParams(m)));
        if e.Some? {
          return;
        }
        assert left[1..] == ExternalActions(m, m.externals) + rest;
        ApplyAllJoin(input, Value(), ExternalActions(m, m.externals), rest);
        e := AddExternals(m);
        if e.Some? {
          return;
        }
      }
      CanRunHasInv(input, Value(), []);
      NothingToApply(input, Value());
      e := None;
    }

    /** The requests of the shared resources. */
    method AddShared() returns (e: Option<GraphError>)
      requires CanRun(input, Value(), SharedActions(input.shared))
      modifies this
      ensures Did(e, ApplyAll(input, old(Value()), SharedActions(input.shared)), Value())
    {
      hide CanRun, ApplyAll, Inv, RequestOn, Canonical.Valid, IsResId;
      ghost var all := ApplyAll(input, Value(), SharedActions(input.shared));
      assert input.shared[0..] == input.shared;
      for i := 0 to |input.shared|
        invariant CanRun(input, Value(), SharedActions(input.shared[i..]))
        invariant all == ApplyAll(input, Value(), SharedActions(input.shared[i..]))
      {
        var x := input.shared[i];
        ghost var left := SharedActions(input.shared[i..]);
        assert input.shared[i..][1..] == input.shared[i + 1..];
        if !IsResId(SharedOf(x).id) {
          FailFirst(input, Value(), left);
          return Some(InvalidId(FromShared(x.id)));
        }
        AskFirst(input, Value(), left);
        e := Request(SharedOf(x), FromShared(x.id), Some(OrNull(x.params)));
        if e.Some? {
          return;
        }
        assert left[1..] == SharedActions(input.shared[i + 1..]);
      }
      CanRunHasInv(input, Value(), []);
      NothingToApply(input, Value());
      e := None;
    }

    /** Edges to the shared resources that a workload's placeholders read. */
    method AddReads(w: Descriptor, exprs: seq<Placeholder.Expr>)
      requires CanRun(input, Value(), ReadActions(w, exprs, input.shared))
      modifies this
      ensures Did(None, ApplyAll(input, old(Value()), ReadActions(w, exprs, input.shared)), Value())
    {
      hide CanRun, ApplyAll, Inv, IsResId, FindShared;
      ghost var all := ApplyAll(input, Value(), ReadActions(w, exprs, input.shared));
      assert exprs[0..] == exprs;
      for i := 0 to |exprs|
        invariant CanRun(input, Value(), ReadActions(w, exprs[i..], input.shared))
        invariant all == ApplyAll(input, Value(), ReadActions(w, exprs[i..], input.shared))
      {
        ghost var left := ReadActions(w, exprs[i..], input.shared);
        assert exprs[i..][1..] == exprs[i + 1..];
        if !exprs[i].Shared? {
          continue;
        }
        var shared := FindShared(input.shared, exprs[i].shared);
        if shared.None? {
          continue;
        }
        var d := SharedOf(shared.value);
        if IsResId(d.id) {
          LinkFirst(input, Value(), left);
          AddEdge(w, d);
          assert left[1..] == ReadActions(w, exprs[i + 1..], input.shared);
        }
      }
      CanRunHasInv(input, Value(), []);
      NothingToApply(input, Value());
    }

    /** Edges from each workload to the shared resources it reads. */
    method AddAllReads()
      requires CanRun(input, Value(), SpecActions(input.modules, input.shared))
      modifies this
      ensures Did(None, ApplyAll(input, old(Value()), SpecActions(input.modules, input.shared)), Value())
    {
      hide CanRun, ApplyAll, Inv, Collect.Collected, ReadActions;
      ghost var all := ApplyAll(input, Value(), SpecActions(input.modules, input.shared));
      assert input.modules[0..] == input.modules;
      for i := 0 to |input.modules|
        invariant CanRun(input, Value(), SpecActions(input.modules[i..], input.shared))
        invariant all == ApplyAll(input, Value(), SpecActions(input.modules[i..], input.shared))
      {
        var m := input.modules[i];
        assert input.modules[i..][1..] == input.modules[i + 1..];
        ghost var rest := SpecActions(input.modules[i + 1..], input.shared);
        var found := Collect.Collected(Obj(m.spec), Placeholder.InSet);
        if found.Ok? {
          ApplyAllJoin(input, Value(), ReadActions(WorkloadOf(m), found.value, input.shared), rest);
          AddReads(WorkloadOf(m), found.value);
        } else {
          assert [] + rest == rest;
        }
      }
      CanRunHasInv(input, Value(), []);
      NothingToApply(input, Value());
    }

    /** What the deployment asks for before any definition is expanded. */
    method AddRoots() returns (e: Option<GraphError>)
      requires CanRun(input, Value(), RootActions(input))
      modifies this
      ensures Did(e, ApplyAll(input, old(Value()), RootActions(input)), Value())
    {
      hide CanRun, ApplyAll, Inv, RequestOn, Canonical.Valid, ModuleActions, SharedActions, SpecActions;
      ghost var modules, shared := ModuleActions(input.modules), SharedActions(input.shared);
      ghost var specs := SpecActions(input.modules, input.shared);
      assert RootActions(input)[1..] == modules + (shared + specs);
      AskFirst(input, Value(), RootActions(input));
      e := Request(BASE_ENV, BaseEnv, None);
      if e.Some? {
        return;
      }
      ApplyAllJoin(input, Value(), modules, shared + specs);
      e := AddModules();
      if e.Some? {
        return;
      }
      ApplyAllJoin(input, Value(), shared, specs);
      e := AddShared();
      if e.Some? {
        return;
      }
      AddAllReads();
    }

    /** The resources that a definition's inputs refer to, with edges from `d`. */
    method AddReferences(d: Descriptor, origin: Origin, exprs: seq<Placeholder.Expr>) returns (e: Option<GraphError>)
      requires CanRun(input, Value(), RefActions(input, d, origin, Targets(exprs)))
      modifies this
      ensures Did(e, ApplyAll(input, old(Value()), RefActions(input, d, origin, Targets(exprs))), Value())
    {
      hide CanRun, ApplyAll, Inv, RequestOn, Canonical.Valid, ResolveRef, RefActions, Targets;
      ghost var all := ApplyAll(input, Value(), RefActions(input, d, origin, Targets(exprs)));
      assert exprs[0..] == exprs;
      for i := 0 to |exprs|
        invariant CanRun(input, Value(), RefActions(input, d, origin, Targets(exprs[i..])))
        invariant all == ApplyAll(input, Value(), RefActions(input, d, origin, Targets(exprs[i..])))
      {
        RefsAt(input, d, origin, exprs, i);
        if exprs[i].Resource? {
          ghost var left := RefActions(input, d, origin, Targets(exprs[i..]));
          var to := ResolveRef(input, exprs[i].target, d);
          AskFirst(input, Value(), left);
          e := Request(to, origin, None);
          if e.Some? {
            return;
          }
          LinkFirst(input, Value(), left[1..]);
          AddEdge(d, to);
        }
      }
      assert exprs[|exprs|..] == [];
      NoRefsLeft(input, d, d, origin);
      CanRunHasInv(input, Value(), []);
      NothingToApply(input, Value());
      e := None;
    }

    /** The resources that co-provisioning params refer to, with edges from `target`. */
    method AddParams(d: Descriptor, target: Descriptor, origin: Origin,
        exprs: seq<Placeholder.Expr>) returns (e: Option<GraphError>)
      requires CanRun(input, Value(), ParamActions(input, d, target, origin, Targets(exprs)))
      modifies this
      ensures Did(e, ApplyAll(input, old(Value()), ParamActions(input, d, target, origin, Targets(exprs))), Value())
    {
      hide CanRun, ApplyAll, Inv, RequestOn, Canonical.Valid, ResolveRef, ParamActions, Targets;
      ghost var all := ApplyAll(input, Value(), ParamActions(input, d, target, origin, Targets(exprs)));
      assert exprs[0..] == exprs;
      for i := 0 to |exprs|
        invariant CanRun(input, Value(), ParamActions(input, d, target, origin, Targets(exprs[i..])))
        invariant all == ApplyAll(input, Value(), ParamActions(input, d, target, origin, Targets(exprs[i..])))
      {
        ParamsAt(input, d, target, origin, exprs, i);
        if exprs[i].Resource? {
          ghost var left := ParamActions(input, d, target, origin, Targets(exprs[i..]));
          var to := ResolveRef(input, exprs[i].target, d);
          AskFirst(input, Value(), left);
          e := Request(to, origin, None);
          if e.Some? {
            return;
          }
          if to != target {
            LinkFirst(input, Value(), left[1..]);
            AddEdge(target, to);
          }
        }
      }
      assert exprs[|exprs|..] == [];
      NoRefsLeft(input, d, target, origin);
      CanRunHasInv(input, Value(), []);
      NothingToApply(input, Value());
      e := None;
    }

    /** One co-provisioned resource of `d`'s definition. */
    method AddProvision(def: Definition, d: Descriptor, x: ProvisionEntry) returns (e: Option<GraphError>)
      requires CanRun(input, Value(), EntryActions(input, def, d, x))
      modifies this
      ensures Did(e, ApplyAll(input, old(Value()), EntryActions(input, def, d, x)), Value())
    {
      hide CanRun, ApplyAll, Inv, RequestOn, Canonical.Valid, ResolveRef, ParamActions, Collect.Collected,
        Placeholder.ParseRef;
      ghost var left := EntryActions(input, def, d, x);
      var target := Placeholder.ParseRef(x.key);
      if target.None? {
        FailFirst(input, Value(), left);
        return Some(BadPlaceholder(def.id, Placeholder.Syntax));
      }
      var to := ResolveRef(input, target.value, d);
      var params := OrNull(x.provision.params);
      AskFirst(input, Value(), left);
      e := Request(to, FromProvision(def.id, x.key, d), Some(params));
      if e.Some? {
        return;
      }
      LinkFirst(input, Value(), left[1..]);
      if x.provision.isDependent {
        AddEdge(d, to);
      } else {
        AddEdge(to, d);
      }
      var found := Collect.Collected(params, Placeholder.InDefinition);
      if found.Err? {
        FailFirst(input, Value(), left[1..][1..]);
        return Some(BadPlaceholder(def.id, found.error));
      }
      var origin := FromParams(def.id, x.key, d);
      ghost var asked := ParamActions(input, d, to, origin, Targets(found.value));
      ghost var done := [AddCo(CoProvision(d, to, x.provision.matchDependents))];
      assert left[1..][1..] == asked + done;
      ApplyAllJoin(input, Value(), asked, done);
      e := AddParams(d, to, origin, found.value);
      if e.Some? {
        return;
      }
      ApplyAllStep(input, Value(), done);
      co := co + {CoProvision(d, to, x.provision.matchDependents)};
      assert done[1..] == [];
      CanRunHasInv(input, Value(), []);
      NothingToApply(input, Value());
    }

    method AddProvisions(def: Definition, d: Descriptor) returns (e: Option<GraphError>)
      requires CanRun(input, Value(), ProvisionActions(input, def, d, def.provisions))
      modifies this
      ensures Did(e, ApplyAll(input, old(Value()), ProvisionActions(input, def, d, def.provisions)), Value())
    {
      hide CanRun, ApplyAll, Inv, EntryActions;
      ghost var all := ApplyAll(input, Value(), ProvisionActions(input, def, d, def.provisions));
      assert def.provisions[0..] == def.provisions;
      for i := 0 to |def.provisions|
        invariant CanRun(input, Value(), ProvisionActions(input, def, d, def.provisions[i..]))
        invariant all == ApplyAll(input, Value(), ProvisionActions(input, def, d, def.provisions[i..]))
      {
        assert def.provisions[i..][1..] == def.provisions[i + 1..];
        ApplyAllJoin(input, Value(), EntryActions(input, def, d, def.provisions[i]),
          ProvisionActions(input, def, d, def.provisions[i + 1..]));
        e := AddProvision(def, d, def.provisions[i]);
        if e.Some? {
          return;
        }
      }
      CanRunHasInv(input, Value(), []);
      NothingToApply(input, Value());
      e := None;
    }

    /** `expand`: the references and co-provisioned resources of `d`'s definition. */
    method Expand(d: Descriptor) returns (e: Option<GraphError>)
      requires d in nodes && NodeMatches(input, d, nodes[d])
      requires CanRun(input, Value(), ActionsOf(input, d))
      modifies this
      ensures Did(e, ApplyAll(input, old(Value()), ActionsOf(input, d)), Value())
    {
      hide CanRun, ApplyAll, Inv, RefActions, ProvisionActions, FoundIn, NodeMatches, ActionsOf;
      ExpandsItsDefinition(input, d, nodes[d]);
      var def := FindDefinition(input.definitions, nodes[d].definition).value;
      var found := FoundIn(def);
      if found.Err? {
        FailFirst(input, Value(), ActionsOf(input, d));
        return Some(BadPlaceholder(def.id, found.error));
      }
      var origin := FromReference(def.id, d);
      ApplyAllJoin(input, Value(), RefActions(input, d, origin, Targets(found.value)),
        ProvisionActions(input, def, d, def.provisions));
      e := AddReferences(d, origin, found.value);
      if e.Some? {
        return;
      }
      e := AddProvisions(def, d);
    }
  }
}
