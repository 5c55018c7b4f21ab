/** The resource graph of a deployment: `build_graph` in `crates/core/src/graph.rs`. */
module Graph {
  import opened Basics
  import Catalog
  import opened Coprovision
  import opened Criteria
  import opened Ids
  import opened Topology
  import opened GraphSpec
  import opened GraphClosure
  import opened GraphState
  import opened GraphFaults
  import opened GraphRun
  import opened GraphBuilder
  import Canonical
  import Json

  /** `layers` holds each layer's resources. */
  datatype ResourceGraph = ResourceGraph(nodes: map<Descriptor, Node>, deps: Deps, layers: seq<set<Descriptor>>)

  // ---- The graph a deployment means ----

  ghost function LinksOf(input: Input, n: set<Descriptor>): set<Edge> {
    LinkSet(RootActions(input)) + set d, e | d in n && e in LinkSet(ActionsOf(input, d)) :: e
  }

  ghost function CosOf(input: Input, n: set<Descriptor>): set<CoProvision> {
    CoSet(RootActions(input)) + set d, c | d in n && c in CoSet(ActionsOf(input, d)) :: c
  }

  /** The edges that `n`'s members ask for, by resource. */
  ghost function BaseDeps(input: Input, n: set<Descriptor>): Deps {
    map d | d in n :: set e | e in LinksOf(input, n) && e.0 == d :: e.1
  }

  /** `g` is the least graph over the least node set in which consumers wait for co-provisioned resources. */
  ghost predicate IsDepsOf(input: Input, g: Deps) {
    IsNodeClosure(input, g.Keys) && IsMatchClosure(BaseDeps(input, g.Keys), CosOf(input, g.Keys), g)
  }

  /** A node has the requests the deployment makes, and the inputs they all want. */
  ghost predicate IsNodeOf(input: Input, d: Descriptor, n: Node) {
    && NodeMatches(input, d, n)
    && (forall r :: r in n.requests <==> IsRequest(input, d, r))
    && (forall c :: IsWantedWith(input, d, c) ==> HasInputs(n, c))
    && (n.params.Some? ==> n.params != Some(Json.Null) && exists c :: IsWantedWith(input, d, c))
  }

  ghost predicate HasInputs(n: Node, canonical: string) {
    Canonical.ToCanonicalString(OrNull(n.params)) == canonical
  }

  ghost predicate IsGraphOf(input: Input, g: ResourceGraph) {
    && g.nodes.Keys == g.deps.Keys && Closed(g.deps) && IsDepsOf(input, g.deps) && IsLayering(g.deps, g.layers)
    && forall d :: d in g.nodes ==> IsNodeOf(input, d, g.nodes[d])
  }

  ghost predicate Faultless(input: Input) {
    forall e :: !IsFault(input, e)
  }

  // ---- While resources are expanded ----

  /** Everything `actions` asks for is there. */
  ghost predicate IsDone(s: State, actions: seq<Action>) {
    NoFail(actions) && AskSet(actions) <= s.nodes.Keys && AllMet(s, actions)
  }

  ghost predicate ExpandedDone(input: Input, s: State, expanded: set<Descriptor>) {
    forall d :: d in expanded ==> IsDone(s, ActionsOf(input, d))
  }

  ghost predicate AllNeeded(input: Input, s: State) {
    forall d :: d in s.nodes ==> IsNeeded(input, d)
  }

  ghost predicate SetsAre(input: Input, s: State, expanded: set<Descriptor>) {
    Edges(s.deps) == LinksOf(input, expanded) && s.co == CosOf(input, expanded)
  }

  /** The resources that are nodes are those expanded and those queued. */
  ghost predicate Split(s: State, expanded: set<Descriptor>) {
    && (forall d :: d in s.nodes <==> d in expanded || d in s.queue)
    && (forall d :: d in s.queue ==> d !in expanded)
  }

  ghost predicate Progress(input: Input, s: State, expanded: set<Descriptor>) {
    && Inv(input, s) && Justified(input, s)
    && IsDone(s, RootActions(input)) && ExpandedDone(input, s, expanded)
    && AllNeeded(input, s) && SetsAre(input, s, expanded) && Split(s, expanded)
  }

  lemma StillDone(s: State, t: State, actions: seq<Action>)
    requires IsDone(s, actions) && Kept(s, t) && s.nodes.Keys <= t.nodes.Keys
    ensures IsDone(t, actions)
  {
    hide NoFail, AskSet, Kept, AllMet;
    StillMet(s, t, actions);
  }

  lemma NowDone(s: State, t: State, actions: seq<Action>)
    requires Ran(s, t, actions)
    ensures IsDone(t, actions)
  {
    hide NoFail, AskSet, AllMet, Kept, QueueGrew, LinkSet, CoSet, Edges;
  }

  // ---- The roots ----

  lemma EmptyCanRun(input: Input)
    ensures CanRun(input, EMPTY, RootActions(input)) && Justified(input, EMPTY)
    ensures AllCalledFor(input, RootActions(input))
  {
    hide RootActions, GraphClosure.Ready;
    RootsAreReady(input);
    assert EMPTY.nodes.Keys == {};
  }

  lemma RootsAreNeeded(input: Input)
    ensures forall d :: d in AskSet(RootActions(input)) ==> IsNeeded(input, d)
  {
    hide RootActions, ActionsOf, AskSet;
  }

  lemma RootsDone(input: Input, s: State)
    requires Ran(EMPTY, s, RootActions(input)) && Inv(input, s) && Justified(input, s)
    ensures Progress(input, s, {})
  {
    hide Inv, Justified, RootActions, ActionsOf, AllMet, IsNeeded, NoFail, AskSet, LinkSet, CoSet, Kept;
    NowDone(EMPTY, s, RootActions(input));
    RootsAreNeeded(input);
    assert EMPTY.nodes.Keys == {} && Edges(EMPTY.deps) == {};
    assert s.queue[|EMPTY.queue|..] == s.queue;
    assert SetsAre(input, s, {}) by {
      assert LinksOf(input, {}) == LinkSet(RootActions(input));
      assert CosOf(input, {}) == CoSet(RootActions(input));
    }
  }

  // ---- One expansion ----

  ghost function Dequeued(s: State): State
    requires s.queue != []
  {
    s.(queue := s.queue[1..])
  }

  lemma DequeuedInv(input: Input, s: State)
    requires Inv(input, s) && s.queue != []
    ensures Inv(input, Dequeued(s)) && s.queue[0] in s.nodes && s.queue[0] !in s.queue[1..]
  {
    hide AllMatch, AllAgree, Closed;
    forall i, j | 0 <= i < j < |s.queue[1..]| ensures s.queue[1..][i] != s.queue[1..][j] {
      assert s.queue[1..][i] == s.queue[i + 1] && s.queue[1..][j] == s.queue[j + 1];
    }
    assert s.queue[0] in s.queue;
    forall d | d in s.queue[1..] ensures d in s.queue && d != s.queue[0] {
      var i :| 0 <= i < |s.queue[1..]| && s.queue[1..][i] == d;
      assert s.queue[i + 1] == d;
    }
  }

  lemma QueuedCanRun(input: Input, s: State, expanded: set<Descriptor>)
    requires Progress(input, s, expanded) && s.queue != []
    ensures CanRun(input, Dequeued(s), ActionsOf(input, s.queue[0])) && Justified(input, Dequeued(s))
    ensures AllCalledFor(input, ActionsOf(input, s.queue[0]))
    ensures s.queue[0] in s.nodes && NodeMatches(input, s.queue[0], s.nodes[s.queue[0]])
  {
    hide ActionsOf, RootActions, GraphClosure.Ready, Shaped, AllAgree, IsNeeded, IsDone,
      SetsAre, Split, ExpandedDone, NodeMatches;
    var d := s.queue[0];
    DequeuedInv(input, s);
    ExpansionIsReady(input, d, s.nodes.Keys);
    assert IsNeeded(input, d);
  }

  lemma ExpansionIsNeeded(input: Input, d: Descriptor)
    requires IsNeeded(input, d)
    ensures forall e :: e in AskSet(ActionsOf(input, d)) ==> IsNeeded(input, e)
  {
    hide RootActions, ActionsOf, AskSet;
  }

  lemma SetsWith(input: Input, s: State, t: State, expanded: set<Descriptor>, d: Descriptor)
    requires SetsAre(input, s, expanded) && SetsGrew(s, t, ActionsOf(input, d))
    ensures SetsAre(input, t, expanded + {d})
  {
    hide RootActions, ActionsOf, AskSet, LinkSet, CoSet, Edges;
    assert LinksOf(input, expanded + {d}) == LinksOf(input, expanded) + LinkSet(ActionsOf(input, d));
    assert CosOf(input, expanded + {d}) == CosOf(input, expanded) + CoSet(ActionsOf(input, d));
  }

  lemma SplitWith(s: State, t: State, expanded: set<Descriptor>)
    requires Split(s, expanded) && s.queue != [] && s.queue[0] !in s.queue[1..]
    requires QueueGrew(Dequeued(s), t) && s.nodes.Keys <= t.nodes.Keys
    ensures Split(t, expanded + {s.queue[0]})
  {
    var rest := s.queue[1..];
    assert t.queue == rest + t.queue[|rest|..];
    assert s.queue == [s.queue[0]] + rest;
    forall d ensures d in t.queue <==> d in rest || (d in t.nodes && d !in s.nodes) {
      assert d in t.queue <==> d in rest || d in t.queue[|rest|..];
    }
    forall d ensures d in s.queue <==> d == s.queue[0] || d in rest {
    }
  }

  lemma ExpandedWith(input: Input, s: State, t: State, expanded: set<Descriptor>, d: Descriptor)
    requires ExpandedDone(input, s, expanded) && IsDone(t, ActionsOf(input, d))
    requires Kept(s, t) && s.nodes.Keys <= t.nodes.Keys
    ensures ExpandedDone(input, t, expanded + {d})
  {
    hide ActionsOf, IsDone, Kept;
    forall e | e in expanded ensures IsDone(t, ActionsOf(input, e)) {
      StillDone(s, t, ActionsOf(input, e));
    }
  }

  lemma ExpansionDone(input: Input, s: State, t: State, expanded: set<Descriptor>)
    requires Progress(input, s, expanded) && s.queue != []
    requires Ran(Dequeued(s), t, ActionsOf(input, s.queue[0])) && Inv(input, t) && Justified(input, t)
    ensures Progress(input, t, expanded + {s.queue[0]})
    ensures s.nodes.Keys <= t.nodes.Keys && (t.nodes.Keys == s.nodes.Keys ==> |t.queue| < |s.queue|)
  {
    hide Justified, RootActions, ActionsOf, AllMet, IsDone, ExpandedDone, NoFail, AskSet, LinkSet, CoSet, Kept,
      Edges, Shaped, AllMatch, AllAgree, Split, IsNeeded, LinksOf, CosOf;
    var d := s.queue[0];
    DequeuedInv(input, s);
    assert IsNeeded(input, d);
    ExpansionIsNeeded(input, d);
    NowDone(Dequeued(s), t, ActionsOf(input, d));
    KeptAfterDequeue(s, t);
    StillDone(s, t, RootActions(input));
    ExpandedWith(input, s, t, expanded, d);
    SetsWith(input, s, t, expanded, d);
    SplitWith(s, t, expanded);
    NothingNew(s, t);
  }

  lemma KeptAfterDequeue(s: State, t: State)
    requires s.queue != [] && Kept(Dequeued(s), t)
    ensures Kept(s, t)
  {
  }

  lemma NothingNew(s: State, t: State)
    requires s.queue != [] && QueueGrew(Dequeued(s), t)
    ensures t.nodes.Keys == s.nodes.Keys ==> |t.queue| < |s.queue|
  {
    var extra := t.queue[|s.queue[1..]|..];
    assert |extra| > 0 ==> extra[0] in extra;
  }

  /** Nodes can only be added within the universe. */
  lemma ExpansionShrinks(input: Input, s: State, t: State, expanded: set<Descriptor>)
    requires Progress(input, t, expanded) && s.nodes.Keys <= t.nodes.Keys
    ensures t.nodes.Keys == s.nodes.Keys || Universe(input) - t.nodes.Keys < Universe(input) - s.nodes.Keys
  {
    hide IsClosed, Universe, Inv, Justified, IsDone, ExpandedDone, SetsAre, Split;
    UniverseIsClosed(input);
    if d :| d in t.nodes.Keys && d !in s.nodes.Keys {
      assert d in Universe(input) - s.nodes.Keys && d !in Universe(input) - t.nodes.Keys;
    } else {
      assert t.nodes.Keys == s.nodes.Keys;
    }
  }

  // ---- The result ----

  /** With nothing queued, the nodes are the least closed set. */
  lemma NodesAreClosure(input: Input, s: State, expanded: set<Descriptor>)
    requires Progress(input, s, expanded) && s.queue == []
    ensures expanded == s.nodes.Keys && IsNodeClosure(input, s.nodes.Keys)
  {
    hide RootActions, ActionsOf, AskSet, NoFail, AllMet, Inv, Justified, SetsAre;
    assert expanded == s.nodes.Keys;
    forall d | d in s.nodes.Keys ensures AskSet(ActionsOf(input, d)) <= s.nodes.Keys {
      assert IsDone(s, ActionsOf(input, d));
    }
    assert IsClosed(input, s.nodes.Keys);
    forall m | IsClosed(input, m) ensures s.nodes.Keys <= m {
    }
  }

  lemma DepsAreBase(input: Input, s: State)
    requires Shaped(s) && SetsAre(input, s, s.nodes.Keys)
    ensures s.deps == BaseDeps(input, s.nodes.Keys) && s.co == CosOf(input, s.nodes.Keys)
  {
    hide LinksOf, CosOf, Closed, Distinct;
    var base := BaseDeps(input, s.nodes.Keys);
    forall d | d in s.deps ensures s.deps[d] == base[d] {
      forall e ensures e in s.deps[d] <==> e in base[d] {
        assert e in s.deps[d] <==> (d, e) in Edges(s.deps);
      }
    }
  }

  /** Matching dependents adds edges between nodes only. */
  lemma MatchedIsClosed(g: Deps, cos: set<CoProvision>, r: Deps)
    requires Closed(g) && (forall c :: c in cos ==> c.co in g) && IsMatchClosure(g, cos, r)
    ensures Closed(r)
  {
    var full: Deps := map d | d in g :: g.Keys;
    assert Extends(g, full);
    forall c | c in cos && c.matchDependents ensures ClosedFor(full, c) {
    }
    assert IsUpper(g, cos, full);
    assert Extends(r, full);
  }

  lemma InputsAgree(input: Input, s: State, expanded: set<Descriptor>, d: Descriptor, canonical: string)
    requires Progress(input, s, expanded) && s.queue == [] && IsWantedWith(input, d, canonical)
    ensures d in s.explicit && s.explicit[d].canonical == canonical
  {
    hide RootActions, ActionsOf, AskSet, NoFail, Inv, Justified, SetsAre, Canonical.Valid,
      Canonical.ToCanonicalString, IsNeeded, IsNodeClosure;
    var a :| IsCalledFor(input, a) && AsksWith(a, d, canonical);
    CalledIsMet(input, s, expanded, a);
  }

  lemma CalledIsMet(input: Input, s: State, expanded: set<Descriptor>, a: Action)
    requires Progress(input, s, expanded) && s.queue == [] && IsCalledFor(input, a)
    ensures !a.Fail? && InputMet(s, a) && Requested(s, a)
  {
    hide RootActions, ActionsOf, AskSet, Inv, Justified, SetsAre, InputMet, Requested, IsClosed;
    NodesAreClosure(input, s, expanded);
    if a in RootActions(input) {
      var i :| 0 <= i < |RootActions(input)| && RootActions(input)[i] == a;
    } else {
      var e :| IsNeeded(input, e) && a in ActionsOf(input, e);
      assert e in s.nodes.Keys;
      assert IsDone(s, ActionsOf(input, e));
      var i :| 0 <= i < |ActionsOf(input, e)| && ActionsOf(input, e)[i] == a;
    }
  }

  lemma RequestIsThere(input: Input, s: State, expanded: set<Descriptor>, d: Descriptor, r: Request)
    requires Progress(input, s, expanded) && s.queue == [] && d in s.nodes && IsRequest(input, d, r)
    ensures r in s.nodes[d].requests
  {
    hide Progress, IsCalledFor, Canonical.Valid, Canonical.ToCanonicalString;
    var a :| IsCalledFor(input, a) && RequestsAs(a, d, r);
    CalledIsMet(input, s, expanded, a);
  }

  lemma RequestIsMade(input: Input, s: State, expanded: set<Descriptor>, d: Descriptor, r: Request)
    requires Progress(input, s, expanded) && d in s.nodes && r in s.nodes[d].requests
    ensures IsRequest(input, d, r)
  {
    hide Inv, IsDone, ExpandedDone, AllNeeded, SetsAre, Split, IsRequest, IsWantedWith;
  }

  lemma NodeIsRight(input: Input, s: State, expanded: set<Descriptor>, d: Descriptor)
    requires Progress(input, s, expanded) && s.queue == [] && d in s.nodes
    ensures IsNodeOf(input, d, s.nodes[d])
  {
    hide Progress, NodeMatches, IsRequest, IsWantedWith, Canonical.Valid, Canonical.ToCanonicalString;
    var n := s.nodes[d];
    NodeIsSound(input, s, expanded, d);
    forall r ensures r in n.requests <==> IsRequest(input, d, r) {
      if r in n.requests {
        RequestIsMade(input, s, expanded, d, r);
      } else if IsRequest(input, d, r) {
        RequestIsThere(input, s, expanded, d, r);
      }
    }
    forall c | IsWantedWith(input, d, c) ensures HasInputs(n, c) {
      InputsAgree(input, s, expanded, d, c);
    }
  }

  lemma NodeIsSound(input: Input, s: State, expanded: set<Descriptor>, d: Descriptor)
    requires Progress(input, s, expanded) && d in s.nodes
    ensures NodeMatches(input, d, s.nodes[d]) && NodeAgrees(s.nodes[d], FixedFor(s.explicit, d))
    ensures d in s.explicit ==> IsWantedWith(input, d, s.explicit[d].canonical)
  {
    hide IsDone, ExpandedDone, AllNeeded, SetsAre, Split, IsRequest, IsWantedWith, IsWantedFrom, NodeMatches,
      NodeAgrees,
      Shaped;
    if d in s.explicit {
      FromIsWith(input, d, s.explicit[d].origin, s.explicit[d].canonical);
    }
  }

  lemma NoFaults(input: Input, s: State, expanded: set<Descriptor>)
    requires Progress(input, s, expanded) && s.queue == []
    ensures Faultless(input)
  {
    hide Progress, IsCalledFor, NodeMatches, IsNeeded, IsAskedFrom, HasConflict;
    forall e ensures !IsFault(input, e) {
      if IsFault(input, e) {
        match e
        case UnknownType(_, ty) => NeededMatches(input, s, expanded);
        case MissingClass(_, ty, cls) => NeededMatches(input, s, expanded);
        case Unmatched(_, m) => NeededMatches(input, s, expanded);
        case Conflict(d, first, second) => NoConflict(input, s, expanded, d, first, second);
        case InvalidId(_) => CalledIsMet(input, s, expanded, Fail(e));
        case BadPlaceholder(_, _) => CalledIsMet(input, s, expanded, Fail(e));
        case Cycle(_) =>
      }
    }
  }

  lemma NoConflict(input: Input, s: State, expanded: set<Descriptor>, d: Descriptor, first: Origin, second: Origin)
    requires Progress(input, s, expanded) && s.queue == []
    ensures !HasConflict(input, d, first, second)
  {
    hide Progress, IsWantedFrom, IsWantedWith, InputMet, Requested;
    forall x, y | IsWantedFrom(input, d, first, x) && IsWantedFrom(input, d, second, y) ensures x == y {
      FromIsWith(input, d, first, x);
      FromIsWith(input, d, second, y);
      InputsAgree(input, s, expanded, d, x);
      InputsAgree(input, s, expanded, d, y);
    }
  }

  lemma NeededMatches(input: Input, s: State, expanded: set<Descriptor>)
    requires Progress(input, s, expanded) && s.queue == []
    ensures forall d :: IsNeeded(input, d) ==>
      && Catalog.FindType(input.types, d.ty).Some? && ClassDefined(input, d)
      && Select(input.definitions, ContextFor(input, d)).Ok?
  {
    hide Progress, Select, IsClosed;
    NodesAreClosure(input, s, expanded);
    forall d | IsNeeded(input, d)
      ensures Catalog.FindType(input.types, d.ty).Some? && ClassDefined(input, d)
      ensures Select(input.definitions, ContextFor(input, d)).Ok?
    {
      assert d in s.nodes.Keys;
      NodeIsSound(input, s, expanded, d);
    }
  }

  /** There is at most one dependency relation for a deployment. */
  lemma DepsAreUnique(input: Input, g: Deps, h: Deps)
    requires IsDepsOf(input, g) && IsDepsOf(input, h)
    ensures g == h
  {
    hide IsNodeClosure, IsMatchClosure, BaseDeps, CosOf;
    NodeClosureIsUnique(input, g.Keys, h.Keys);
    ClosureIsUnique(BaseDeps(input, g.Keys), CosOf(input, g.Keys), g, h);
  }

  /** Nor can two graphs of a deployment differ, except in how their inputs are written. */
  lemma GraphIsUnique(input: Input, g: ResourceGraph, h: ResourceGraph)
    requires IsGraphOf(input, g) && IsGraphOf(input, h)
    ensures g.nodes.Keys == h.nodes.Keys && g.deps == h.deps && g.layers == h.layers
    ensures forall d :: d in g.nodes ==> SameNode(g.nodes[d], h.nodes[d])
  {
    hide IsDepsOf, IsLayering, IsNodeOf, Closed;
    DepsAreUnique(input, g.deps, h.deps);
    LayeringIsUnique(g.deps, g.layers, h.layers);
    forall d | d in g.nodes ensures SameNode(g.nodes[d], h.nodes[d]) {
      NodeIsUnique(input, d, g.nodes[d], h.nodes[d]);
    }
  }

  ghost predicate SameNode(n: Node, m: Node) {
    && n.definition == m.definition && n.driverType == m.driverType && n.requests == m.requests
    && (n.params == m.params || exists c :: HasInputs(n, c) && HasInputs(m, c))
  }

  lemma NodeIsUnique(input: Input, d: Descriptor, n: Node, m: Node)
    requires IsNodeOf(input, d, n) && IsNodeOf(input, d, m)
    ensures SameNode(n, m)
  {
    hide IsWantedWith, IsRequest, Select, Canonical.Valid, Canonical.ToCanonicalString;
    assert n.requests == m.requests;
  }

  ghost predicate Mappable(input: Input) {
    exists g :: IsDepsOf(input, g) && Acyclic(g)
  }

  lemma WithoutCycle(input: Input, s: State, expanded: set<Descriptor>, deps: Deps, layers: seq<set<Descriptor>>)
    requires Progress(input, s, expanded) && s.queue == []
    requires IsDepsOf(input, deps) && deps.Keys == s.nodes.Keys && Closed(deps) && IsLayering(deps, layers) &&
      Acyclic(deps)
    ensures IsGraphOf(input, ResourceGraph(s.nodes, deps, layers))
    ensures Mappable(input) && Faultless(input)
  {
    hide Progress, IsDepsOf, IsLayering, IsNodeOf, Faultless, Acyclic, Closed;
    NoFaults(input, s, expanded);
    forall d | d in s.nodes ensures IsNodeOf(input, d, s.nodes[d]) {
      NodeIsRight(input, s, expanded, d);
    }
  }

  /** The edges the builder ends with are the deployment's. */
  lemma MatchedAreDeps(input: Input, s: State, expanded: set<Descriptor>, deps: Deps)
    requires Progress(input, s, expanded) && s.queue == [] && IsMatchClosure(s.deps, s.co, deps)
    ensures IsDepsOf(input, deps) && deps.Keys == s.nodes.Keys && Closed(deps)
  {
    hide AllMatch, AllAgree, Justified, IsDone, ExpandedDone, AllNeeded, SetsAre, BaseDeps, CosOf, IsNodeClosure,
      Closed, MatchClosed;
    NodesAreClosure(input, s, expanded);
    DepsAreBase(input, s);
    MatchedIsClosed(s.deps, s.co, deps);
  }

  lemma CycleRefutes(input: Input, deps: Deps)
    requires IsDepsOf(input, deps) && !Acyclic(deps)
    ensures !Mappable(input)
  {
    hide IsDepsOf, Acyclic;
    if Mappable(input) {
      var g :| IsDepsOf(input, g) && Acyclic(g);
      DepsAreUnique(input, g, deps);
    }
  }

  lemma FaultRefutes(input: Input, e: GraphError)
    requires IsFault(input, e)
    ensures !Faultless(input) && !e.Cycle?
  {
  }

  /** `build_graph` */
  method BuildGraph(input: Input) returns (r: Result<ResourceGraph, GraphError>)
    ensures r.Ok? <==> Faultless(input) && Mappable(input)
    ensures r.Ok? ==> IsGraphOf(input, r.value)
    ensures r.Err? && r.error.Cycle? ==> exists g :: IsDepsOf(input, g) && IsSimpleCycle(g, r.error.path)
    ensures r.Err? && !r.error.Cycle? ==> IsFault(input, r.error)
  {
    hide RootActions, ActionsOf, CanRun, ApplyAll, Justified, AllCalledFor, IsFault, Faultless,
      Mappable, Inv, Ran,
      Progress, NodeMatches, Universe, IsDepsOf, IsGraphOf, IsMatchClosure, Closed, Acyclic, IsLayering, IsSimpleCycle;
    var b := new Builder(input);
    EmptyCanRun(input);
    ApplyAllJustified(input, EMPTY, RootActions(input));
    var e := b.AddRoots();
    if e.Some? {
      FaultRefutes(input, e.value);
      return Err(e.value);
    }
    ApplyAllRan(input, EMPTY, RootActions(input));
    RootsDone(input, b.Value());
    ghost var expanded := {};
    while b.queue != []
      invariant b.input == input && Progress(input, b.Value(), expanded)
      decreases Universe(input) - b.nodes.Keys, |b.queue|
    {
      ghost var s := b.Value();
      var d := b.queue[0];
      QueuedCanRun(input, s, expanded);
      b.queue := b.queue[1..];
      ApplyAllJustified(input, b.Value(), ActionsOf(input, d));
      e := b.Expand(d);
      if e.Some? {
        FaultRefutes(input, e.value);
        return Err(e.value);
      }
      ApplyAllRan(input, Dequeued(s), ActionsOf(input, d));
      ExpansionDone(input, s, b.Value(), expanded);
      expanded := expanded + {d};
      ExpansionShrinks(input, s, b.Value(), expanded);
    }
    var deps := MatchDependents(b.deps, b.co);
    MatchedAreDeps(input, b.Value(), expanded, deps);
    var layers := TopologicalLayers(deps);
    if layers.Err? {
      CycleRefutes(input, deps);
      return Err(Cycle(layers.error));
    }
    WithoutCycle(input, b.Value(), expanded, deps, layers.value);
    return Ok(ResourceGraph(b.nodes, deps, layers.value));
  }
}
