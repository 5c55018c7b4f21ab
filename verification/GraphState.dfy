/** The state of graph construction, and what each step does to it. */
module GraphState {
  import opened Basics
  import opened Catalog
  import opened Criteria
  import opened Ids
  import opened Json
  import opened Topology
  import opened Coprovision
  import opened GraphSpec
  import opened GraphClosure
  import Canonical

  /** Why a node is in the graph, with its canonical inputs if it carries any. */
  datatype Request = Request(origin: Origin, params: Option<string>)

  datatype Node = Node(definition: string, driverType: string,
    params: Option<Canonical.Document>, requests: set<Request>)

  /** The request that fixed a node's params. */
  datatype Fixed = Fixed(origin: Origin, canonical: string)

  datatype State = State(
    nodes: map<Descriptor, Node>,
    deps: Deps,
    explicit: map<Descriptor, Fixed>,
    queue: seq<Descriptor>,
    co: set<CoProvision>)

  const EMPTY: State := State(map[], map[], map[], [], {})

  predicate ClassDefined(input: Input, d: Descriptor) {
    d.cls == DEFAULT_CLASS || (d.ty, d.cls) in input.classes
  }

  function Canonically(params: Option<Canonical.Document>): Option<string> {
    if params.Some? then Some(Canonical.ToCanonicalString(params.value)) else None
  }

  function WithoutNull(params: Option<Canonical.Document>): Option<Canonical.Document> {
    if params == Some(Null) then None else params
  }

  /** Adds a request for a resource that is a node already. */
  function RequestAgain(s: State, d: Descriptor, origin: Origin,
      params: Option<Canonical.Document>): Result<State, GraphError>
    requires d in s.nodes
  {
    var canonical := Canonically(params);
    var fixes := canonical.Some? && d !in s.explicit;
    if canonical.Some? && d in s.explicit && s.explicit[d].canonical != canonical.value then
      Err(Conflict(d, s.explicit[d].origin, origin))
    else
      var node := s.nodes[d].(
        params := if fixes then WithoutNull(params) else s.nodes[d].params,
        requests := s.nodes[d].requests + {Request(origin, canonical)});
      Ok(s.(nodes := s.nodes[d := node],
            explicit := if fixes then s.explicit[d := Fixed(origin, canonical.value)] else s.explicit))
  }

  /** Adds a resource that is not a node yet. */
  function RequestNew(input: Input, s: State, d: Descriptor, origin: Origin,
      params: Option<Canonical.Document>): Result<State, GraphError>
  {
    match Select(input.definitions, ContextFor(input, d))
    case Err(e) => Err(Unmatched(origin, e))
    case Ok(def) =>
      var canonical := Canonically(params);
      Ok(s.(nodes := s.nodes[d := Node(def.id, def.driverType, WithoutNull(params), {Request(origin, canonical)})],
            deps := s.deps[d := {}],
            explicit := if canonical.Some? then s.explicit[d := Fixed(origin, canonical.value)] else s.explicit,
            queue := s.queue + [d]))
  }

  /** `request` */
  function RequestOn(input: Input, s: State, d: Descriptor, origin: Origin,
      params: Option<Canonical.Document>): Result<State, GraphError>
  {
    if FindType(input.types, d.ty).None? then Err(UnknownType(origin, d.ty))
    else if !ClassDefined(input, d) then Err(MissingClass(origin, d.ty, d.cls))
    else if d in s.nodes then RequestAgain(s, d, origin, params)
    else RequestNew(input, s, d, origin, params)
  }

  function LinkOn(s: State, from: Descriptor, to: Descriptor): State
    requires from in s.deps
  {
    s.(deps := s.deps[from := s.deps[from] + {to}])
  }

  function Apply(input: Input, s: State, a: Action): Result<State, GraphError>
    requires a.Link? ==> a.from in s.deps
  {
    match a
    case Ask(d, origin, params) => RequestOn(input, s, d, origin, params)
    case Link(from, to) => Ok(LinkOn(s, from, to))
    case AddCo(c) => Ok(s.(co := s.co + {c}))
    case Fail(e) => Err(e)
  }

  // ---- What holds of every state ----

  ghost function Edges(deps: Deps): set<Edge> {
    set a, b | a in deps && b in deps[a] :: (a, b)
  }

  /** A node's type and class exist, and it has the definition it matched. */
  ghost predicate NodeMatches(input: Input, d: Descriptor, n: Node) {
    && FindType(input.types, d.ty).Some? && ClassDefined(input, d)
    && Select(input.definitions, ContextFor(input, d)).Ok?
    && n.definition == Select(input.definitions, ContextFor(input, d)).value.id
    && n.driverType == Select(input.definitions, ContextFor(input, d)).value.driverType
  }

  ghost predicate AllMatch(input: Input, nodes: map<Descriptor, Node>) {
    forall d :: d in nodes ==> NodeMatches(input, d, nodes[d])
  }

  /** Every request for a node that carries inputs carries the ones it was given. */
  ghost predicate NodeAgrees(n: Node, fixed: Option<Fixed>) {
    && (forall r :: r in n.requests && r.params.Some? ==> fixed.Some? && fixed.value.canonical == r.params.value)
    && (fixed.None? ==> n.params.None?) && n.params != Some(Null)
    && (fixed.Some? ==> fixed.value.canonical == Canonical.ToCanonicalString(OrNull(n.params)))
  }

  function FixedFor(explicit: map<Descriptor, Fixed>, d: Descriptor): Option<Fixed> {
    if d in explicit then Some(explicit[d]) else None
  }

  ghost predicate AllAgree(nodes: map<Descriptor, Node>, explicit: map<Descriptor, Fixed>) {
    forall d :: d in nodes ==> NodeAgrees(nodes[d], FixedFor(explicit, d))
  }

  ghost predicate Distinct(q: seq<Descriptor>) {
    forall i, j :: 0 <= i < j < |q| ==> q[i] != q[j]
  }

  /** Edges and co-provisioning are between nodes, and every queued resource is a node, queued once. */
  ghost predicate Shaped(s: State) {
    && s.nodes.Keys == s.deps.Keys && Closed(s.deps)
    && s.explicit.Keys <= s.nodes.Keys
    && Distinct(s.queue) && (forall d :: d in s.queue ==> d in s.nodes)
    && (forall c :: c in s.co ==> c.co in s.nodes)
  }

  ghost predicate Inv(input: Input, s: State) {
    Shaped(s) && AllMatch(input, s.nodes) && AllAgree(s.nodes, s.explicit)
  }

  // ---- One step ----

  /** What a successful step leaves. */
  ghost predicate Stepped(s: State, t: State, a: Action) {
    !a.Fail? && SetsStepped(s, t, a) && QueueStepped(s, t, a) && InputsStepped(s, t, a)
  }

  ghost predicate SetsStepped(s: State, t: State, a: Action) {
    && t.nodes.Keys == s.nodes.Keys + AskSet([a])
    && Edges(t.deps) == Edges(s.deps) + LinkSet([a])
    && t.co == s.co + CoSet([a])
  }

  ghost predicate QueueStepped(s: State, t: State, a: Action) {
    || (t.queue == s.queue && t.nodes.Keys == s.nodes.Keys)
    || (a.Ask? && a.d !in s.nodes && t.queue == s.queue + [a.d])
  }

  ghost predicate InputsStepped(s: State, t: State, a: Action) {
    Kept(s, t) && InputMet(t, a) && Requested(t, a)
  }

  /** Inputs, once fixed, stay, and so do requests. */
  ghost predicate Kept(s: State, t: State) {
    && (forall d :: d in s.explicit ==> d in t.explicit && t.explicit[d] == s.explicit[d])
    && (forall d :: d in s.nodes ==> d in t.nodes && s.nodes[d].requests <= t.nodes[d].requests)
  }

  /** The inputs `a` asks for are the ones the node is given. */
  ghost predicate InputMet(t: State, a: Action) {
    a.Ask? && a.params.Some? ==>
      a.d in t.explicit && t.explicit[a.d].canonical == Canonical.ToCanonicalString(a.params.value)
  }

  /** The node says that `a` asked for it. */
  ghost predicate Requested(t: State, a: Action) {
    a.Ask? ==>
      a.d in t.nodes && Request(a.origin, Canonically(a.params)) in t.nodes[a.d].requests
  }

  lemma SingleSets(a: Action)
    ensures AskSet([a]) == (if a.Ask? then {a.d} else {})
    ensures LinkSet([a]) == (if a.Link? then {(a.from, a.to)} else {})
    ensures CoSet([a]) == (if a.AddCo? then {a.co} else {})
  {
    assert [a][0] == a;
  }

  lemma LinkAdds(deps: Deps, from: Descriptor, to: Descriptor)
    requires from in deps
    ensures Edges(deps[from := deps[from] + {to}]) == Edges(deps) + {(from, to)}
  {
  }

  lemma NewNodeAddsNoEdge(deps: Deps, d: Descriptor)
    requires d !in deps
    ensures Edges(deps[d := {}]) == Edges(deps)
  {
  }

  lemma NullIsNull(params: Option<Canonical.Document>)
    ensures params.Some? ==> OrNull(WithoutNull(params)) == params.value
    ensures WithoutNull(params) != Some(Null)
  {
  }

  lemma RequestAgreed(n: Node, fixed: Option<Fixed>, origin: Origin, params: Option<Canonical.Document>)
    requires NodeAgrees(n, fixed)
    requires params.Some? && fixed.Some? ==> fixed.value.canonical == Canonical.ToCanonicalString(params.value)
    ensures var requests := n.requests + {Request(origin, Canonically(params))};
      && (params.None? || fixed.Some? ==> NodeAgrees(n.(requests := requests), fixed))
      && (params.Some? && fixed.None? ==>
        NodeAgrees(n.(params := WithoutNull(params), requests := requests),
          Some(Fixed(origin, Canonical.ToCanonicalString(params.value)))))
  {
    hide Canonical.ToCanonicalString, Canonical.Valid;
    NullIsNull(params);
  }

  /** What `RequestAgain` changes, in terms of one node. */
  lemma AskAgainKeepsInv(input: Input, s: State, d: Descriptor, origin: Origin, params: Option<Canonical.Document>)
    requires Inv(input, s) && d in s.nodes
    requires RequestAgain(s, d, origin, params).Ok?
    ensures Inv(input, RequestAgain(s, d, origin, params).value)
  {
    hide Canonical.ToCanonicalString, Canonical.Valid, Select, NodeMatches, NodeAgrees, Closed;
    var t := RequestAgain(s, d, origin, params).value;
    RequestAgreed(s.nodes[d], FixedFor(s.explicit, d), origin, params);
    assert NodeMatches(input, d, s.nodes[d]);
    SameMatch(input, d, s.nodes[d], t.nodes[d]);
    assert AllMatch(input, t.nodes);
    forall e | e in t.nodes ensures NodeAgrees(t.nodes[e], FixedFor(t.explicit, e)) {
      if e != d {
        assert NodeAgrees(s.nodes[e], FixedFor(s.explicit, e));
      }
    }
  }

  lemma SameMatch(input: Input, d: Descriptor, n: Node, m: Node)
    requires NodeMatches(input, d, n) && m.definition == n.definition && m.driverType == n.driverType
    ensures NodeMatches(input, d, m)
  {
  }

  lemma AskAgainMoves(s: State, a: Action)
    requires a.Ask? && a.d in s.nodes
    requires RequestAgain(s, a.d, a.origin, a.params).Ok?
    ensures var t := RequestAgain(s, a.d, a.origin, a.params).value;
      SetsStepped(s, t, a) && QueueStepped(s, t, a) && InputsStepped(s, t, a)
  {
    hide Canonical.ToCanonicalString, Canonical.Valid, Edges, AskSet, LinkSet, CoSet;
    SingleSets(a);
  }

  lemma AskAgainSteps(input: Input, s: State, a: Action)
    requires Inv(input, s) && a.Ask? && a.d in s.nodes
    requires RequestAgain(s, a.d, a.origin, a.params).Ok?
    ensures var t := RequestAgain(s, a.d, a.origin, a.params).value; Inv(input, t) && Stepped(s, t, a)
  {
    hide Inv, RequestAgain, SetsStepped, QueueStepped, InputsStepped;
    AskAgainKeepsInv(input, s, a.d, a.origin, a.params);
    AskAgainMoves(s, a);
  }

  lemma NewNodeAgrees(input: Input, d: Descriptor, def: Definition, origin: Origin, params: Option<Canonical.Document>)
    requires FindType(input.types, d.ty).Some? && ClassDefined(input, d)
    requires Select(input.definitions, ContextFor(input, d)) == Ok(def)
    ensures var n := Node(def.id, def.driverType, WithoutNull(params), {Request(origin, Canonically(params))});
      && NodeMatches(input, d, n)
      && NodeAgrees(n, if params.Some? then Some(Fixed(origin, Canonical.ToCanonicalString(params.value))) else None)
  {
    hide Canonical.ToCanonicalString, Canonical.Valid, Select;
    NullIsNull(params);
  }

  lemma AskNewKeepsInv(input: Input, s: State, d: Descriptor, origin: Origin, params: Option<Canonical.Document>)
    requires Inv(input, s) && d !in s.nodes
    requires FindType(input.types, d.ty).Some? && ClassDefined(input, d)
    requires RequestNew(input, s, d, origin, params).Ok?
    ensures Inv(input, RequestNew(input, s, d, origin, params).value)
  {
    hide Canonical.ToCanonicalString, Canonical.Valid, Select, NodeMatches, NodeAgrees, ClassDefined;
    var t := RequestNew(input, s, d, origin, params).value;
    NewNodeAgrees(input, d, Select(input.definitions, ContextFor(input, d)).value, origin, params);
    forall e | e in t.nodes ensures NodeAgrees(t.nodes[e], FixedFor(t.explicit, e)) {
      if e != d {
        assert NodeAgrees(s.nodes[e], FixedFor(s.explicit, e));
      }
    }
    assert AllMatch(input, t.nodes);
    assert Closed(t.deps);
  }

  lemma AskNewMoves(input: Input, s: State, a: Action)
    requires a.Ask? && a.d !in s.nodes && a.d !in s.deps && a.d !in s.explicit
    requires RequestNew(input, s, a.d, a.origin, a.params).Ok?
    ensures var t := RequestNew(input, s, a.d, a.origin, a.params).value;
      SetsStepped(s, t, a) && QueueStepped(s, t, a) && InputsStepped(s, t, a)
  {
    hide Canonical.ToCanonicalString, Canonical.Valid, Edges, AskSet, LinkSet, CoSet, Select;
    SingleSets(a);
    NewNodeAddsNoEdge(s.deps, a.d);
  }

  lemma AskNewSteps(input: Input, s: State, a: Action)
    requires Inv(input, s) && a.Ask? && a.d !in s.nodes
    requires FindType(input.types, a.d.ty).Some? && ClassDefined(input, a.d)
    requires RequestNew(input, s, a.d, a.origin, a.params).Ok?
    ensures var t := RequestNew(input, s, a.d, a.origin, a.params).value; Inv(input, t) && Stepped(s, t, a)
  {
    hide RequestNew, SetsStepped, QueueStepped, InputsStepped, AllMatch, AllAgree, Closed, Distinct, ClassDefined,
      FindType;
    AskNewKeepsInv(input, s, a.d, a.origin, a.params);
    AskNewMoves(input, s, a);
  }

  lemma LinkSteps(input: Input, s: State, a: Action)
    requires Inv(input, s) && a.Link? && a.from in s.nodes && a.to in s.nodes
    ensures var t := LinkOn(s, a.from, a.to); Inv(input, t) && Stepped(s, t, a)
  {
    hide AllMatch, AllAgree, Edges, AskSet, LinkSet, CoSet;
    SingleSets(a);
    LinkAdds(s.deps, a.from, a.to);
    LinkKeepsClosed(s.deps, a.from, a.to);
  }

  lemma LinkKeepsClosed(deps: Deps, from: Descriptor, to: Descriptor)
    requires Closed(deps) && from in deps && to in deps
    ensures Closed(deps[from := deps[from] + {to}])
  {
  }

  lemma CoSteps(input: Input, s: State, a: Action)
    requires Inv(input, s) && a.AddCo? && a.co.co in s.nodes
    ensures var t := s.(co := s.co + {a.co}); Inv(input, t) && Stepped(s, t, a)
  {
    hide AllMatch, AllAgree, Edges, AskSet, LinkSet, CoSet;
    SingleSets(a);
  }

  ghost predicate Fits(s: State, a: Action) {
    && (a.Link? ==> a.from in s.nodes && a.to in s.nodes)
    && (a.AddCo? ==> a.co.co in s.nodes)
  }

  lemma ApplySteps(input: Input, s: State, a: Action)
    requires Inv(input, s) && Fits(s, a)
    requires Apply(input, s, a).Ok?
    ensures Inv(input, Apply(input, s, a).value) && Stepped(s, Apply(input, s, a).value, a)
  {
    hide Inv, Stepped, RequestAgain, RequestNew;
    match a
    case Ask(d, origin, params) => if d in s.nodes { AskAgainSteps(input, s, a); } else { AskNewSteps(input, s, a); }
    case Link(_, _) => LinkSteps(input, s, a);
    case AddCo(_) => CoSteps(input, s, a);
  }
}
