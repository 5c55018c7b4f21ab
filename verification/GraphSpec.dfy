/**
 What a resource graph is made of: the requests and edges that the workloads,
 shared resources and matched definitions of a deployment ask for
 (`crates/core/src/graph.rs`).
 */
module GraphSpec {
  import opened Basics
  import opened Catalog
  import opened Criteria
  import opened Ids
  import opened Json
  import opened Collect
  import opened Placeholder
  import opened Coprovision
  import Canonical

  // ---- Input ----

  /** A resource dependency of a workload. */
  datatype External = External(key: string, ty: string, cls: string, id: Option<string>,
    params: Option<Canonical.Document>)

  /** The members of an object. */
  type Spec = fields: seq<Field> | Canonical.Valid(Obj(fields)) witness []

  /** A workload of the set, by ID. */
  datatype Module = Module(id: string, cls: string, spec: Spec, externals: seq<External>)

  datatype SharedResource = SharedResource(id: string, ty: string, cls: string, params: Option<Canonical.Document>)

  datatype Input = Input(
    app: string,
    env: string,
    envType: string,
    modules: seq<Module>,
    shared: seq<SharedResource>,
    definitions: seq<Definition>,
    types: seq<ResourceType>,
    classes: set<(string, string)>)

  // ---- Errors ----

  /** Where a request comes from. */
  datatype Origin =
    | BaseEnv
    | FromModule(workload: string)
    | FromExternal(workload: string, key: string)
    | FromShared(shared: string)
    | FromReference(definition: string, referrer: Descriptor)
    | FromProvision(definition: string, entry: string, referrer: Descriptor)
    | FromParams(definition: string, entry: string, referrer: Descriptor)

  datatype GraphError =
    | UnknownType(origin: Origin, ty: string)
    | InvalidId(origin: Origin)
    | MissingClass(origin: Origin, ty: string, cls: string)
    | Unmatched(origin: Origin, error: MatchError)
    | BadPlaceholder(definition: string, kind: ErrorKind)
    | Conflict(d: Descriptor, first: Origin, second: Origin)
    | Cycle(path: seq<Descriptor>)

  // ---- Actions ----

  /** An ID, key or placeholder that does not parse. */
  type Unreadable = e: GraphError | e.InvalidId? || e.BadPlaceholder? witness InvalidId(BaseEnv)

  /** One step of building the graph. */
  datatype Action =
    | Ask(d: Descriptor, origin: Origin, params: Option<Canonical.Document>)
    | Link(from: Descriptor, to: Descriptor)
    | AddCo(co: CoProvision)
    | Fail(error: Unreadable)

  function WorkloadOf(m: Module): Descriptor {
    Descriptor("workload", m.cls, "modules." + m.id)
  }

  /** The workload's inputs: its ID, class and spec. */
  function WorkloadParams(m: Module): Canonical.Document {
    var fields := [Field("id", Str(m.id)), Field("class", Str(m.cls)), Field("spec", Obj(m.spec))];
    assert UniqueKeys(fields) && forall i :: 0 <= i < |fields| ==> Canonical.Valid(fields[i].value);
    Obj(fields)
  }

  function OrNull(params: Option<Canonical.Document>): Canonical.Document {
    if params.Some? then params.value else Null
  }

  function ExternalId(m: Module, e: External): string {
    if e.id.Some? then "shared." + e.id.value else "modules." + m.id + ".externals." + e.key
  }

  function ExternalOf(m: Module, e: External): Descriptor {
    Descriptor(e.ty, e.cls, ExternalId(m, e))
  }

  function SharedOf(s: SharedResource): Descriptor {
    Descriptor(s.ty, s.cls, "shared." + s.id)
  }

  const BASE_ENV: Descriptor := Descriptor("base-env", DEFAULT_CLASS, "base-env")

  function ExternalActions(m: Module, externals: seq<External>): seq<Action> {
    if externals == [] then []
    else
      var e := externals[0];
      var origin := FromExternal(m.id, e.key);
      if !IsResId(ExternalId(m, e)) then [Fail(InvalidId(origin))]
      else
        [Ask(ExternalOf(m, e), origin, Some(OrNull(e.params))), Link(WorkloadOf(m), ExternalOf(m, e))]
        + ExternalActions(m, externals[1..])
  }

  function ModuleActions(modules: seq<Module>): seq<Action> {
    if modules == [] then []
    else
      var m := modules[0];
      [Ask(WorkloadOf(m), FromModule(m.id), Some(WorkloadParams(m)))]
      + ExternalActions(m, m.externals)
      + ModuleActions(modules[1..])
  }

  function SharedActions(shared: seq<SharedResource>): seq<Action> {
    if shared == [] then []
    else if !IsResId(SharedOf(shared[0]).id) then [Fail(InvalidId(FromShared(shared[0].id)))]
    else
      [Ask(SharedOf(shared[0]), FromShared(shared[0].id), Some(OrNull(shared[0].params)))]
      + SharedActions(shared[1..])
  }

  /** The set's shared resource with this ID. */
  function FindShared(shared: seq<SharedResource>, id: string): (r: Option<SharedResource>)
    ensures r.Some? ==> r.value in shared && r.value.id == id
  {
    if shared == [] then None
    else if shared[0].id == id then Some(shared[0])
    else FindShared(shared[1..], id)
  }

  /** Edges to the shared resources a workload's placeholders read. */
  function ReadActions(w: Descriptor, exprs: seq<Expr>, shared: seq<SharedResource>): seq<Action> {
    if exprs == [] then []
    else
      var rest := ReadActions(w, exprs[1..], shared);
      if !exprs[0].Shared? then rest
      else
        match FindShared(shared, exprs[0].shared)
        case None => rest
        case Some(s) => if IsResId(SharedOf(s).id) then [Link(w, SharedOf(s))] + rest else rest
  }

  /** Placeholders that do not parse are reported when the workload is resolved. */
  function SpecActions(modules: seq<Module>, shared: seq<SharedResource>): seq<Action> {
    if modules == [] then []
    else
      var m := modules[0];
      var found := Collected(Obj(m.spec), InSet);
      (if found.Ok? then ReadActions(WorkloadOf(m), found.value, shared) else [])
      + SpecActions(modules[1..], shared)
  }

  function RootActions(input: Input): seq<Action> {
    [Ask(BASE_ENV, BaseEnv, None)]
    + ModuleActions(input.modules)
    + SharedActions(input.shared)
    + SpecActions(input.modules, input.shared)
  }

  // ---- Expanding a matched definition ----

  function ContextFor(input: Input, d: Descriptor): ResourceContext {
    ResourceContext(input.app, input.env, input.envType, d)
  }

  function FindDefinition(defs: seq<Definition>, id: string): (r: Option<Definition>)
    ensures r.Some? ==> r.value in defs && r.value.id == id
    ensures r.None? ==> forall d :: d in defs ==> d.id != id
  {
    if defs == [] then None
    else if defs[0].id == id then Some(defs[0])
    else FindDefinition(defs[1..], id)
  }

  /** The definition a resource is provisioned with. */
  function DefinitionOf(input: Input, d: Descriptor): Option<Definition> {
    match Select(input.definitions, ContextFor(input, d))
    case Err(_) => None
    case Ok(def) => FindDefinition(input.definitions, def.id)
  }

  /** The resources that placeholders refer to. */
  function Targets(exprs: seq<Expr>): seq<ResourceRef> {
    if exprs == [] then []
    else (if exprs[0].Resource? then [exprs[0].target] else []) + Targets(exprs[1..])
  }

  /** The references in a definition's driver inputs and account. */
  function FoundIn(def: Definition): Result<seq<Expr>, ErrorKind> {
    match (Collected(def.values, InDefinition), Collected(def.secrets, InDefinition), AccountExprs(def))
    case (Ok(v), Ok(s), Ok(a)) => Ok(v + s + a)
    case (Err(e), _, _) => Err(e)
    case (_, Err(e), _) => Err(e)
    case (_, _, Err(e)) => Err(e)
  }

  function AccountExprs(def: Definition): Result<seq<Expr>, ErrorKind> {
    if def.driverAccount.None? then Ok([]) else Collected(Str(def.driverAccount.value), InDriverAccount)
  }

  function ResolveRef(input: Input, target: ResourceRef, referrer: Descriptor): Descriptor {
    target.Resolve(referrer, IsImplicit(input.types, target.ty))
  }

  /** Requests for `refs`, with an edge from `from` to each, as `referrer` names them. */
  function RefActions(input: Input, referrer: Descriptor, origin: Origin, refs: seq<ResourceRef>): seq<Action> {
    if refs == [] then []
    else
      var to := ResolveRef(input, refs[0], referrer);
      [Ask(to, origin, None), Link(referrer, to)] + RefActions(input, referrer, origin, refs[1..])
  }

  /** Requests for the references in co-provisioning params, with edges from `co`. */
  function ParamActions(input: Input, referrer: Descriptor, co: Descriptor, origin: Origin,
      refs: seq<ResourceRef>): seq<Action> {
    if refs == [] then []
    else
      var to := ResolveRef(input, refs[0], referrer);
      [Ask(to, origin, None)]
      + (if to != co then [Link(co, to)] else [])
      + ParamActions(input, referrer, co, origin, refs[1..])
  }

  /** What one entry of `provision` asks for. */
  function EntryActions(input: Input, def: Definition, d: Descriptor, e: ProvisionEntry): seq<Action> {
    match ParseRef(e.key)
    case None => [Fail(BadPlaceholder(def.id, Syntax))]
    case Some(target) =>
      var co := ResolveRef(input, target, d);
      var params := OrNull(e.provision.params);
      [Ask(co, FromProvision(def.id, e.key, d), Some(params)),
       if e.provision.isDependent then Link(d, co) else Link(co, d)]
      + match Collected(params, InDefinition)
        case Err(k) => [Fail(BadPlaceholder(def.id, k))]
        case Ok(exprs) =>
          ParamActions(input, d, co, FromParams(def.id, e.key, d), Targets(exprs))
          + [AddCo(CoProvision(d, co, e.provision.matchDependents))]
  }

  function ProvisionActions(input: Input, def: Definition, d: Descriptor, entries: seq<ProvisionEntry>): seq<Action> {
    if entries == [] then []
    else EntryActions(input, def, d, entries[0]) + ProvisionActions(input, def, d, entries[1..])
  }

  /** What expanding `d`, matched to `def`, asks for. */
  function ExpandActions(input: Input, def: Definition, d: Descriptor): seq<Action> {
    match FoundIn(def)
    case Err(k) => [Fail(BadPlaceholder(def.id, k))]
    case Ok(exprs) =>
      RefActions(input, d, FromReference(def.id, d), Targets(exprs))
      + ProvisionActions(input, def, d, def.provisions)
  }

  function ActionsOf(input: Input, d: Descriptor): seq<Action> {
    match DefinitionOf(input, d)
    case None => []
    case Some(def) => ExpandActions(input, def, d)
  }
}
