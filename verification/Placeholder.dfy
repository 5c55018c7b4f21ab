/**
 Interpreting placeholders, and the scope they are looked up in:
 `crates/core/src/placeholder.rs`.
 */
module Placeholder {
  import opened Basics
  import opened Ids
  import opened Json
  import opened Text
  import opened Template

  datatype ErrorKind =
    | Syntax
    | UnknownRoot
    | NotAllowed
    | Unresolvable
    | SecretInNonSecret

  datatype ContextKey =
    | OrgId | AppId | EnvId | EnvType | ResId | ResClass | ResType | ResGuresid | DeployId | DeploySetId

  const CONTEXT_PATHS: seq<(seq<string>, ContextKey)> := [
    (["org", "id"], OrgId),
    (["app", "id"], AppId),
    (["env", "id"], EnvId),
    (["env", "type"], EnvType),
    (["res", "id"], ResId),
    (["res", "class"], ResClass),
    (["res", "type"], ResType),
    (["res", "guresid"], ResGuresid),
    (["deploy", "id"], DeployId),
    (["deploy", "set", "id"], DeploySetId)
  ]

  /** How a placeholder names a resource: the type, and a class and ID if it gives them. */
  datatype ResourceRef = ResourceRef(ty: string, cls: Option<string>, id: Option<string>) {
    /**
     The full descriptor, taking omitted parts from `referrer`. For implicit
     types an omitted class is `default` and an omitted ID is the type name.
     */
    function Resolve(referrer: Descriptor, implicit: bool): Descriptor {
      if implicit then
        Descriptor(ty, GetOr(cls, DEFAULT_CLASS), GetOr(id, ReplaceAll(ty, "/", "-")))
      else
        Descriptor(ty, GetOr(cls, referrer.cls), GetOr(id, referrer.id))
    }
  }

  function GetOr<T>(o: Option<T>, default: T): T {
    if o.Some? then o.value else default
  }

  /** Parses `<type>[.<class>][#<id>]`. */
  function ParseRef(s: string): Option<ResourceRef> {
    var hash := Find(s, '#');
    var head := s[..hash];
    var dot := Find(head, '.');
    var id := if hash < |s| then Some(s[hash + 1..]) else None;
    var cls := if dot < |head| then Some(head[dot + 1..]) else None;
    if (id.Some? && !IsResId(id.value)) || (cls.Some? && !IsObjectId(cls.value)) || !IsTypeId(head[..dot])
    then None
    else Some(ResourceRef(head[..dot], cls, id))
  }

  datatype ResourceField =
    | Outputs(path: seq<Segment>)
    | Guresid
    | Account

  datatype Expr =
    | Context(key: ContextKey)
    | Resource(target: ResourceRef, field: ResourceField)
    | Externals(external: string, externalPath: seq<Segment>)
    | Shared(shared: string, sharedPath: seq<Segment>)
    | Values(valueKey: string, valuePath: seq<Segment>)
    | Pod(podPath: seq<string>)

  /** Which placeholders a location accepts. */
  datatype Dialect = InDefinition | InDriverAccount | InSet

  /** The segments as names, if all of them are. */
  function Names(segs: seq<Segment>): (r: Option<seq<string>>)
    ensures r.Some? <==> forall i :: 0 <= i < |segs| ==> segs[i].Name?
    ensures r.Some? ==> |r.value| == |segs| && forall i :: 0 <= i < |segs| ==> r.value[i] == segs[i].name
  {
    if segs == [] then Some([])
    else if !segs[0].Name? then None
    else
      match Names(segs[1..])
      case None => None
      case Some(rest) => Some([segs[0].name] + rest)
  }

  function Join(parts: seq<string>, sep: string): string {
    if parts == [] then ""
    else if |parts| == 1 then parts[0]
    else parts[0] + sep + Join(parts[1..], sep)
  }

  predicate IsField(seg: Segment) {
    seg.Name? && (seg.name == "outputs" || seg.name == "guresid" || seg.name == "account")
  }

  function FieldIndex(segs: seq<Segment>): (i: nat)
    ensures i <= |segs|
  {
    if segs == [] || IsField(segs[0]) then 0 else 1 + FieldIndex(segs[1..])
  }

  function ContextOf(path: seq<string>, from: nat): Option<ContextKey>
    requires from <= |CONTEXT_PATHS|
    decreases |CONTEXT_PATHS| - from
  {
    if from == |CONTEXT_PATHS| then None
    else if Join(CONTEXT_PATHS[from].0, ".") == Join(path, ".") then Some(CONTEXT_PATHS[from].1)
    else ContextOf(path, from + 1)
  }

  /** The reference text of a `resources` placeholder, and the segments after it. */
  function RefText(segs: seq<Segment>): Option<(string, seq<Segment>)> {
    if segs == [] || segs[0].Index? then None
    else if segs[0].Quoted? then Some((segs[0].quoted, segs[1..]))
    else
      var n := FieldIndex(segs);
      if n == |segs| then None
      else
        match Names(segs[..n])
        case None => None
        case Some(parts) =>
          if parts == [] || (|parts| > 2 && forall i :: 0 <= i < |parts| ==> '#' !in parts[i]) then None
          else Some((Join(parts, "."), segs[n..]))
  }

  function ParseField(rest: seq<Segment>): Option<ResourceField> {
    if rest == [] || !rest[0].Name? then None
    else if rest[0].name == "outputs" && |rest| > 1 then Some(Outputs(rest[1..]))
    else if rest[0].name == "guresid" && |rest| == 1 then Some(Guresid)
    else if rest[0].name == "account" && |rest| == 1 then Some(Account)
    else None
  }

  function ParseResourceRef(segs: seq<Segment>): Option<(ResourceRef, ResourceField)> {
    match RefText(segs)
    case None => None
    case Some((text, rest)) =>
      match (ParseRef(text), ParseField(rest))
      case (Some(target), Some(field)) => Some((target, field))
      case _ => None
  }

  /** What a placeholder means in a dialect, or why it means nothing there. */
  function Interpret(raw: RawPlaceholder, dialect: Dialect): Result<Expr, ErrorKind> {
    var segs := raw.segments;
    var root := raw.Root();
    if root == "context" then
      if dialect == InSet then Err(NotAllowed)
      else
        match Names(segs[1..])
        case None => Err(Syntax)
        case Some(path) =>
          (match ContextOf(path, 0)
           case None => Err(Unresolvable)
           case Some(key) => Ok(Context(key)))
    else if root == "resources" && dialect != InSet then
      match ParseResourceRef(segs[1..])
      case None => Err(Syntax)
      case Some((target, field)) =>
        if field == Account && dialect != InDriverAccount then Err(NotAllowed)
        else Ok(Resource(target, field))
    else if (root == "externals" || root == "shared") && dialect == InSet then
      if |segs| < 3 || segs[1].Key().None? then Err(Syntax)
      else if root == "externals" then Ok(Externals(segs[1].Key().value, segs[2..]))
      else Ok(Shared(segs[1].Key().value, segs[2..]))
    else if root == "values" && dialect == InSet then
      if |segs| < 2 || segs[1].Key().None? then Err(Syntax)
      else Ok(Values(segs[1].Key().value, segs[2..]))
    else if root == "pod" && dialect == InSet then
      match Names(segs[1..])
      case None => Err(Syntax)
      case Some(path) => if path == [] then Err(Syntax) else Ok(Pod(path))
    else Err(UnknownRoot)
  }

  // ---- Scopes ----

  /** A reference to a secret held in a secret store. */
  datatype SecretRef = SecretRef(store: string, reference: string, version: Option<string>)

  datatype Lookup =
    | Plain(value: Value)
    | Secret(secret: SecretRef)

  datatype ResourceOutputs = ResourceOutputs(
    values: map<string, Value>,
    secrets: map<string, SecretRef>,
    guresid: Option<string>,
    account: Option<string>)

  function Walk(v: Value, path: seq<Segment>): Option<Value>
    decreases |path|
  {
    if path == [] then Some(v)
    else
      match (path[0], v)
      case (Index(i), Arr(items)) => if i < |items| then Walk(items[i], path[1..]) else None
      case (Name(k), Obj(fields)) => WalkField(fields, k, path)
      case (Quoted(k), Obj(fields)) => WalkField(fields, k, path)
      case _ => None
  }

  function WalkField(fields: seq<Field>, k: string, path: seq<Segment>): Option<Value>
    requires path != []
    decreases |path|, 0
  {
    var i := IndexOf(fields, k);
    if i < 0 then None else Walk(fields[i].value, path[1..])
  }

  /** What a path leads to: a secret by its name alone, or a place inside a value. */
  function GetOutput(o: ResourceOutputs, path: seq<Segment>): Option<Lookup> {
    if path == [] || path[0].Key().None? then None
    else
      var name := path[0].Key().value;
      if name in o.secrets then
        if |path| == 1 then Some(Secret(o.secrets[name])) else None
      else if name in o.values then
        match Walk(o.values[name], path[1..])
        case None => None
        case Some(v) => Some(Plain(v))
      else None
  }

  datatype Scope = Scope(
    context: map<ContextKey, Value>,
    referrer: Option<Descriptor>,
    implicitTypes: set<string>,
    resources: map<Descriptor, ResourceOutputs>,
    externals: map<string, ResourceOutputs>,
    shared: map<string, ResourceOutputs>,
    values: map<string, Lookup>)
  {
    /** The resource that `target` means here, if enough of it is given. */
    function DescriptorFor(target: ResourceRef): Option<Descriptor> {
      var implicit := target.ty in implicitTypes;
      if referrer.Some? then Some(target.Resolve(referrer.value, implicit))
      else if target.cls.Some? && target.id.Some? then
        Some(Descriptor(target.ty, target.cls.value, target.id.value))
      else if implicit then
        Some(target.Resolve(Descriptor(target.ty, DEFAULT_CLASS, "x"), true))
      else None
    }

    function LookupResource(target: ResourceRef, field: ResourceField): Option<Lookup> {
      match DescriptorFor(target)
      case None => None
      case Some(d) =>
        if d !in resources then None
        else
          match field
          case Outputs(path) => GetOutput(resources[d], path)
          case Guresid => if resources[d].guresid.Some? then Some(Plain(Str(resources[d].guresid.value))) else None
          case Account => if resources[d].account.Some? then Some(Plain(Str(resources[d].account.value))) else None
    }

    /** Looks up one interpreted placeholder. */
    function Lookup(expr: Expr): Option<Lookup> {
      match expr
      case Context(k) => if k in context then Some(Plain(context[k])) else None
      case Resource(target, field) => LookupResource(target, field)
      case Externals(key, path) => if key in externals then GetOutput(externals[key], path) else None
      case Shared(id, path) => if id in shared then GetOutput(shared[id], path) else None
      case Values(key, path) =>
        if key !in values then None
        else
          (match values[key]
           case Plain(v) => (match Walk(v, path) case None => None case Some(x) => Some(Plain(x)))
           case Secret(r) => if path == [] then Some(Secret(r)) else None)
      case Pod(_) => None
    }
  }
}
