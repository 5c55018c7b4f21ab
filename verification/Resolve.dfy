/**
 Resolving placeholders into values and secret expressions
 (`crates/core/src/placeholder.rs`), and rendering them
 (`crates/engine/src/executor.rs`).

 `Resolver.show` is how a non-string JSON value is printed inside a longer string.
 */
module Resolve {
  import opened Basics
  import opened Json
  import opened Template
  import opened Placeholder

  datatype SecretPart =
    | LiteralText(text: string)
    | SecretText(secret: SecretRef)

  /** A string that contains secrets, unevaluated until the executor renders it. */
  type SecretExpr = seq<SecretPart>

  /** JSON whose placeholders are replaced, except that secrets are still to be read. */
  datatype Resolved =
    | Done(value: Value)
    | Deferred(expr: SecretExpr)
    | Items(items: seq<Resolved>)
    | Members(members: seq<Member>)
  {
    predicate IsTainted() { !Done? }
  }

  datatype Member = Member(key: string, value: Resolved)

  datatype Sink = PlainSink | SecretSink

  /** Where a value comes from and goes to, and how its placeholders are looked up. */
  datatype Resolver = Resolver(
    dialect: Dialect,
    scope: Expr -> Option<Lookup>,
    sink: Sink,
    show: Value -> string)

  // ---- Resolving ----

  function PushLiteral(expr: SecretExpr, s: string): SecretExpr {
    if expr != [] && expr[|expr| - 1].LiteralText? then
      expr[|expr| - 1 := LiteralText(expr[|expr| - 1].text + s)]
    else if s != "" then expr + [LiteralText(s)]
    else expr
  }

  predicate HasSecret(expr: SecretExpr) {
    exists i :: 0 <= i < |expr| && expr[i].SecretText?
  }

  /** The text of an expression, reading each secret with `read`. */
  function RenderText(expr: SecretExpr, read: SecretRef -> string): string {
    if expr == [] then ""
    else
      RenderText(expr[..|expr| - 1], read)
      + (match expr[|expr| - 1] case LiteralText(s) => s case SecretText(r) => read(r))
  }

  /** What one placeholder is replaced by, if it can be. */
  function LookupPlaceholder(raw: RawPlaceholder, c: Resolver): Result<Lookup, ErrorKind>
  {
    match Interpret(raw, c.dialect)
    case Err(e) => Err(e)
    case Ok(expr) =>
      match c.scope(expr)
      case None => Err(Unresolvable)
      case Some(found) => if found.Secret? && c.sink == PlainSink then Err(SecretInNonSecret) else Ok(found)
  }

  /** The lookups of the placeholders in `parts`, in order. */
  function Lookups(parts: seq<Part>, c: Resolver): (r: Result<seq<Lookup>, ErrorKind>)
    ensures r.Ok? ==> |r.value| == |Placeholders(parts)|
  {
    var ps := Placeholders(parts);
    LookupAll(ps, c)
  }

  function Placeholders(parts: seq<Part>): seq<RawPlaceholder> {
    if parts == [] then []
    else if parts[0].Placeholder? then [parts[0].raw] + Placeholders(parts[1..])
    else Placeholders(parts[1..])
  }

  function LookupAll(ps: seq<RawPlaceholder>, c: Resolver): (r: Result<seq<Lookup>, ErrorKind>)
    ensures r.Ok? ==> |r.value| == |ps|
    ensures r.Ok? && c.sink == PlainSink ==> forall i :: 0 <= i < |r.value| ==> r.value[i].Plain?
  {
    if ps == [] then Ok([])
    else
      match LookupPlaceholder(ps[0], c)
      case Err(e) => Err(e)
      case Ok(found) =>
        match LookupAll(ps[1..], c)
        case Err(e) => Err(e)
        case Ok(rest) => Ok([found] + rest)
  }

  /** Text inserted for a non-secret value. */
  function TextOf(v: Value, show: Value -> string): string {
    if v.Str? then v.s else show(v)
  }

  /** Adds the parts to `expr`, each placeholder replaced by its lookup. */
  function Mix(parts: seq<Part>, found: seq<Lookup>, expr: SecretExpr, show: Value -> string): SecretExpr
    requires |found| == |Placeholders(parts)|
  {
    if parts == [] then expr
    else
      match parts[0]
      case Literal(l) => Mix(parts[1..], found, PushLiteral(expr, l), show)
      case Placeholder(_) =>
        var next := match found[0]
          case Plain(v) => PushLiteral(expr, TextOf(v, show))
          case Secret(r) => expr + [SecretText(r)];
        Mix(parts[1..], found[1..], next, show)
  }

  predicate IsWhole(parts: seq<Part>) { |parts| == 1 && parts[0].Placeholder? }

  /** Resolves the placeholders in one string. */
  function ResolveString(s: string, c: Resolver): Result<Resolved, ErrorKind>
  {
    match Parse(s)
    case Err(_) => Err(Syntax)
    case Ok(parts) =>
      match Lookups(parts, c)
      case Err(e) => Err(e)
      case Ok(found) => Ok(ResolveParts(parts, found, c.show))
  }

  /** For text without secrets. */
  function NoSecret(r: SecretRef): string { "" }

  function ResolveParts(parts: seq<Part>, found: seq<Lookup>, show: Value -> string): Resolved
    requires |found| == |Placeholders(parts)|
  {
    if IsWhole(parts) then
      match found[0]
      case Plain(v) => Done(v)
      case Secret(r) => Deferred([SecretText(r)])
    else
      var expr := Mix(parts, found, [], show);
      if HasSecret(expr) then Deferred(expr) else Done(Str(RenderText(expr, NoSecret)))
  }

  /** Collects resolved items: plain when nothing inside is secret. */
  function ArrayOf(items: seq<Resolved>): Resolved {
    if forall i :: 0 <= i < |items| ==> items[i].Done? then
      Done(Arr(seq(|items|, i requires 0 <= i < |items| && items[i].Done? => items[i].value)))
    else Items(items)
  }

  function ObjectOf(members: seq<Member>): Resolved {
    if forall i :: 0 <= i < |members| ==> members[i].value.Done? then
      Done(Obj(seq(|members|, i requires 0 <= i < |members| && members[i].value.Done? =>
        Field(members[i].key, members[i].value.value))))
    else Members(members)
  }

  /** Resolves every placeholder in `v`. Object keys are not resolved. */
  function ResolveValue(v: Value, c: Resolver): Result<Resolved, ErrorKind>
    decreases v, 0
  {
    match v
    case Str(s) => ResolveString(s, c)
    case Arr(items) =>
      (match ResolveItems(items, c)
       case Err(e) => Err(e)
       case Ok(rs) => Ok(ArrayOf(rs)))
    case Obj(fields) =>
      (match ResolveFields(fields, c)
       case Err(e) => Err(e)
       case Ok(ms) => Ok(ObjectOf(ms)))
    case _ => Ok(Done(v))
  }

  function ResolveItems(items: seq<Value>, c: Resolver): (r: Result<seq<Resolved>, ErrorKind>)
    ensures r.Ok? ==> |r.value| == |items|
    decreases items, 1
  {
    if items == [] then Ok([])
    else
      match ResolveValue(items[0], c)
      case Err(e) => Err(e)
      case Ok(first) =>
        match ResolveItems(items[1..], c)
        case Err(e) => Err(e)
        case Ok(rest) => Ok([first] + rest)
  }

  function ResolveFields(fields: seq<Field>, c: Resolver): (r: Result<seq<Member>, ErrorKind>)
    ensures r.Ok? ==> |r.value| == |fields|
    decreases fields, 1
  {
    if fields == [] then Ok([])
    else
      match ResolveValue(fields[0].value, c)
      case Err(e) => Err(e)
      case Ok(first) =>
        match ResolveFields(fields[1..], c)
        case Err(e) => Err(e)
        case Ok(rest) => Ok([Member(fields[0].key, first)] + rest)
  }
}
