/** Resolving, step by step: `resolve_value` and `resolve_string` in `crates/core/src/placeholder.rs`. */
module ResolveLoops {
  import opened Basics
  import opened Json
  import opened Template
  import opened Placeholder
  import opened Resolve

  /** The lookups done, then the rest. */
  function Then(done: seq<Lookup>, rest: Result<seq<Lookup>, ErrorKind>): Result<seq<Lookup>, ErrorKind> {
    if rest.Err? then rest else Ok(done + rest.value)
  }

  lemma ThenOne(done: seq<Lookup>, one: Lookup, rest: Result<seq<Lookup>, ErrorKind>)
    ensures Then(done, Then([one], rest)) == Then(done + [one], rest)
    ensures Then(done, Ok([])) == Ok(done)
    ensures Then([], rest) == rest
  {
    assert done + [] == done;
    if rest.Ok? {
      assert [] + rest.value == rest.value;
      assert done + ([one] + rest.value) == done + [one] + rest.value;
    }
  }

  /** Looks up each placeholder, in order. */
  method LookUp(ps: seq<RawPlaceholder>, c: Resolver) returns (r: Result<seq<Lookup>, ErrorKind>)
    ensures r == LookupAll(ps, c)
  {
    hide Interpret;
    var lookups: seq<Lookup> := [];
    assert ps[0..] == ps;
    ThenOne([], Plain(Null), LookupAll(ps, c));
    for i := 0 to |ps|
      invariant LookupAll(ps, c) == Then(lookups, LookupAll(ps[i..], c))
    {
      assert ps[i..][1..] == ps[i + 1..];
      var expr := Interpret(ps[i], c.dialect);
      if expr.Err? {
        return Err(expr.error);
      }
      var found := c.scope(expr.value);
      if found.None? {
        return Err(Unresolvable);
      }
      if found.value.Secret? && c.sink == PlainSink {
        return Err(SecretInNonSecret);
      }
      ThenOne(lookups, found.value, LookupAll(ps[i + 1..], c));
      lookups := lookups + [found.value];
    }
    ThenOne(lookups, Plain(Null), Ok([]));
    r := Ok(lookups);
  }

  /** Writes the parts into one expression. */
  method MixParts(parts: seq<Part>, lookups: seq<Lookup>, show: Value -> string) returns (expr: SecretExpr)
    requires |lookups| == |Placeholders(parts)|
    ensures expr == Mix(parts, lookups, [], show)
  {
    hide PushLiteral;
    expr := [];
    var next := 0;
    assert parts[0..] == parts && lookups[0..] == lookups;
    for i := 0 to |parts|
      invariant next <= |lookups| && |lookups[next..]| == |Placeholders(parts[i..])|
      invariant Mix(parts, lookups, [], show) == Mix(parts[i..], lookups[next..], expr, show)
    {
      assert parts[i..][1..] == parts[i + 1..];
      match parts[i] {
        case Literal(l) => expr := PushLiteral(expr, l);
        case Placeholder(_) =>
          assert lookups[next..][0] == lookups[next] && lookups[next..][1..] == lookups[next + 1..];
          match lookups[next] {
            case Plain(v) => expr := PushLiteral(expr, TextOf(v, show));
            case Secret(r) => expr := expr + [SecretText(r)];
          }
          next := next + 1;
      }
    }
  }

  /** `resolve_string` */
  method ResolveText(s: string, c: Resolver) returns (r: Result<Resolved, ErrorKind>)
    ensures r == ResolveString(s, c)
  {
    hide Mix, LookupAll, Parse, HasSecret;
    var template := ParseTemplate(s);
    if template.Err? {
      return Err(Syntax);
    }
    var parts := template.value;
    var lookups := LookUp(Placeholders(parts), c);
    if lookups.Err? {
      return Err(lookups.error);
    }
    if IsWhole(parts) {
      return Ok(match lookups.value[0] case Plain(v) => Done(v) case Secret(x) => Deferred([SecretText(x)]));
    }
    var expr := MixParts(parts, lookups.value, c.show);
    if HasSecret(expr) {
      return Ok(Deferred(expr));
    }
    return Ok(Done(Str(RenderText(expr, NoSecret))));
  }

  /** The items done, then the rest. */
  function ThenItems(done: seq<Resolved>, rest: Result<seq<Resolved>, ErrorKind>): Result<seq<Resolved>, ErrorKind> {
    if rest.Err? then rest else Ok(done + rest.value)
  }

  lemma ItemThen(items: seq<Value>, c: Resolver, done: seq<Resolved>, one: Resolved)
    requires items != [] && ResolveValue(items[0], c) == Ok(one)
    ensures ThenItems(done, ResolveItems(items, c)) == ThenItems(done + [one], ResolveItems(items[1..], c))
  {
    hide ResolveValue;
    if ResolveItems(items[1..], c).Ok? {
      assert done + ([one] + ResolveItems(items[1..], c).value) == done + [one] + ResolveItems(items[1..], c).value;
    }
  }

  function ThenFields(done: seq<Member>, rest: Result<seq<Member>, ErrorKind>): Result<seq<Member>, ErrorKind> {
    if rest.Err? then rest else Ok(done + rest.value)
  }

  lemma FieldThen(fields: seq<Field>, c: Resolver, done: seq<Member>, one: Resolved)
    requires fields != [] && ResolveValue(fields[0].value, c) == Ok(one)
    ensures ThenFields(done, ResolveFields(fields, c))
      == ThenFields(done + [Member(fields[0].key, one)], ResolveFields(fields[1..], c))
  {
    hide ResolveValue;
    if ResolveFields(fields[1..], c).Ok? {
      var m, rest := Member(fields[0].key, one), ResolveFields(fields[1..], c).value;
      assert done + ([m] + rest) == done + [m] + rest;
    }
  }

  /** `resolve_value` */
  method ResolveJson(v: Value, c: Resolver) returns (r: Result<Resolved, ErrorKind>)
    ensures r == ResolveValue(v, c)
    decreases v, 1
  {
    match v {
      case Str(s) => r := ResolveText(s, c);
      case Arr(items) => r := ResolveArray(items, c);
      case Obj(fields) => r := ResolveObject(fields, c);
      case _ => r := Ok(Done(v));
    }
  }

  method ResolveArray(items: seq<Value>, c: Resolver) returns (r: Result<Resolved, ErrorKind>)
    ensures r == ResolveValue(Arr(items), c)
    decreases items, 0
  {
    hide ResolveString, ArrayOf, ObjectOf;
    var out: seq<Resolved> := [];
    assert items[0..] == items;
    assert ResolveItems(items, c).Ok? ==> [] + ResolveItems(items, c).value == ResolveItems(items, c).value;
    for i := 0 to |items|
      invariant ResolveItems(items, c) == ThenItems(out, ResolveItems(items[i..], c))
    {
      assert items[i..][0] == items[i] && items[i..][1..] == items[i + 1..];
      var item := ResolveJson(items[i], c);
      if item.Err? {
        return Err(item.error);
      }
      ItemThen(items[i..], c, out, item.value);
      out := out + [item.value];
    }
    assert out + [] == out;
    r := Ok(ArrayOf(out));
  }

  method ResolveObject(fields: seq<Field>, c: Resolver) returns (r: Result<Resolved, ErrorKind>)
    ensures r == ResolveValue(Obj(fields), c)
    decreases fields, 0
  {
    hide ResolveString, ArrayOf, ObjectOf;
    var out: seq<Member> := [];
    assert fields[0..] == fields;
    assert ResolveFields(fields, c).Ok? ==> [] + ResolveFields(fields, c).value == ResolveFields(fields, c).value;
    for i := 0 to |fields|
      invariant ResolveFields(fields, c) == ThenFields(out, ResolveFields(fields[i..], c))
    {
      assert fields[i..][0] == fields[i] && fields[i..][1..] == fields[i + 1..];
      var item := ResolveJson(fields[i].value, c);
      if item.Err? {
        return Err(item.error);
      }
      FieldThen(fields[i..], c, out, item.value);
      out := out + [Member(fields[i].key, item.value)];
    }
    assert out + [] == out;
    r := Ok(ObjectOf(out));
  }
}
