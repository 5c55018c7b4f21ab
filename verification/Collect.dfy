/**
 The placeholders of a value: `collect_placeholders` in
 `crates/core/src/placeholder.rs`. Locations, which only error messages use,
 are left out.
 */
module Collect {
  import opened Basics
  import opened Json
  import opened Template
  import opened Placeholder
  import opened Resolve

  function InterpretAll(ps: seq<RawPlaceholder>, dialect: Dialect): Result<seq<Expr>, ErrorKind> {
    if ps == [] then Ok([])
    else
      match Interpret(ps[0], dialect)
      case Err(e) => Err(e)
      case Ok(first) =>
        match InterpretAll(ps[1..], dialect)
        case Err(e) => Err(e)
        case Ok(rest) => Ok([first] + rest)
  }

  /** Every placeholder in `v`, interpreted for `dialect`. */
  function Collected(v: Value, dialect: Dialect): Result<seq<Expr>, ErrorKind>
    decreases v, 0
  {
    match v
    case Str(s) =>
      (match Parse(s) case Err(_) => Err(Syntax) case Ok(parts) => InterpretAll(Placeholders(parts), dialect))
    case Arr(items) => CollectedItems(items, dialect)
    case Obj(fields) => CollectedFields(fields, dialect)
    case _ => Ok([])
  }

  function CollectedItems(items: seq<Value>, dialect: Dialect): Result<seq<Expr>, ErrorKind>
    decreases items, 1
  {
    if items == [] then Ok([])
    else
      match Collected(items[0], dialect)
      case Err(e) => Err(e)
      case Ok(first) =>
        match CollectedItems(items[1..], dialect)
        case Err(e) => Err(e)
        case Ok(rest) => Ok(first + rest)
  }

  function CollectedFields(fields: seq<Field>, dialect: Dialect): Result<seq<Expr>, ErrorKind>
    decreases fields, 1
  {
    if fields == [] then Ok([])
    else
      match Collected(fields[0].value, dialect)
      case Err(e) => Err(e)
      case Ok(first) =>
        match CollectedFields(fields[1..], dialect)
        case Err(e) => Err(e)
        case Ok(rest) => Ok(first + rest)
  }

  // ---- Collecting into a buffer ----

  function After(done: seq<Expr>, rest: Result<seq<Expr>, ErrorKind>): Result<seq<Expr>, ErrorKind> {
    match rest
    case Err(e) => Err(e)
    case Ok(more) => Ok(done + more)
  }

  lemma AfterJoins(a: seq<Expr>, b: seq<Expr>, rest: Result<seq<Expr>, ErrorKind>)
    ensures After(a, After(b, rest)) == After(a + b, rest)
    ensures After([], rest) == rest
    ensures After(a, Ok([])) == Ok(a)
  {
    assert a + [] == a;
    if rest.Ok? {
      assert a + (b + rest.value) == a + b + rest.value;
      assert [] + rest.value == rest.value;
    }
  }

  /** `collect_into`: appends the placeholders of `v` to `out`. */
  method CollectInto(v: Value, dialect: Dialect, out: seq<Expr>) returns (r: Result<seq<Expr>, ErrorKind>)
    ensures r == After(out, Collected(v, dialect))
    decreases v
  {
    AfterJoins(out, [], Ok([]));
    match v
    case Str(s) =>
      var t := ParseTemplate(s);
      if t.Err? {
        return Err(Syntax);
      }
      r := InterpretInto(Placeholders(t.value), dialect, out);
    case Arr(items) =>
      var found := out;
      assert items[0..] == items;
      for i := 0 to |items|
        invariant After(out, Collected(v, dialect)) == After(found, CollectedItems(items[i..], dialect))
      {
        var rest := CollectedItems(items[i + 1..], dialect);
        assert items[i..][1..] == items[i + 1..];
        var next := CollectInto(items[i], dialect, found);
        if next.Err? {
          return next;
        }
        AfterJoins(found, Collected(items[i], dialect).value, rest);
        found := next.value;
      }
      AfterJoins(found, [], Ok([]));
      r := Ok(found);
    case Obj(fields) =>
      var found := out;
      assert fields[0..] == fields;
      for i := 0 to |fields|
        invariant After(out, Collected(v, dialect)) == After(found, CollectedFields(fields[i..], dialect))
      {
        var rest := CollectedFields(fields[i + 1..], dialect);
        assert fields[i..][1..] == fields[i + 1..];
        var next := CollectInto(fields[i].value, dialect, found);
        if next.Err? {
          return next;
        }
        AfterJoins(found, Collected(fields[i].value, dialect).value, rest);
        found := next.value;
      }
      AfterJoins(found, [], Ok([]));
      r := Ok(found);
    case _ => r := Ok(out);
  }

  method InterpretInto(ps: seq<RawPlaceholder>, dialect: Dialect,
      out: seq<Expr>) returns (r: Result<seq<Expr>, ErrorKind>)
    ensures r == After(out, InterpretAll(ps, dialect))
  {
    var found := out;
    assert ps[0..] == ps;
    for i := 0 to |ps|
      invariant After(out, InterpretAll(ps, dialect)) == After(found, InterpretAll(ps[i..], dialect))
    {
      hide Interpret;
      assert ps[i..][1..] == ps[i + 1..];
      var e := Interpret(ps[i], dialect);
      if e.Err? {
        return Err(e.error);
      }
      AfterJoins(found, [e.value], InterpretAll(ps[i + 1..], dialect));
      found := found + [e.value];
    }
    AfterJoins(found, [], Ok([]));
    r := Ok(found);
  }

  // ---- Resolving looks up only what is mentioned ----

  /** A placeholder inside `v` means `e`, whether or not every other placeholder can be read. */
  ghost predicate IsMentioned(v: Value, dialect: Dialect, e: Expr)
    decreases v
  {
    match v
    case Str(s) => Parse(s).Ok? && IsAmong(Placeholders(Parse(s).value), dialect, e)
    case Arr(items) => exists i :: 0 <= i < |items| && IsMentioned(items[i], dialect, e)
    case Obj(fields) => exists i :: 0 <= i < |fields| && IsMentioned(fields[i].value, dialect, e)
    case _ => false
  }

  ghost predicate IsAmong(ps: seq<RawPlaceholder>, dialect: Dialect, e: Expr) {
    exists i :: 0 <= i < |ps| && Interpret(ps[i], dialect) == Ok(e)
  }

  lemma FirstIsAmong(ps: seq<RawPlaceholder>, dialect: Dialect, e: Expr)
    requires ps != []
    ensures IsAmong(ps, dialect, e) <==> Interpret(ps[0], dialect) == Ok(e) || IsAmong(ps[1..], dialect, e)
  {
    hide Interpret;
    if IsAmong(ps[1..], dialect, e) {
      var i :| 0 <= i < |ps[1..]| && Interpret(ps[1..][i], dialect) == Ok(e);
      assert ps[i + 1] == ps[1..][i];
    }
    if IsAmong(ps, dialect, e) {
      var i :| 0 <= i < |ps| && Interpret(ps[i], dialect) == Ok(e);
      assert i > 0 ==> ps[1..][i - 1] == ps[i];
    }
  }

  lemma {:induction false} InterpretedAreAmong(ps: seq<RawPlaceholder>, dialect: Dialect, e: Expr)
    requires InterpretAll(ps, dialect).Ok?
    ensures e in InterpretAll(ps, dialect).value <==> IsAmong(ps, dialect, e)
  {
    hide Interpret, IsAmong;
    if ps == [] {
      NoneIsAmong(dialect, e);
    } else {
      FirstIsAmong(ps, dialect, e);
      InterpretedAreAmong(ps[1..], dialect, e);
    }
  }

  lemma NoneIsAmong(dialect: Dialect, e: Expr)
    ensures !IsAmong([], dialect, e)
  {
  }

  /** What is collected is exactly what is mentioned. */
  lemma {:induction false} CollectedIffMentioned(v: Value, dialect: Dialect, e: Expr)
    requires Collected(v, dialect).Ok?
    ensures e in Collected(v, dialect).value <==> IsMentioned(v, dialect, e)
    decreases v, 0
  {
    match v
    case Str(s) => InterpretedAreAmong(Placeholders(Parse(s).value), dialect, e);
    case Arr(items) => ItemsIffMentioned(items, dialect, e);
    case Obj(fields) => FieldsIffMentioned(fields, dialect, e);
    case _ =>
  }

  lemma {:induction false} ItemsIffMentioned(items: seq<Value>, dialect: Dialect, e: Expr)
    requires CollectedItems(items, dialect).Ok?
    ensures e in CollectedItems(items, dialect).value <==>
      exists i :: 0 <= i < |items| && IsMentioned(items[i], dialect, e)
    decreases items, 1
  {
    hide Collected, IsMentioned;
    if items != [] {
      CollectedIffMentioned(items[0], dialect, e);
      ItemsIffMentioned(items[1..], dialect, e);
      assert forall i :: 0 < i < |items| ==> items[i] == items[1..][i - 1];
    }
  }

  lemma {:induction false} FieldsIffMentioned(fields: seq<Field>, dialect: Dialect, e: Expr)
    requires CollectedFields(fields, dialect).Ok?
    ensures e in CollectedFields(fields, dialect).value <==>
      exists i :: 0 <= i < |fields| && IsMentioned(fields[i].value, dialect, e)
    decreases fields, 1
  {
    hide Collected, IsMentioned;
    if fields != [] {
      CollectedIffMentioned(fields[0].value, dialect, e);
      FieldsIffMentioned(fields[1..], dialect, e);
      assert forall i :: 0 < i < |fields| ==> fields[i] == fields[1..][i - 1];
    }
  }

  /** The two scopes answer alike for all that `v` mentions. */
  ghost predicate Agree(a: Resolver, b: Resolver, v: Value) {
    b == a.(scope := b.scope) && forall e :: IsMentioned(v, a.dialect, e) ==> a.scope(e) == b.scope(e)
  }

  lemma {:induction false} LookupsDependOnMentioned(ps: seq<RawPlaceholder>, a: Resolver, b: Resolver)
    requires b == a.(scope := b.scope) && forall e :: IsAmong(ps, a.dialect, e) ==> a.scope(e) == b.scope(e)
    ensures LookupAll(ps, a) == LookupAll(ps, b)
  {
    hide Interpret, IsAmong;
    if ps != [] {
      forall e
        ensures IsAmong(ps, a.dialect, e) <==> Interpret(ps[0], a.dialect) == Ok(e) || IsAmong(ps[1..], a.dialect, e)
      {
        FirstIsAmong(ps, a.dialect, e);
      }
      LookupsDependOnMentioned(ps[1..], a, b);
    }
  }

  /** Resolving reads nothing from the scope but the placeholders mentioned. */
  lemma {:induction false} ResolvingDependsOnMentioned(v: Value, a: Resolver, b: Resolver)
    requires Agree(a, b, v)
    ensures ResolveValue(v, a) == ResolveValue(v, b)
    decreases v, 0
  {
    match v
    case Str(s) =>
      if Parse(s).Ok? {
        LookupsDependOnMentioned(Placeholders(Parse(s).value), a, b);
      }
    case Arr(items) =>
      forall i | 0 <= i < |items| ensures Agree(a, b, items[i]) {
        assert forall e :: IsMentioned(items[i], a.dialect, e) ==> IsMentioned(v, a.dialect, e);
      }
      ItemsDependOnMentioned(items, a, b);
    case Obj(fields) =>
      forall i | 0 <= i < |fields| ensures Agree(a, b, fields[i].value) {
        assert forall e :: IsMentioned(fields[i].value, a.dialect, e) ==> IsMentioned(v, a.dialect, e);
      }
      FieldsDependOnMentioned(fields, a, b);
    case _ =>
  }

  lemma {:induction false} ItemsDependOnMentioned(items: seq<Value>, a: Resolver, b: Resolver)
    requires forall i :: 0 <= i < |items| ==> Agree(a, b, items[i])
    ensures ResolveItems(items, a) == ResolveItems(items, b)
    decreases items, 1
  {
    hide ResolveValue, Agree;
    if items != [] {
      ResolvingDependsOnMentioned(items[0], a, b);
      ItemsDependOnMentioned(items[1..], a, b);
    }
  }

  lemma {:induction false} FieldsDependOnMentioned(fields: seq<Field>, a: Resolver, b: Resolver)
    requires forall i :: 0 <= i < |fields| ==> Agree(a, b, fields[i].value)
    ensures ResolveFields(fields, a) == ResolveFields(fields, b)
    decreases fields, 1
  {
    hide ResolveValue, Agree;
    if fields != [] {
      ResolvingDependsOnMentioned(fields[0].value, a, b);
      FieldsDependOnMentioned(fields[1..], a, b);
    }
  }
}
