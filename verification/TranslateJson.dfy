/** Translating a whole workload: the recursion of `translate` in `crates/core/src/workload.rs`. */
module TranslateJson {
  import opened Basics
  import opened Catalog
  import opened Json
  import opened JsonPointer
  import opened Translate
  import Decimal
  import Template
  import Text

  /** What a workload's placeholders may refer to. */
  datatype Declared = Declared(resources: map<string, ResourceRequest>, types: seq<ResourceType>)

  /** A translated value, and the pointers of the strings in it that read a secret, in order. */
  datatype Rewritten = Rewritten(value: Value, secrets: seq<string>)

  datatype RewrittenItems = RewrittenItems(items: seq<Value>, secrets: seq<string>)

  datatype RewrittenFields = RewrittenFields(fields: seq<Field>, secrets: seq<string>)

  function TranslateText(s: string, pointer: string, w: Declared): Result<Rewritten, TranslateError> {
    match TranslateString(s, w.resources, w.types, IsSecretSink(pointer))
    case Err(e) => Err(e)
    case Ok(out) => Ok(Rewritten(Str(out.text), if out.secret then [pointer] else []))
  }

  function TranslateValue(v: Value, path: KeyPath, w: Declared): Result<Rewritten, TranslateError>
    decreases v, 0
  {
    match v
    case Str(s) => TranslateText(s, PointerTo(path), w)
    case Arr(items) =>
      var r := TranslateItems(items, 0, path, w);
      if r.Err? then Err(r.error) else Ok(Rewritten(Arr(r.value.items), r.value.secrets))
    case Obj(fields) =>
      var r := TranslateFields(fields, path, w);
      if r.Err? then Err(r.error) else Ok(Rewritten(Obj(r.value.fields), r.value.secrets))
    case _ => Ok(Rewritten(v, []))
  }

  /** Items from index `i` on. */
  function TranslateItems(items: seq<Value>, i: nat, path: KeyPath,
      w: Declared): (r: Result<RewrittenItems, TranslateError>)
    ensures r.Ok? ==> |r.value.items| == |items|
    decreases items, 1
  {
    if items == [] then Ok(RewrittenItems([], []))
    else
      var first := TranslateValue(items[0], path + [Decimal.Print(i)], w);
      if first.Err? then Err(first.error)
      else
        var rest := TranslateItems(items[1..], i + 1, path, w);
        if rest.Err? then rest
        else Ok(RewrittenItems([first.value.value] + rest.value.items, first.value.secrets + rest.value.secrets))
  }

  function TranslateFields(fields: seq<Field>, path: KeyPath, w: Declared): (r: Result<RewrittenFields, TranslateError>)
    ensures r.Ok? ==> |r.value.fields| == |fields|
    ensures r.Ok? ==> forall i :: 0 <= i < |fields| ==> r.value.fields[i].key == fields[i].key
    decreases fields, 1
  {
    if fields == [] then Ok(RewrittenFields([], []))
    else
      var first := TranslateValue(fields[0].value, path + [fields[0].key], w);
      if first.Err? then Err(first.error)
      else
        var rest := TranslateFields(fields[1..], path, w);
        if rest.Err? then rest
        else
          Ok(RewrittenFields([Field(fields[0].key, first.value.value)] + rest.value.fields,
                             first.value.secrets + rest.value.secrets))
  }

  // ---- Where secrets are read ----

  /** `${resources.<key>.<output>}` names an output that is declared secret. */
  predicate NamesSecret(p: Template.Part, w: Declared) {
    p.Placeholder? && p.raw.Root() == "resources" && IsDeclared(p.raw.segments, w.resources)
    && var ty := FindType(w.types, w.resources[p.raw.segments[1].Key().value].ty);
    ty.Some? && ty.value.KindOf(p.raw.segments[2].Key().value) == Some(SecretOutput)
  }

  /** Some placeholder of the string names a secret. */
  predicate ReadsSecret(s: string, w: Declared) {
    Template.Parse(s).Ok? && exists p :: p in Template.Parse(s).value && NamesSecret(p, w)
  }

  lemma PartIsSecret(p: Template.Part, w: Declared)
    requires TranslatePart(p, w.resources, w.types).Ok?
    ensures TranslatePart(p, w.resources, w.types).value.secret <==> NamesSecret(p, w)
  {
  }

  lemma {:induction false} PartsAreSecret(parts: seq<Template.Part>, w: Declared)
    requires TranslateParts(parts, w.resources, w.types).Ok?
    ensures TranslateParts(parts, w.resources, w.types).value.secret <==> exists p :: p in parts && NamesSecret(p, w)
  {
    hide TranslatePart, NamesSecret;
    if parts != [] {
      PartIsSecret(parts[0], w);
      PartsAreSecret(parts[1..], w);
      assert parts == [parts[0]] + parts[1..];
    }
  }

  lemma StringIsSecret(s: string, w: Declared, sink: bool)
    requires TranslateString(s, w.resources, w.types, sink).Ok?
    ensures TranslateString(s, w.resources, w.types, sink).value.secret <==> ReadsSecret(s, w)
    ensures ReadsSecret(s, w) ==> sink
  {
    hide Template.Parse, TranslateParts;
    var parts := Template.Parse(s).value;
    if !IsLiteral(parts) {
      PartsAreSecret(parts, w);
    }
  }

  /** A string at `q` inside `v` reads a secret. */
  ghost predicate ReadsSecretAt(v: Value, q: KeyPath, w: Declared)
    decreases v
  {
    match v
    case Str(s) => q == [] && ReadsSecret(s, w)
    case Arr(items) =>
      q != [] && exists i :: 0 <= i < |items| && q[0] == Decimal.Print(i) && ReadsSecretAt(items[i], q[1..], w)
    case Obj(fields) =>
      q != [] && exists i :: 0 <= i < |fields| && q[0] == fields[i].key && ReadsSecretAt(fields[i].value, q[1..], w)
    case _ => false
  }

  /** `p` points at such a string, below `path`. */
  ghost predicate PointsAtSecret(v: Value, path: KeyPath, w: Declared, p: string) {
    exists q :: ReadsSecretAt(v, q, w) && p == PointerTo(path + q)
  }

  ghost predicate ListsSecrets(secrets: seq<string>, v: Value, path: KeyPath, w: Declared) {
    && (forall p :: p in secrets ==> IsSecretSink(p))
    && (forall p :: p in secrets <==> PointsAtSecret(v, path, w, p))
  }

  lemma TextListsSecrets(s: string, path: KeyPath, w: Declared)
    requires TranslateText(s, PointerTo(path), w).Ok?
    ensures ListsSecrets(TranslateText(s, PointerTo(path), w).value.secrets, Str(s), path, w)
  {
    hide TranslateString, IsSecretSink, PointerTo, ReadsSecret;
    var p := PointerTo(path);
    StringIsSecret(s, w, IsSecretSink(p));
    assert path + [] == path;
    if ReadsSecret(s, w) {
      assert ReadsSecretAt(Str(s), [], w);
      assert PointsAtSecret(Str(s), path, w, p);
    }
  }

  /**
   The pointers listed are exactly those of the strings that read a secret, and
   all of them are secret sinks.
   */
  lemma {:induction false} SecretsAreListed(v: Value, path: KeyPath, w: Declared)
    requires TranslateValue(v, path, w).Ok?
    ensures ListsSecrets(TranslateValue(v, path, w).value.secrets, v, path, w)
    decreases v, 0
  {
    match v
    case Str(s) => TextListsSecrets(s, path, w);
    case Arr(items) =>
      ItemsAreListed(items, 0, path, w);
      forall p ensures ItemPoints(items, 0, path, w, p) <==> PointsAtSecret(v, path, w, p) {
        ArrayPoints(items, path, w, p);
      }
    case Obj(fields) =>
      FieldsAreListed(fields, path, w);
      forall p ensures FieldPoints(fields, path, w, p) <==> PointsAtSecret(v, path, w, p) {
        ObjectPoints(fields, path, w, p);
      }
    case _ =>
  }

  ghost predicate ItemPoints(items: seq<Value>, i: nat, path: KeyPath, w: Declared, p: string) {
    exists k :: 0 <= k < |items| && PointsAtSecret(items[k], path + [Decimal.Print(i + k)], w, p)
  }

  ghost predicate FieldPoints(fields: seq<Field>, path: KeyPath, w: Declared, p: string) {
    exists k :: 0 <= k < |fields| && PointsAtSecret(fields[k].value, path + [fields[k].key], w, p)
  }

  lemma ArrayPoints(items: seq<Value>, path: KeyPath, w: Declared, p: string)
    ensures ItemPoints(items, 0, path, w, p) <==> PointsAtSecret(Arr(items), path, w, p)
  {
    hide PointerTo, ReadsSecretAt;
    if ItemPoints(items, 0, path, w, p) {
      var k :| 0 <= k < |items| && PointsAtSecret(items[k], path + [Decimal.Print(0 + k)], w, p);
      var key := Decimal.Print(k);
      var q :| ReadsSecretAt(items[k], q, w) && p == PointerTo(path + [key] + q);
      Below(path, key, q);
      ItemReads(items, k, q, w);
    }
    if PointsAtSecret(Arr(items), path, w, p) {
      var q :| ReadsSecretAt(Arr(items), q, w) && p == PointerTo(path + q);
      var k := ArrayReads(items, q, w);
      Below(path, q[0], q[1..]);
      assert q == [q[0]] + q[1..];
      assert PointsAtSecret(items[k], path + [Decimal.Print(0 + k)], w, p);
    }
  }

  lemma ItemReads(items: seq<Value>, k: nat, q: KeyPath, w: Declared)
    requires k < |items| && ReadsSecretAt(items[k], q, w)
    ensures ReadsSecretAt(Arr(items), [Decimal.Print(k)] + q, w)
  {
    assert ([Decimal.Print(k)] + q)[1..] == q;
  }

  lemma ArrayReads(items: seq<Value>, q: KeyPath, w: Declared) returns (k: nat)
    requires ReadsSecretAt(Arr(items), q, w)
    ensures q != [] && k < |items| && q[0] == Decimal.Print(k) && ReadsSecretAt(items[k], q[1..], w)
  {
    k :| 0 <= k < |items| && q[0] == Decimal.Print(k) && ReadsSecretAt(items[k], q[1..], w);
  }

  lemma ObjectPoints(fields: seq<Field>, path: KeyPath, w: Declared, p: string)
    ensures FieldPoints(fields, path, w, p) <==> PointsAtSecret(Obj(fields), path, w, p)
  {
    hide PointerTo, ReadsSecretAt;
    if FieldPoints(fields, path, w, p) {
      var k :| 0 <= k < |fields| && PointsAtSecret(fields[k].value, path + [fields[k].key], w, p);
      var q :| ReadsSecretAt(fields[k].value, q, w) && p == PointerTo(path + [fields[k].key] + q);
      Below(path, fields[k].key, q);
      FieldReads(fields, k, q, w);
    }
    if PointsAtSecret(Obj(fields), path, w, p) {
      var q :| ReadsSecretAt(Obj(fields), q, w) && p == PointerTo(path + q);
      var k := ObjectReads(fields, q, w);
      Below(path, q[0], q[1..]);
      assert q == [q[0]] + q[1..];
      assert PointsAtSecret(fields[k].value, path + [fields[k].key], w, p);
    }
  }

  lemma FieldReads(fields: seq<Field>, k: nat, q: KeyPath, w: Declared)
    requires k < |fields| && ReadsSecretAt(fields[k].value, q, w)
    ensures ReadsSecretAt(Obj(fields), [fields[k].key] + q, w)
  {
    assert ([fields[k].key] + q)[1..] == q;
  }

  lemma ObjectReads(fields: seq<Field>, q: KeyPath, w: Declared) returns (k: nat)
    requires ReadsSecretAt(Obj(fields), q, w)
    ensures q != [] && k < |fields| && q[0] == fields[k].key && ReadsSecretAt(fields[k].value, q[1..], w)
  {
    k :| 0 <= k < |fields| && q[0] == fields[k].key && ReadsSecretAt(fields[k].value, q[1..], w);
  }

  lemma Below(path: KeyPath, key: string, q: KeyPath)
    ensures path + [key] + q == path + ([key] + q)
    ensures ([key] + q)[0] == key && ([key] + q)[1..] == q
  {
  }

  lemma {:induction false} ItemsAreListed(items: seq<Value>, i: nat, path: KeyPath, w: Declared)
    requires TranslateItems(items, i, path, w).Ok?
    ensures var secrets := TranslateItems(items, i, path, w).value.secrets;
      && (forall p :: p in secrets ==> IsSecretSink(p))
      && (forall p :: p in secrets <==> ItemPoints(items, i, path, w, p))
    decreases items, 1
  {
    hide TranslateValue, PointsAtSecret, IsSecretSink;
    if items != [] {
      SecretsAreListed(items[0], path + [Decimal.Print(i)], w);
      ItemsAreListed(items[1..], i + 1, path, w);
      forall p ensures ItemPoints(items, i, path, w, p) <==>
        PointsAtSecret(items[0], path + [Decimal.Print(i)], w, p) || ItemPoints(items[1..], i + 1, path, w, p)
      {
        FirstItemPoints(items, i, path, w, p);
      }
    }
  }

  lemma FirstItemPoints(items: seq<Value>, i: nat, path: KeyPath, w: Declared, p: string)
    requires items != []
    ensures ItemPoints(items, i, path, w, p) <==>
      PointsAtSecret(items[0], path + [Decimal.Print(i)], w, p) || ItemPoints(items[1..], i + 1, path, w, p)
  {
    hide PointsAtSecret;
    var rest := items[1..];
    assert i + 0 == i;
    if ItemPoints(items, i, path, w, p) {
      var k :| 0 <= k < |items| && PointsAtSecret(items[k], path + [Decimal.Print(i + k)], w, p);
      assert k > 0 ==> rest[k - 1] == items[k] && i + 1 + (k - 1) == i + k;
    }
    if ItemPoints(rest, i + 1, path, w, p) {
      var k :| 0 <= k < |rest| && PointsAtSecret(rest[k], path + [Decimal.Print(i + 1 + k)], w, p);
      assert rest[k] == items[k + 1] && i + 1 + k == i + (k + 1);
      assert PointsAtSecret(items[k + 1], path + [Decimal.Print(i + (k + 1))], w, p);
    }
    if PointsAtSecret(items[0], path + [Decimal.Print(i)], w, p) {
      assert PointsAtSecret(items[0], path + [Decimal.Print(i + 0)], w, p);
    }
  }

  lemma {:induction false} FieldsAreListed(fields: seq<Field>, path: KeyPath, w: Declared)
    requires TranslateFields(fields, path, w).Ok?
    ensures var secrets := TranslateFields(fields, path, w).value.secrets;
      && (forall p :: p in secrets ==> IsSecretSink(p))
      && (forall p :: p in secrets <==> FieldPoints(fields, path, w, p))
    decreases fields, 1
  {
    hide TranslateValue, PointsAtSecret, IsSecretSink;
    if fields != [] {
      SecretsAreListed(fields[0].value, path + [fields[0].key], w);
      FieldsAreListed(fields[1..], path, w);
      forall p ensures FieldPoints(fields, path, w, p) <==>
        PointsAtSecret(fields[0].value, path + [fields[0].key], w, p) || FieldPoints(fields[1..], path, w, p)
      {
        FirstFieldPoints(fields, path, w, p);
      }
    }
  }

  lemma FirstFieldPoints(fields: seq<Field>, path: KeyPath, w: Declared, p: string)
    requires fields != []
    ensures FieldPoints(fields, path, w, p) <==>
      PointsAtSecret(fields[0].value, path + [fields[0].key], w, p) || FieldPoints(fields[1..], path, w, p)
  {
    hide PointsAtSecret;
    var rest := fields[1..];
    if FieldPoints(fields, path, w, p) {
      var k :| 0 <= k < |fields| && PointsAtSecret(fields[k].value, path + [fields[k].key], w, p);
      assert k > 0 ==> rest[k - 1] == fields[k];
    }
    if FieldPoints(rest, path, w, p) {
      var k :| 0 <= k < |rest| && PointsAtSecret(rest[k].value, path + [rest[k].key], w, p);
      assert rest[k] == fields[k + 1];
    }
  }

  // ---- A whole spec ----

  const SPEC_KEYS: set<string> :=
    {"containers", "function", "service", "triggers", "deploy", "target", "annotations"}

  /** The spec a workload is converted to. */
  predicate IsSpec(v: Value) {
    v.Obj? && forall i :: 0 <= i < |v.fields| ==> v.fields[i].key in SPEC_KEYS
  }

  /** `q` leads to a string inside `v`. */
  ghost predicate HasStringAt(v: Value, q: KeyPath)
    decreases v
  {
    match v
    case Str(_) => q == []
    case Arr(items) =>
      q != [] && exists i :: 0 <= i < |items| && q[0] == Decimal.Print(i) && HasStringAt(items[i], q[1..])
    case Obj(fields) =>
      q != [] && exists i :: 0 <= i < |fields| && q[0] == fields[i].key && HasStringAt(fields[i].value, q[1..])
    case _ => false
  }

  /** In a spec, the pointer of a string is taken for a secret sink exactly when its path is one. */
  lemma SpecSinksAreRight(v: Value, q: KeyPath)
    requires IsSpec(v) && HasStringAt(v, q)
    ensures IsSecretSink(PointerTo(q)) <==> IsSinkPath(q)
  {
    hide IsSecretSink, PointerTo, IsSinkPath;
    NoKeyIsEmpty();
    SinkTestIsRightIff(q);
  }

  lemma NoKeyIsEmpty()
    ensures "" !in SPEC_KEYS
  {
  }

  lemma {:induction false} SecretIsInString(v: Value, q: KeyPath, w: Declared)
    requires ReadsSecretAt(v, q, w)
    ensures HasStringAt(v, q)
    decreases v
  {
    hide ReadsSecret;
    match v
    case Arr(items) =>
      var k := ArrayReads(items, q, w);
      SecretIsInString(items[k], q[1..], w);
    case Obj(fields) =>
      var k := ObjectReads(fields, q, w);
      SecretIsInString(fields[k].value, q[1..], w);
    case _ =>
  }

  /**
   A spec that translates reads secrets in variables and file content only, and
   the pointers listed are exactly those of the strings that read one.
   */
  lemma SpecSecretsAreListed(v: Value, w: Declared)
    requires IsSpec(v) && TranslateValue(v, [], w).Ok?
    ensures forall q :: ReadsSecretAt(v, q, w) ==> IsSinkPath(q)
    ensures forall q :: PointerTo(q) in TranslateValue(v, [], w).value.secrets <==> ReadsSecretAt(v, q, w)
  {
    hide TranslateValue, IsSecretSink, PointerTo, IsSinkPath, ReadsSecretAt, HasStringAt;
    SecretsAreListed(v, [], w);
    var secrets := TranslateValue(v, [], w).value.secrets;
    forall q ensures PointerTo(q) in secrets <==> ReadsSecretAt(v, q, w)
      ensures ReadsSecretAt(v, q, w) ==> IsSinkPath(q)
    {
      assert [] + q == q;
      if ReadsSecretAt(v, q, w) {
        assert PointsAtSecret(v, [], w, PointerTo(q));
        SecretIsInString(v, q, w);
        SpecSinksAreRight(v, q);
      }
      if PointerTo(q) in secrets {
        var r :| ReadsSecretAt(v, r, w) && PointerTo(q) == PointerTo([] + r);
        assert [] + r == r;
        PointerIsInjective(q, r);
      }
    }
  }

  // ---- Rewriting in place ----

  /** `translate`: the rewritten value, and the secret pointers after those in `before`. */
  method TranslateInto(v: Value, ghost path: KeyPath, pointer: string, w: Declared, before: seq<string>)
    returns (r: Result<Value, TranslateError>, secrets: seq<string>)
    requires pointer == PointerTo(path)
    ensures TranslateValue(v, path, w).Err? ==> r == Err(TranslateValue(v, path, w).error)
    ensures TranslateValue(v, path, w).Ok? ==>
      r == Ok(TranslateValue(v, path, w).value.value) && secrets == before + TranslateValue(v, path, w).value.secrets
    decreases v, 1
  {
    secrets := before;
    match v {
      case Str(s) =>
        var out := TranslateOne(s, pointer, w);
        if out.Err? {
          return Err(out.error), secrets;
        }
        r, secrets := Ok(out.value.value), secrets + out.value.secrets;
      case Arr(items) =>
        var rewritten;
        rewritten, secrets := TranslateAll(items, path, pointer, w, before);
        r := if rewritten.Err? then Err(rewritten.error) else Ok(Arr(rewritten.value));
      case Obj(fields) =>
        var rewritten;
        rewritten, secrets := TranslateMembers(fields, path, pointer, w, before);
        r := if rewritten.Err? then Err(rewritten.error) else Ok(Obj(rewritten.value));
      case _ => r := Ok(v);
    }
  }

  /** One string: its parts are written out again, and a secret is refused outside a sink. */
  method TranslateOne(s: string, pointer: string, w: Declared) returns (r: Result<Rewritten, TranslateError>)
    ensures r == TranslateText(s, pointer, w)
  {
    hide Template.Parse, TranslateParts, IsSecretSink;
    var template := Template.ParseTemplate(s);
    if template.Err? {
      return Err(InvalidSyntax);
    }
    if IsLiteral(template.value) {
      return Ok(Rewritten(Str(s), []));
    }
    var out := WriteTranslated(template.value, w.resources, w.types);
    if out.Err? {
      return Err(out.error);
    }
    if out.value.secret {
      if !IsSecretSink(pointer) {
        return Err(SecretInPlainField);
      }
      return Ok(Rewritten(Str(out.value.text), [pointer]));
    }
    return Ok(Rewritten(Str(out.value.text), []));
  }

  /** The items done, then the rest. */
  ghost predicate IsAfterItems(whole: Result<RewrittenItems, TranslateError>, done: seq<Value>, secrets: seq<string>,
    rest: Result<RewrittenItems, TranslateError>, before: seq<string>)
  {
    if rest.Err? then whole == rest
    else
      && whole.Ok? && whole.value.items == done + rest.value.items
      && before + whole.value.secrets == secrets + rest.value.secrets
  }

  method TranslateAll(items: seq<Value>, ghost path: KeyPath, pointer: string, w: Declared, before: seq<string>)
    returns (r: Result<seq<Value>, TranslateError>, secrets: seq<string>)
    requires pointer == PointerTo(path)
    ensures TranslateItems(items, 0, path, w).Err? ==> r == Err(TranslateItems(items, 0, path, w).error)
    ensures TranslateItems(items, 0, path, w).Ok? ==>
      r == Ok(TranslateItems(items, 0, path, w).value.items) &&
        secrets == before + TranslateItems(items, 0, path, w).value.secrets
    decreases items, 0
  {
    hide TranslateValue, PointerTo, EscapeKey;
    var out: seq<Value> := [];
    secrets := before;
    ghost var whole := TranslateItems(items, 0, path, w);
    assert items[0..] == items;
    assert whole.Ok? ==> [] + whole.value.items == whole.value.items;
    for i := 0 to |items|
      invariant IsAfterItems(whole, out, secrets, TranslateItems(items[i..], i, path, w), before)
    {
      assert items[i..][0] == items[i] && items[i..][1..] == items[i + 1..];
      var key := Decimal.Print(i);
      ChildPointer(path, key);
      var item, more := TranslateInto(items[i], path + [key], pointer + "/" + key, w, secrets);
      if item.Err? {
        return Err(item.error), more;
      }
      ItemDone(whole, out, secrets, items, i, path, w, before);
      out, secrets := out + [item.value], more;
    }
    assert items[|items|..] == [] && out + [] == out && secrets + [] == secrets;
    r := Ok(out);
  }

  lemma ItemDone(whole: Result<RewrittenItems, TranslateError>, done: seq<Value>, secrets: seq<string>,
    items: seq<Value>, i: nat, path: KeyPath, w: Declared, before: seq<string>)
    requires i < |items| && IsAfterItems(whole, done, secrets, TranslateItems(items[i..], i, path, w), before)
    requires TranslateValue(items[i], path + [Decimal.Print(i)], w).Ok?
    ensures var first := TranslateValue(items[i], path + [Decimal.Print(i)], w).value;
      IsAfterItems(whole, done + [first.value], secrets + first.secrets,
        TranslateItems(items[i + 1..], i + 1, path, w), before)
  {
    hide TranslateValue;
    assert items[i..][0] == items[i] && items[i..][1..] == items[i + 1..];
    var first := TranslateValue(items[i], path + [Decimal.Print(i)], w).value;
    var rest := TranslateItems(items[i + 1..], i + 1, path, w);
    if rest.Ok? {
      Text.Associative(done, [first.value], rest.value.items);
      Text.Associative(secrets, first.secrets, rest.value.secrets);
    }
  }

  /** An index needs no escaping. */
  lemma ChildPointer(path: KeyPath, key: string)
    requires Decimal.AllDigits(key)
    ensures PointerTo(path + [key]) == PointerTo(path) + "/" + key
  {
    assert (path + [key])[..|path|] == path;
    EscapeKeyEscapes(key);
    PlainKey(key);
  }

  ghost predicate IsAfterFields(whole: Result<RewrittenFields, TranslateError>, done: seq<Field>, secrets: seq<string>,
    rest: Result<RewrittenFields, TranslateError>, before: seq<string>)
  {
    if rest.Err? then whole == rest
    else
      && whole.Ok? && whole.value.fields == done + rest.value.fields
      && before + whole.value.secrets == secrets + rest.value.secrets
  }

  method TranslateMembers(fields: seq<Field>, ghost path: KeyPath, pointer: string, w: Declared, before: seq<string>)
    returns (r: Result<seq<Field>, TranslateError>, secrets: seq<string>)
    requires pointer == PointerTo(path)
    ensures TranslateFields(fields, path, w).Err? ==> r == Err(TranslateFields(fields, path, w).error)
    ensures TranslateFields(fields, path, w).Ok? ==>
      r == Ok(TranslateFields(fields, path, w).value.fields) &&
        secrets == before + TranslateFields(fields, path, w).value.secrets
    decreases fields, 0
  {
    hide TranslateValue, PointerTo, EscapeKey;
    var out: seq<Field> := [];
    secrets := before;
    ghost var whole := TranslateFields(fields, path, w);
    assert fields[0..] == fields;
    assert whole.Ok? ==> [] + whole.value.fields == whole.value.fields;
    for i := 0 to |fields|
      invariant IsAfterFields(whole, out, secrets, TranslateFields(fields[i..], path, w), before)
    {
      assert fields[i..][0] == fields[i] && fields[i..][1..] == fields[i + 1..];
      MemberPointer(path, fields[i].key);
      var item, more := TranslateInto(fields[i].value, path + [fields[i].key],
        pointer + "/" + EscapeKey(fields[i].key), w, secrets);
      if item.Err? {
        return Err(item.error), more;
      }
      FieldDone(whole, out, secrets, fields, i, path, w, before);
      out, secrets := out + [Field(fields[i].key, item.value)], more;
    }
    assert fields[|fields|..] == [] && out + [] == out && secrets + [] == secrets;
    r := Ok(out);
  }

  lemma MemberPointer(path: KeyPath, key: string)
    ensures PointerTo(path + [key]) == PointerTo(path) + "/" + EscapeKey(key)
  {
    assert (path + [key])[..|path|] == path;
  }

  lemma FieldDone(whole: Result<RewrittenFields, TranslateError>, done: seq<Field>, secrets: seq<string>,
    fields: seq<Field>, i: nat, path: KeyPath, w: Declared, before: seq<string>)
    requires i < |fields| && IsAfterFields(whole, done, secrets, TranslateFields(fields[i..], path, w), before)
    requires TranslateValue(fields[i].value, path + [fields[i].key], w).Ok?
    ensures var first := TranslateValue(fields[i].value, path + [fields[i].key], w).value;
      IsAfterFields(whole, done + [Field(fields[i].key, first.value)], secrets + first.secrets,
        TranslateFields(fields[i + 1..], path, w), before)
  {
    hide TranslateValue;
    assert fields[i..][0] == fields[i] && fields[i..][1..] == fields[i + 1..];
    var first := TranslateValue(fields[i].value, path + [fields[i].key], w).value;
    var rest := TranslateFields(fields[i + 1..], path, w);
    if rest.Ok? {
      Text.Associative(done, [Field(fields[i].key, first.value)], rest.value.fields);
      Text.Associative(secrets, first.secrets, rest.value.secrets);
    }
  }
}
