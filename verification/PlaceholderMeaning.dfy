/** What each placeholder text means: the context keys, and the fields of a resource. */
module PlaceholderMeaning {
  import opened Basics
  import opened Ids
  import opened Json
  import opened Text
  import opened Template
  import opened TemplateLaws
  import opened PathLaws
  import opened Placeholder
  import opened Resolve

  // ---- A text that is one placeholder ----

  /** Segments that a text can print and that leave no quote or brace open. */
  ghost predicate IsPlainPath(segs: seq<Segment>) {
    AllPrintable(segs) && SingleQuoteFree(segs) && BraceFree(segs)
  }

  ghost predicate IsPlainRoot(root: string) {
    IsName(root) && QuoteFree(root) && '}' !in root
  }

  function Body(root: string, segs: seq<Segment>): string {
    root + PathText(segs)
  }

  function RawOf(root: string, segs: seq<Segment>): RawPlaceholder {
    RawPlaceholder("${" + Body(root, segs) + "}", [Name(root)] + segs)
  }

  lemma BodyReads(root: string, segs: seq<Segment>)
    requires IsPlainRoot(root) && IsPlainPath(segs)
    ensures Path(Body(root, segs)) == Ok([Name(root)] + segs) && Scans(Body(root, segs))
  {
    hide Path, Scan, PathText;
    RootedPathReads(root, segs);
    PlainCloses(segs);
    PathOpens(segs, None);
    PlainScans(root);
    ScanJoins(root, PathText(segs), None);
  }

  lemma TextParses(root: string, segs: seq<Segment>)
    requires IsPlainRoot(root) && IsPlainPath(segs)
    ensures Parse("${" + Body(root, segs) + "}") == Ok([Part.Placeholder(RawOf(root, segs))])
  {
    hide Path, Scan, Parse, Body, IsPlainRoot, IsPlainPath;
    var raw := RawOf(root, segs);
    var parts := [Part.Placeholder(raw)];
    BodyReads(root, segs);
    assert WellFormedAt(parts, 0);
    ParseInvertsPrint(parts);
    assert parts[1..] == [] && Print(parts) == raw.text + "" == raw.text;
  }

  /** What a string that is one placeholder becomes, given what the scope holds for it. */
  ghost function Shown(found: Option<Lookup>, sink: Sink): Result<Resolved, ErrorKind> {
    match found
    case None => Err(Unresolvable)
    case Some(Plain(v)) => Ok(Done(v))
    case Some(Secret(r)) => if sink == PlainSink then Err(SecretInNonSecret) else Ok(Deferred([SecretText(r)]))
  }

  /** A whole placeholder becomes exactly what the scope holds for it: a value with its type, or a secret. */
  lemma WholeIsShown(root: string, segs: seq<Segment>, c: Resolver)
    requires IsPlainRoot(root) && IsPlainPath(segs)
    ensures ResolveString("${" + Body(root, segs) + "}", c) ==
      match Interpret(RawOf(root, segs), c.dialect)
      case Err(e) => Err(e)
      case Ok(expr) => Shown(c.scope(expr), c.sink)
  {
    hide Parse, Interpret, IsPlainRoot, IsPlainPath, Body;
    TextParses(root, segs);
    var raw := RawOf(root, segs);
    var parts := [Part.Placeholder(raw)];
    OnePlaceholder(raw);
    OneLookup(raw, c);
    assert IsWhole(parts);
  }

  lemma OnePlaceholder(raw: RawPlaceholder)
    ensures Placeholders([Part.Placeholder(raw)]) == [raw]
  {
    assert [Part.Placeholder(raw)][1..] == [];
  }

  lemma OneLookup(raw: RawPlaceholder, c: Resolver)
    ensures LookupAll([raw], c) ==
      match LookupPlaceholder(raw, c) { case Err(e) => Err(e) case Ok(found) => Ok([found]) }
  {
    hide LookupPlaceholder;
    assert [raw][1..] == [] && LookupAll([], c) == Ok([]);
    if LookupPlaceholder(raw, c).Ok? {
      assert [LookupPlaceholder(raw, c).value] + [] == [LookupPlaceholder(raw, c).value];
    }
  }

  // ---- Placeholders inside a longer text ----

  lemma SurroundedParses(a: string, raw: RawPlaceholder, b: string)
    requires '$' !in a && '$' !in b && a != "" && b != "" && WellFormedPlaceholder(raw)
    ensures Parse(a + (raw.text + b)) == Ok([Literal(a), Part.Placeholder(raw), Literal(b)])
  {
    hide Parse, WellFormedPlaceholder;
    var parts := [Literal(a), Part.Placeholder(raw), Literal(b)];
    assert WellFormedAt(parts, 0) && WellFormedAt(parts, 1) && WellFormedAt(parts, 2);
    ParseInvertsPrint(parts);
    PlainStays(a);
    PlainStays(b);
    assert parts[1..] == [Part.Placeholder(raw), Literal(b)] && parts[1..][1..] == [Literal(b)];
    assert [Literal(b)][1..] == [] && Print([Literal(b)]) == b + "" == b;
  }

  /** A value inside a longer text is inserted as text, and a secret stays apart from the text around it. */
  ghost function Inserted(a: string, found: Lookup, b: string, show: Value -> string): Resolved {
    match found
    case Plain(Str(s)) => Done(Str(a + s + b))
    case Plain(v) => Done(Str(a + show(v) + b))
    case Secret(r) => Deferred([LiteralText(a), SecretText(r), LiteralText(b)])
  }

  lemma LastMix(b: string, expr: SecretExpr, show: Value -> string)
    ensures Placeholders([Literal(b)]) == [] && Mix([Literal(b)], [], expr, show) == PushLiteral(expr, b)
  {
    assert [Literal(b)][1..] == [];
  }

  lemma MiddleMix(raw: RawPlaceholder, b: string, found: Lookup, expr: SecretExpr, show: Value -> string)
    ensures Placeholders([Part.Placeholder(raw), Literal(b)]) == [raw]
    ensures Mix([Part.Placeholder(raw), Literal(b)], [found], expr, show) == PushLiteral(
      if found.Plain? then PushLiteral(expr, TextOf(found.value, show)) else expr + [SecretText(found.secret)], b)
  {
    hide PushLiteral;
    var parts := [Part.Placeholder(raw), Literal(b)];
    assert parts[1..] == [Literal(b)] && [found][1..] == [];
    var next :=
      if found.Plain? then PushLiteral(expr, TextOf(found.value, show)) else expr + [SecretText(found.secret)];
    LastMix(b, next, show);
    assert [raw] + [] == [raw];
  }

  lemma SurroundedMix(a: string, raw: RawPlaceholder, b: string, found: Lookup, show: Value -> string)
    requires a != "" && b != ""
    ensures Placeholders([Literal(a), Part.Placeholder(raw), Literal(b)]) == [raw]
    ensures Mix([Literal(a), Part.Placeholder(raw), Literal(b)], [found], [], show) ==
      if found.Plain? then [LiteralText(a + TextOf(found.value, show) + b)]
      else [LiteralText(a), SecretText(found.secret), LiteralText(b)]
  {
    var parts := [Literal(a), Part.Placeholder(raw), Literal(b)];
    assert parts[1..] == [Part.Placeholder(raw), Literal(b)];
    assert PushLiteral([], a) == [LiteralText(a)];
    MiddleMix(raw, b, found, [LiteralText(a)], show);
  }

  lemma OneText(text: string)
    ensures !HasSecret([LiteralText(text)]) && RenderText([LiteralText(text)], NoSecret) == text
  {
    assert [LiteralText(text)][..0] == [] && "" + text == text;
  }

  lemma SurroundedMixes(a: string, raw: RawPlaceholder, b: string, found: Lookup, show: Value -> string)
    requires a != "" && b != ""
    ensures Placeholders([Literal(a), Part.Placeholder(raw), Literal(b)]) == [raw]
    ensures ResolveParts([Literal(a), Part.Placeholder(raw), Literal(b)], [found], show) == Inserted(a, found, b, show)
  {
    hide Mix, RenderText;
    SurroundedMix(a, raw, b, found, show);
    if found.Plain? {
      OneText(a + TextOf(found.value, show) + b);
    } else {
      assert [LiteralText(a), SecretText(found.secret), LiteralText(b)][1].SecretText?;
    }
  }

  /** A placeholder inside a longer text: what the text becomes. */
  lemma SurroundedIsInserted(a: string, root: string, segs: seq<Segment>, b: string, c: Resolver)
    requires IsPlainRoot(root) && IsPlainPath(segs) && '$' !in a && '$' !in b && a != "" && b != ""
    ensures ResolveString(a + ("${" + Body(root, segs) + "}" + b), c) ==
      match LookupPlaceholder(RawOf(root, segs), c)
      case Err(e) => Err(e)
      case Ok(found) => Ok(Inserted(a, found, b, c.show))
  {
    hide Parse, IsPlainRoot, IsPlainPath, Body, Path, Scan, LookupPlaceholder, ResolveParts, Inserted, Placeholders;
    var raw := RawOf(root, segs);
    BodyReads(root, segs);
    assert WellFormedPlaceholder(raw);
    SurroundedParses(a, raw, b);
    OneLookup(raw, c);
    var found := LookupPlaceholder(raw, c);
    SurroundedMixes(a, raw, b, if found.Ok? then found.value else Plain(Null), c.show);
  }

  // ---- The context ----

  /** The paths of the context, and what each stands for. */
  const CONTEXT_TEXTS: seq<(string, ContextKey)> := [
    ("org.id", OrgId), ("app.id", AppId), ("env.id", EnvId), ("env.type", EnvType),
    ("res.id", ResId), ("res.class", ResClass), ("res.type", ResType), ("res.guresid", ResGuresid),
    ("deploy.id", DeployId), ("deploy.set.id", DeploySetId)]

  lemma JoinTwo(a: string, b: string)
    ensures Join([a, b], ".") == a + "." + b
  {
    assert [a, b][1..] == [b];
  }

  lemma JoinThree(a: string, b: string, c: string)
    ensures Join([a, b, c], ".") == a + "." + b + "." + c
  {
    assert [a, b, c][1..] == [b, c];
    JoinTwo(b, c);
    assert a + "." + (b + "." + c) == a + "." + b + "." + c;
  }

  lemma PathIs(i: nat)
    requires i < 10
    ensures |CONTEXT_PATHS| == 10
    ensures Join(CONTEXT_PATHS[i].0, ".") == CONTEXT_TEXTS[i].0 && CONTEXT_PATHS[i].1 == CONTEXT_TEXTS[i].1
  {
    hide Join;
    if i == 9 {
      JoinThree("deploy", "set", "id");
    } else {
      JoinTwo(CONTEXT_PATHS[i].0[0], CONTEXT_PATHS[i].0[1]);
    }
  }

  lemma TextsDiffer(i: nat, j: nat)
    requires i < j < 10
    ensures CONTEXT_TEXTS[i].0 != CONTEXT_TEXTS[j].0
  {
    var a, b := CONTEXT_TEXTS[i].0, CONTEXT_TEXTS[j].0;
    assert a[0] != b[0] || a[4] != b[4] || a[7] != b[7];
  }

  lemma {:induction false} ContextFrom(path: seq<string>, from: nat, key: ContextKey)
    requires from <= 10 == |CONTEXT_PATHS|
    ensures ContextOf(path, from) == Some(key) <==> (Join(path, "."), key) in CONTEXT_TEXTS[from..]
    decreases 10 - from
  {
    hide Join;
    if from < 10 {
      PathIs(from);
      ContextFrom(path, from + 1, key);
      assert CONTEXT_TEXTS[from..] == [CONTEXT_TEXTS[from]] + CONTEXT_TEXTS[from + 1..];
      if Join(path, ".") == CONTEXT_TEXTS[from].0 && (Join(path, "."), key) in CONTEXT_TEXTS[from + 1..] {
        var j :| 0 <= j < |CONTEXT_TEXTS[from + 1..]| && CONTEXT_TEXTS[from + 1..][j] == (Join(path, "."), key);
        TextsDiffer(from, from + 1 + j);
      }
    }
  }

  lemma {:induction false} NamesText(segs: seq<Segment>)
    requires segs != [] && Names(segs).Some?
    ensures PathText(segs) == "." + Join(Names(segs).value, ".")
  {
    var names := Names(segs).value;
    if |segs| == 1 {
      assert segs[1..] == [] && PathText(segs) == "." + names[0] + "";
    } else {
      NamesText(segs[1..]);
      assert Names(segs[1..]).value == names[1..];
      hide Names;
      var rest := Join(names[1..], ".");
      assert PathText(segs) == "." + names[0] + ("." + rest);
      Associative("." + names[0], ".", rest);
      Associative(".", names[0], ".");
      Associative(".", names[0] + ".", rest);
    }
  }

  lemma WordsArePlain(i: nat)
    requires i < |CONTEXT_PATHS|
    ensures CONTEXT_PATHS[i].0 != []
    ensures forall j :: 0 <= j < |CONTEXT_PATHS[i].0| ==> IsName(CONTEXT_PATHS[i].0[j]) && '}' !in CONTEXT_PATHS[i].0[j]
  {
  }

  /** The segments of a context path. */
  lemma ContextSegments(i: nat) returns (segs: seq<Segment>)
    requires i < 10
    ensures IsPlainPath(segs) && segs != [] && Names(segs).Some?
    ensures Join(Names(segs).value, ".") == CONTEXT_TEXTS[i].0 && PathText(segs) == "." + CONTEXT_TEXTS[i].0
  {
    hide Join, IsName, PathText;
    PathIs(i);
    WordsArePlain(i);
    var path := CONTEXT_PATHS[i].0;
    segs := seq(|path|, j requires 0 <= j < |path| => Name(path[j]));
    assert Names(segs).value == path;
    NamesText(segs);
  }

  lemma {:induction false} SameTextSamePath(a: seq<Segment>, b: seq<Segment>)
    requires AllPrintable(a) && AllPrintable(b) && PathText(a) == PathText(b)
    ensures a == b
  {
    PathReads(a);
    PathReads(b);
  }

  /** The path reads as one of the ten texts. */
  ghost predicate IsContextPath(path: seq<Segment>, i: nat)
    requires i < 10
  {
    PathText(path) == "." + CONTEXT_TEXTS[i].0
  }

  lemma ContextHasText(segs: seq<Segment>, key: ContextKey)
    requires Names(segs).Some? && ContextOf(Names(segs).value, 0) == Some(key)
    ensures exists i :: 0 <= i < 10 && IsContextPath(segs, i) && CONTEXT_TEXTS[i].1 == key
  {
    hide PathText, Join, ContextOf, Names;
    var path := Names(segs).value;
    PathIs(0);
    ContextFrom(path, 0, key);
    var i :| 0 <= i < 10 && CONTEXT_TEXTS[i] == (Join(path, "."), key);
    NotEmptyText(path, i);
    NamesText(segs);
    assert IsContextPath(segs, i);
  }

  lemma TextHasContext(segs: seq<Segment>, i: nat)
    requires AllPrintable(segs) && i < 10 && IsContextPath(segs, i)
    ensures Names(segs).Some? && ContextOf(Names(segs).value, 0) == Some(CONTEXT_TEXTS[i].1)
  {
    hide PathText, Join, ContextOf, Names, IsPlainPath;
    var same := ContextSegments(i);
    PlainIsPrintable(same);
    SameTextSamePath(segs, same);
    PathIs(0);
    ContextFrom(Names(segs).value, 0, CONTEXT_TEXTS[i].1);
    assert CONTEXT_TEXTS[0..][i] == CONTEXT_TEXTS[i];
  }

  /** A path after `context` means a key exactly when it is one of the ten, and nothing else interprets. */
  lemma ContextIff(raw: RawPlaceholder, dialect: Dialect, key: ContextKey)
    requires raw.segments != [] && AllPrintable(raw.segments[1..]) && raw.Root() == "context"
    ensures Interpret(raw, dialect) == Ok(Context(key)) <==>
      dialect != InSet && exists i :: 0 <= i < 10 && IsContextPath(raw.segments[1..], i) && CONTEXT_TEXTS[i].1 == key
    ensures Interpret(raw, dialect).Ok? ==> Interpret(raw, dialect).value.Context?
  {
    hide IsContextPath, ContextOf, Names;
    var segs := raw.segments[1..];
    if Interpret(raw, dialect) == Ok(Context(key)) {
      ContextHasText(segs, key);
    }
    if i :| dialect != InSet && 0 <= i < 10 && IsContextPath(segs, i) && CONTEXT_TEXTS[i].1 == key {
      TextHasContext(segs, i);
    }
  }

  lemma NotEmptyText(path: seq<string>, i: nat)
    requires i < 10 && Join(path, ".") == CONTEXT_TEXTS[i].0
    ensures path != []
  {
  }

  /** The string resolves to what the scope holds for the key. */
  ghost predicate LooksUp(text: string, c: Resolver, key: ContextKey) {
    ResolveString(text, c) == Shown(c.scope(Context(key)), c.sink)
  }

  lemma ContextResolves(c: Resolver, i: nat)
    requires c.dialect != InSet && i < 10
    ensures LooksUp("${context." + CONTEXT_TEXTS[i].0 + "}", c, CONTEXT_TEXTS[i].1)
  {
    hide ResolveString, Interpret, PathText, IsPlainPath, IsPlainRoot, Body, Names, Join;
    var segs := ContextSegments(i);
    PlainIsPrintable(segs);
    ContextIsPlain(segs, CONTEXT_TEXTS[i].0);
    WholeIsShown("context", segs, c);
    assert RawOf("context", segs).segments[1..] == segs;
    assert IsContextPath(segs, i);
    ContextIff(RawOf("context", segs), c.dialect, CONTEXT_TEXTS[i].1);
  }

  lemma PlainIsPrintable(segs: seq<Segment>)
    requires IsPlainPath(segs)
    ensures AllPrintable(segs)
  {
  }

  lemma ContextIsPlain(segs: seq<Segment>, t: string)
    requires PathText(segs) == "." + t
    ensures IsPlainRoot("context") && "${" + Body("context", segs) + "}" == "${context." + t + "}"
  {
    hide PathText;
    RootsArePlain();
    assert "${" + ("context" + ("." + t)) + "}" == "${context" + "." + t + "}";
    assert "${context" + "." == "${context.";
  }

  lemma RootsArePlain()
    ensures IsPlainRoot("context") && IsPlainRoot("resources")
  {
  }

  /** Each of the ten context placeholders gives what the scope holds for its key. */
  lemma ContextTexts(c: Resolver)
    requires c.dialect != InSet
    ensures LooksUp("${context.org.id}", c, OrgId)
    ensures LooksUp("${context.app.id}", c, AppId)
    ensures LooksUp("${context.env.id}", c, EnvId)
    ensures LooksUp("${context.env.type}", c, EnvType)
    ensures LooksUp("${context.res.id}", c, ResId)
    ensures LooksUp("${context.res.class}", c, ResClass)
    ensures LooksUp("${context.res.type}", c, ResType)
    ensures LooksUp("${context.res.guresid}", c, ResGuresid)
    ensures LooksUp("${context.deploy.id}", c, DeployId)
    ensures LooksUp("${context.deploy.set.id}", c, DeploySetId)
  {
    hide LooksUp;
    ContextResolves(c, 0);
    assert "${context." + "org.id" + "}" == "${context.org.id}";
    ContextResolves(c, 1);
    assert "${context." + "app.id" + "}" == "${context.app.id}";
    ContextResolves(c, 2);
    assert "${context." + "env.id" + "}" == "${context.env.id}";
    ContextResolves(c, 3);
    assert "${context." + "env.type" + "}" == "${context.env.type}";
    ContextResolves(c, 4);
    assert "${context." + "res.id" + "}" == "${context.res.id}";
    ContextResolves(c, 5);
    assert "${context." + "res.class" + "}" == "${context.res.class}";
    ContextResolves(c, 6);
    assert "${context." + "res.type" + "}" == "${context.res.type}";
    ContextResolves(c, 7);
    assert "${context." + "res.guresid" + "}" == "${context.res.guresid}";
    ContextResolves(c, 8);
    assert "${context." + "deploy.id" + "}" == "${context.deploy.id}";
    ContextResolves(c, 9);
    assert "${context." + "deploy.set.id" + "}" == "${context.deploy.set.id}";
  }

  // ---- Resources ----

  /** A reference that a valid descriptor could have. */
  ghost predicate IsValidRef(target: ResourceRef) {
    && IsTypeId(target.ty)
    && (target.cls.Some? ==> IsObjectId(target.cls.value))
    && (target.id.Some? ==> IsResId(target.id.value))
  }

  /** `<type>[.<class>][#<id>]` */
  function PrintRef(target: ResourceRef): string {
    target.ty
    + (if target.cls.Some? then "." + target.cls.value else "")
    + (if target.id.Some? then "#" + target.id.value else "")
  }

  lemma TypeIsPlain(ty: string)
    requires IsTypeId(ty)
    ensures '.' !in ty && '#' !in ty && ']' !in ty && '\'' !in ty
  {
    var slash := Find(ty, '/');
    if slash < |ty| {
      assert ty == ty[..slash] + "/" + ty[slash + 1..];
    }
  }

  lemma ClassIsPlain(cls: string)
    requires IsObjectId(cls)
    ensures '#' !in cls && ']' !in cls && '\'' !in cls
  {
  }

  lemma IdIsPlain(id: string)
    requires IsResId(id)
    ensures ']' !in id && '\'' !in id
  {
  }

  /** Printing a reference and reading it gives it back. */
  lemma RefReads(target: ResourceRef)
    requires IsValidRef(target)
    ensures ParseRef(PrintRef(target)) == Some(target)
  {
    hide IsTypeId, IsObjectId, IsResId;
    var s := PrintRef(target);
    var head := target.ty + (if target.cls.Some? then "." + target.cls.value else "");
    TypeIsPlain(target.ty);
    if target.cls.Some? {
      ClassIsPlain(target.cls.value);
    }
    FindIs(s, '#', |head|);
    assert s[..|head|] == head;
    FindIs(head, '.', |target.ty|);
    assert head[..|target.ty|] == target.ty;
    if target.cls.Some? {
      assert head[|target.ty| + 1..] == target.cls.value;
    }
    if target.id.Some? {
      assert s[|head| + 1..] == target.id.value;
    }
  }

  /** How a field is written after the resource. */
  function FieldSegments(field: ResourceField): seq<Segment> {
    match field
    case Outputs(path) => [Name("outputs")] + path
    case Guresid => [Name("guresid")]
    case Account => [Name("account")]
  }

  /** Outputs have a name. */
  ghost predicate IsValidField(field: ResourceField) {
    field.Outputs? ==> field.path != [] && IsPlainPath(field.path)
  }

  lemma FieldReads(field: ResourceField)
    requires field.Outputs? ==> field.path != []
    ensures ParseField(FieldSegments(field)) == Some(field)
  {
    assert "outputs"[0] == 'o' && "guresid"[0] == 'g' && "account"[0] == 'a';
    if field.Outputs? {
      assert FieldSegments(field)[1..] == field.path;
    }
  }

  /** The segments of `resources['<reference>'].<field>`, without the root. */
  function ResourcePath(target: ResourceRef, field: ResourceField): seq<Segment> {
    [Quoted(PrintRef(target))] + FieldSegments(field)
  }

  lemma ResourceRefReads(target: ResourceRef, field: ResourceField)
    requires IsValidRef(target) && (field.Outputs? ==> field.path != [])
    ensures ParseResourceRef(ResourcePath(target, field)) == Some((target, field))
  {
    hide IsValidRef, ParseRef, ParseField, PrintRef, FieldSegments;
    RefReads(target);
    FieldReads(field);
    assert ResourcePath(target, field)[1..] == FieldSegments(field);
  }

  /** The account can be read only where a driver account is described. */
  lemma ResourceInterprets(target: ResourceRef, field: ResourceField, raw: RawPlaceholder, dialect: Dialect)
    requires IsValidRef(target) && (field.Outputs? ==> field.path != [])
    requires raw.segments == [Name("resources")] + ResourcePath(target, field)
    ensures Interpret(raw, dialect) ==
      if dialect == InSet then Err(UnknownRoot)
      else if field == Account && dialect != InDriverAccount then Err(NotAllowed)
      else Ok(Resource(target, field))
  {
    hide ParseResourceRef, IsValidRef, ResourcePath;
    ResourceRefReads(target, field);
    assert raw.segments[1..] == ResourcePath(target, field) && raw.Root() == "resources";
    assert "resources"[0] == 'r' && "context"[0] == 'c' && "externals"[0] == 'e' && "shared"[0] == 's';
    assert "values"[0] == 'v' && "pod"[0] == 'p';
  }

  lemma RefIsPlain(target: ResourceRef)
    requires IsValidRef(target)
    ensures ']' !in PrintRef(target) && '\'' !in PrintRef(target)
  {
    hide IsTypeId, IsObjectId, IsResId;
    TypeIsPlain(target.ty);
    if target.cls.Some? {
      ClassIsPlain(target.cls.value);
    }
    if target.id.Some? {
      IdIsPlain(target.id.value);
    }
  }

  lemma FieldNamesArePlain()
    ensures IsName("outputs") && IsName("guresid") && IsName("account")
    ensures '}' !in "outputs" && '}' !in "guresid" && '}' !in "account"
  {
  }

  lemma FieldIsPlain(field: ResourceField)
    requires IsValidField(field)
    ensures IsPlainPath(FieldSegments(field))
  {
    hide IsName;
    FieldNamesArePlain();
  }

  lemma ResourceIsPlain(target: ResourceRef, field: ResourceField)
    requires IsValidRef(target) && IsValidField(field)
    ensures IsPlainPath(ResourcePath(target, field))
  {
    hide IsValidRef, IsValidField, PrintRef, FieldSegments;
    RefIsPlain(target);
    FieldIsPlain(field);
  }

  /** The text of a resource placeholder resolves to what the scope holds for that resource and that field. */
  lemma ResourceResolves(target: ResourceRef, field: ResourceField, c: Resolver)
    requires IsValidRef(target) && IsValidField(field) && c.dialect != InSet
    requires field == Account ==> c.dialect == InDriverAccount
    ensures ResolveString("${" + ("resources['" + PrintRef(target) + "']" + PathText(FieldSegments(field))) + "}", c)
      == Shown(c.scope(Resource(target, field)), c.sink)
  {
    hide ResolveString, Interpret, PathText, IsPlainPath, IsPlainRoot, IsValidRef, PrintRef, FieldSegments;
    var segs := ResourcePath(target, field);
    RootsArePlain();
    ResourceIsPlain(target, field);
    WholeIsShown("resources", segs, c);
    ResourceInterprets(target, field, RawOf("resources", segs), c.dialect);
    ResourceText(target, field);
  }

  lemma ResourceText(target: ResourceRef, field: ResourceField)
    ensures Body("resources", ResourcePath(target, field))
      == "resources['" + PrintRef(target) + "']" + PathText(FieldSegments(field))
  {
    hide PrintRef, FieldSegments;
    var rest := PathText(FieldSegments(field));
    assert ResourcePath(target, field)[1..] == FieldSegments(field);
    assert "resources" + ("['" + PrintRef(target) + "']" + rest) == "resources" + "['" + PrintRef(target) + "']" + rest;
    assert "resources" + "['" == "resources['";
  }

  /** A field that is one text is shown as that text, if the resource has it. */
  ghost function ShownText(text: Option<string>): Result<Resolved, ErrorKind> {
    if text.Some? then Ok(Done(Str(text.value))) else Err(Unresolvable)
  }

  /** The other two fields give the resource's own identity and account. */
  lemma IdentityResolves(target: ResourceRef, scope: Scope, d: Descriptor, c: Resolver)
    requires IsValidRef(target) && c.dialect == InDriverAccount && forall e :: c.scope(e) == scope.Lookup(e)
    requires scope.DescriptorFor(target) == Some(d) && d in scope.resources
    ensures ResolveString("${" + ("resources['" + PrintRef(target) + "']" + ".guresid") + "}", c)
      == ShownText(scope.resources[d].guresid)
    ensures ResolveString("${" + ("resources['" + PrintRef(target) + "']" + ".account") + "}", c)
      == ShownText(scope.resources[d].account)
  {
    hide ResolveString, PrintRef, IsValidRef;
    ResourceResolves(target, Guresid, c);
    ResourceResolves(target, Account, c);
    FieldText("guresid");
    FieldText("account");
    assert "." + "guresid" == ".guresid" && "." + "account" == ".account";
  }

  lemma FieldText(name: string)
    ensures PathText([Name(name)]) == "." + name
  {
    assert [Name(name)][1..] == [] && PathText([Name(name)]) == "." + name + "" == "." + name;
  }

  // ---- Sets ----

  /** What a path means in a deployment set, by its root, key and the rest of the path. */
  ghost function InSetMeans(root: string, key: Segment, path: seq<Segment>): Result<Expr, ErrorKind> {
    if root == "values" then (if key.Index? then Err(Syntax) else Ok(Values(key.Key().value, path)))
    else if root == "externals" then
      (if key.Index? || path == [] then Err(Syntax) else Ok(Externals(key.Key().value, path)))
    else if root == "shared" then
      (if key.Index? || path == [] then Err(Syntax) else Ok(Shared(key.Key().value, path)))
    else if root == "context" then Err(NotAllowed)
    else Err(UnknownRoot)
  }

  /** Every root but that of pods means in a set what it says there, and the set's roots mean nothing elsewhere. */
  lemma SetInterprets(root: string, key: Segment, path: seq<Segment>, text: string)
    requires root != "pod"
    ensures var raw := RawPlaceholder(text, [Name(root), key] + path);
      && Interpret(raw, InSet) == InSetMeans(root, key, path)
      && (root != "context" && root != "resources" ==>
          Interpret(raw, InDefinition) == Interpret(raw, InDriverAccount) == Err(UnknownRoot))
  {
    var segs := [Name(root), key] + path;
    assert segs[0] == Name(root) && segs[1] == key && segs[2..] == path;
    assert "values"[0] == 'v' && "externals"[0] == 'e' && "shared"[0] == 's' && "context"[0] == 'c';
    assert "resources"[0] == 'r' && "pod"[0] == 'p';
  }

  /** A pod's own fields are named, and are not the resolver's to replace. */
  lemma PodInterprets(path: seq<Segment>, text: string, scope: Scope)
    ensures var raw := RawPlaceholder(text, [Name("pod")] + path);
      && Interpret(raw, InSet) ==
        (if path == [] || Names(path).None? then Err(Syntax) else Ok(Pod(Names(path).value)))
      && (Interpret(raw, InSet).Ok? ==> scope.Lookup(Interpret(raw, InSet).value) == None)
  {
    var segs := [Name("pod")] + path;
    assert segs[1..] == path && segs[0] == Name("pod");
    assert "values"[0] == 'v' && "externals"[0] == 'e' && "shared"[0] == 's' && "context"[0] == 'c';
    assert "resources"[0] == 'r' && "pod"[0] == 'p';
  }

  // ---- Outputs ----

  /** An output is a secret by its name alone, or what a path leads to in a value; a secret hides a value. */
  lemma OutputIff(o: ResourceOutputs, name: string, path: seq<Segment>, secret: SecretRef, x: Value)
    ensures GetOutput(o, [Name(name)] + path) == GetOutput(o, [Quoted(name)] + path)
    ensures GetOutput(o, [Name(name)] + path) == Some(Secret(secret)) <==>
      name in o.secrets && o.secrets[name] == secret && path == []
    ensures GetOutput(o, [Name(name)] + path) == Some(Plain(x)) <==>
      name !in o.secrets && name in o.values && LeadsTo(o.values[name], path, x)
  {
    hide LeadsTo, Walk;
    var dotted, quoted := [Name(name)] + path, [Quoted(name)] + path;
    assert dotted[1..] == path && quoted[1..] == path && dotted[0] == Name(name) && quoted[0] == Quoted(name);
    if name in o.values {
      WalkIff(o.values[name], path, x);
    }
  }

  /** The same for a value of the environment. */
  lemma ValueIff(scope: Scope, key: string, path: seq<Segment>, secret: SecretRef, x: Value)
    ensures scope.Lookup(Values(key, path)) == Some(Secret(secret)) <==>
      key in scope.values && scope.values[key] == Secret(secret) && path == []
    ensures scope.Lookup(Values(key, path)) == Some(Plain(x)) <==>
      key in scope.values && scope.values[key].Plain? && LeadsTo(scope.values[key].value, path, x)
  {
    hide LeadsTo, Walk;
    if key in scope.values && scope.values[key].Plain? {
      WalkIff(scope.values[key].value, path, x);
    }
  }

  // ---- Paths into a value ----

  /** `x` is the item or the member of `v` that the segment names. */
  ghost predicate IsChild(v: Value, seg: Segment, x: Value) {
    match seg
    case Index(i) => v.Arr? && i < |v.items| && x == v.items[i]
    case Name(k) => v.Obj? && IsMember(v.fields, k, x)
    case Quoted(k) => v.Obj? && IsMember(v.fields, k, x)
  }

  /** The first member with this key has this value. */
  ghost predicate IsMember(fields: seq<Field>, k: string, x: Value) {
    exists i :: 0 <= i < |fields| && fields[i] == Field(k, x) && IsNew(fields[..i], k)
  }

  ghost predicate IsNew(fields: seq<Field>, k: string) {
    forall f :: f in fields ==> f.key != k
  }

  lemma MemberIff(fields: seq<Field>, k: string, x: Value)
    ensures IsMember(fields, k, x) <==> IndexOf(fields, k) >= 0 && fields[IndexOf(fields, k)].value == x
  {
    var i := IndexOf(fields, k);
    if i >= 0 && fields[i].value == x {
      assert fields[i] == Field(k, x) && IsNew(fields[..i], k);
    }
  }

  /** The path leads from `v` to `x`, one item or member at a time. */
  ghost predicate LeadsTo(v: Value, path: seq<Segment>, x: Value)
    decreases |path|
  {
    if path == [] then v == x
    else exists child :: IsChild(v, path[0], child) && LeadsTo(child, path[1..], x)
  }

  lemma ChildStep(v: Value, path: seq<Segment>, child: Value)
    requires path != [] && IsChild(v, path[0], child)
    ensures Walk(v, path) == Walk(child, path[1..])
  {
    hide IsMember;
    if !path[0].Index? {
      MemberIff(v.fields, path[0].Key().value, child);
    }
  }

  lemma WalkStep(v: Value, path: seq<Segment>) returns (child: Value)
    requires path != [] && Walk(v, path).Some?
    ensures IsChild(v, path[0], child)
  {
    hide IsMember;
    match path[0] {
      case Index(i) => child := v.items[i];
      case Name(k) =>
        child := v.fields[IndexOf(v.fields, k)].value;
        MemberIff(v.fields, k, child);
      case Quoted(k) =>
        child := v.fields[IndexOf(v.fields, k)].value;
        MemberIff(v.fields, k, child);
    }
  }

  /** A path is followed exactly to where it leads. */
  lemma {:induction false} WalkIff(v: Value, path: seq<Segment>, x: Value)
    ensures Walk(v, path) == Some(x) <==> LeadsTo(v, path, x)
    decreases |path|
  {
    if path != [] {
      hide IsChild, Walk;
      if Walk(v, path) == Some(x) {
        var child := WalkStep(v, path);
        ChildStep(v, path, child);
        WalkIff(child, path[1..], x);
      }
      if child :| IsChild(v, path[0], child) && LeadsTo(child, path[1..], x) {
        ChildStep(v, path, child);
        WalkIff(child, path[1..], x);
      }
    }
  }

  // ---- Dotted references ----

  /** No part is taken for a field, and more than a type and a class have an ID among them. */
  ghost predicate IsDotted(parts: seq<string>) {
    && parts != [] && (forall i :: 0 <= i < |parts| ==> !IsField(Name(parts[i])))
    && (|parts| > 2 ==> exists i :: 0 <= i < |parts| && '#' in parts[i])
  }

  function DottedPath(parts: seq<string>): seq<Segment> {
    seq(|parts|, i requires 0 <= i < |parts| => Name(parts[i]))
  }

  lemma {:induction false} FieldComesAfter(segs: seq<Segment>, rest: seq<Segment>)
    requires (forall i :: 0 <= i < |segs| ==> !IsField(segs[i])) && rest != [] && IsField(rest[0])
    ensures FieldIndex(segs + rest) == |segs|
  {
    if segs == [] {
      assert segs + rest == rest;
    } else {
      FieldComesAfter(segs[1..], rest);
      assert (segs + rest)[1..] == segs[1..] + rest;
    }
  }

  /** A reference written with dots, instead of quoted, reads as the same resource and field. */
  lemma DottedReads(parts: seq<string>, target: ResourceRef, field: ResourceField)
    requires IsDotted(parts) && Join(parts, ".") == PrintRef(target) && IsValidRef(target)
    requires field.Outputs? ==> field.path != []
    ensures ParseResourceRef(DottedPath(parts) + FieldSegments(field)) == Some((target, field))
  {
    hide Join, IsValidRef, ParseRef, ParseField, PrintRef;
    var segs, rest := DottedPath(parts), FieldSegments(field);
    RefReads(target);
    FieldReads(field);
    FieldComesAfter(segs, rest);
    assert (segs + rest)[..|segs|] == segs && (segs + rest)[|segs|..] == rest;
    assert Names(segs).value == parts;
  }
}
