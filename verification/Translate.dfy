/**
 Translating a workload's placeholders for a deployment set: `translate`,
 `translate_resource_placeholder` and `segment_text` in
 `crates/core/src/workload.rs`.
 */
module Translate {
  import opened Basics
  import opened Catalog
  import opened Ids
  import opened Template
  import opened TemplateLaws
  import opened PathLaws
  import Placeholder
  import Text

  /** What a workload declares under `resources.<key>`. */
  datatype ResourceRequest = ResourceRequest(ty: string, id: Option<string>)

  datatype TranslateError =
    | InvalidSyntax
    | ExpectedKeyAndOutput
    | UndeclaredResource
    | UnknownType
    | NoSuchOutput
    | SecretHasNoFields
    | SecretInPlainField

  predicate IsPlainName(name: string) {
    forall i :: 0 <= i < |name| ==> IsAlnum(name[i]) || name[i] == '-' || name[i] == '_'
  }

  /** A name as a path segment: dotted when it can be, quoted otherwise. */
  function SegmentOf(name: string): Segment {
    if IsPlainName(name) then Name(name) else Quoted(name)
  }

  /** A translated placeholder, and whether it reads a secret. */
  datatype Translated = Translated(root: string, segs: seq<Segment>, secret: bool) {
    function Body(): string { root + PathText(segs) }
    function Text(): string { "${" + Body() + "}" }
  }

  /** Translates `${resources.<key>.<output>...}`. */
  function TranslatePlaceholder(segs: seq<Segment>, resources: map<string, ResourceRequest>, types: seq<ResourceType>)
    : Result<Translated, TranslateError>
  {
    if |segs| < 3 || segs[1].Key().None? || segs[2].Key().None? then Err(ExpectedKeyAndOutput)
    else
      var key, output, rest := segs[1].Key().value, segs[2].Key().value, segs[3..];
      if key !in resources then Err(UndeclaredResource)
      else
        var r := resources[key];
        match FindType(types, r.ty)
        case None => Err(UnknownType)
        case Some(ty) =>
          var kind := ty.KindOf(output);
          if kind.None? && !ty.openOutputs then Err(NoSuchOutput)
          else if kind == Some(SecretOutput) && rest != [] then Err(SecretHasNoFields)
          else
            var root := if r.id.Some? then "shared" else "externals";
            var name := if r.id.Some? then r.id.value else key;
            Ok(Translated(root, [SegmentOf(name), SegmentOf(output)] + rest, kind == Some(SecretOutput)))
  }

  /** Translated text, and whether a secret is read in it. */
  datatype Output = Output(text: string, secret: bool)

  function TranslatePart(p: Part, resources: map<string, ResourceRequest>, types: seq<ResourceType>)
    : Result<Output, TranslateError>
  {
    match p
    case Literal(l) => Ok(Output(EscapeLiteral(l), false))
    case Placeholder(raw) =>
      if raw.Root() != "resources" then Ok(Output(raw.text, false))
      else
        match TranslatePlaceholder(raw.segments, resources, types)
        case Err(e) => Err(e)
        case Ok(t) => Ok(Output(t.Text(), t.secret))
  }

  function TranslateParts(parts: seq<Part>, resources: map<string, ResourceRequest>, types: seq<ResourceType>)
    : Result<Output, TranslateError>
  {
    if parts == [] then Ok(Output("", false))
    else
      match TranslatePart(parts[0], resources, types)
      case Err(e) => Err(e)
      case Ok(first) =>
        match TranslateParts(parts[1..], resources, types)
        case Err(e) => Err(e)
        case Ok(rest) => Ok(Output(first.text + rest.text, first.secret || rest.secret))
  }

  predicate IsLiteral(parts: seq<Part>) {
    forall i :: 0 <= i < |parts| ==> parts[i].Literal?
  }

  /** One string of a workload; `sink` says whether its field may hold a secret. */
  function TranslateString(s: string, resources: map<string, ResourceRequest>, types: seq<ResourceType>, sink: bool)
    : Result<Output, TranslateError>
  {
    match Parse(s)
    case Err(_) => Err(InvalidSyntax)
    case Ok(parts) =>
      if IsLiteral(parts) then Ok(Output(s, false))
      else
        match TranslateParts(parts, resources, types)
        case Err(e) => Err(e)
        case Ok(out) => if out.secret && !sink then Err(SecretInPlainField) else Ok(out)
  }

  // ---- When a translated placeholder reads back ----

  lemma SegmentOfReads(seg: Segment)
    requires Printable(seg) && seg.Key().Some?
    ensures Printable(SegmentOf(seg.Key().value)) <==> seg.Key().value != ""
    ensures SegmentOf(seg.Key().value).Key() == seg.Key()
  {
    var name := seg.Key().value;
    if IsPlainName(name) && name != "" {
      assert forall i :: 0 <= i < |name| ==> IsNameChar(name[i]);
    } else if name != "" && seg.Name? {
      assert forall i :: 0 <= i < |name| ==> name[i] != ']';
    }
  }

  lemma ObjectIdReads(id: string)
    requires IsObjectId(id)
    ensures SegmentOf(id) == Name(id) && IsName(id) && '}' !in id
  {
  }

  /** The placeholder names a declared resource and an output. */
  predicate IsDeclared(segs: seq<Segment>, resources: map<string, ResourceRequest>) {
    |segs| > 2 && segs[1].Key().Some? && segs[2].Key().Some? && segs[1].Key().value in resources
  }

  /** The names that are printed are not empty: the output, and the key unless a shared ID stands for it. */
  predicate HasNames(segs: seq<Segment>, resources: map<string, ResourceRequest>)
    requires IsDeclared(segs, resources)
  {
    segs[2].Key() != Some("") && (resources[segs[1].Key().value].id.None? ==> segs[1].Key() != Some(""))
  }

  /** The user's own names that are printed: the key unless a shared ID stands for it, the output, and what follows. */
  function OwnNames(segs: seq<Segment>, resources: map<string, ResourceRequest>): seq<Segment>
    requires IsDeclared(segs, resources)
  {
    var key, output := segs[1].Key().value, segs[2].Key().value;
    (if resources[key].id.None? then [SegmentOf(key)] else []) + ([SegmentOf(output)] + segs[3..])
  }

  /** Printed one after another, in single quotes where they need some, the names leave no quote open. */
  predicate ReadsBack(segs: seq<Segment>, resources: map<string, ResourceRequest>) {
    IsDeclared(segs, resources) ==>
      HasNames(segs, resources) && OpenAfterAll(OwnNames(segs, resources), None) == Some(None)
  }

  ghost predicate ValidRequests(resources: map<string, ResourceRequest>) {
    forall key :: key in resources && resources[key].id.Some? ==> IsObjectId(resources[key].id.value)
  }

  /** The placeholder's printed names are not empty, and none holds a quote. */
  ghost predicate Readable(segs: seq<Segment>, resources: map<string, ResourceRequest>) {
    IsDeclared(segs, resources) ==> Unquoted(segs) && HasNames(segs, resources)
  }

  /** A placeholder as parsing leaves it. */
  ghost predicate Parsed(segs: seq<Segment>) {
    AllPrintable(segs) && (Unquoted(segs) ==> BraceFree(segs))
  }

  lemma BodyIsParsed(body: string)
    requires Scans(body) && Path(body).Ok?
    ensures Parsed(Path(body).value)
  {
    ParsedArePrintable(body, true);
    if Unquoted(Path(body).value) {
      ParsedAreBraceFree(body, true);
    }
  }

  lemma RootIsName(root: string)
    requires root == "shared" || root == "externals"
    ensures IsName(root) && Scans(root)
  {
    assert IsName("shared") && IsName("externals");
    PlainScans(root);
  }

  lemma SegmentOfCloses(seg: Segment)
    requires Printable(seg) && seg.Key().Some? && SingleQuoteFree([seg])
    ensures SingleQuoteFree([SegmentOf(seg.Key().value)]) && BraceFree([SegmentOf(seg.Key().value)])
  {
    assert [seg][0] == seg;
  }

  /** Names read back unless they hold a single quote, or a dotted one after the output holds a brace. */
  lemma SingleQuoteFreeReadsBack(segs: seq<Segment>, resources: map<string, ResourceRequest>)
    requires AllPrintable(segs) && SingleQuoteFree(segs)
    requires IsDeclared(segs, resources) ==> HasNames(segs, resources) && BraceFree(segs[3..])
    ensures ReadsBack(segs, resources)
  {
    hide SegmentOf;
    if IsDeclared(segs, resources) {
      var names := OwnNames(segs, resources);
      SegmentOfCloses(segs[1]);
      SegmentOfCloses(segs[2]);
      var n := |names| - |segs[3..]|;
      assert names[n - 1] == [SegmentOf(segs[2].Key().value)][0];
      assert n == 2 ==> names[0] == [SegmentOf(segs[1].Key().value)][0];
      assert forall i :: n <= i < |names| ==> names[i] == segs[3..][i - n] == segs[i - n + 3];
      assert SingleQuoteFree(names) && BraceFree(names);
      PlainCloses(names);
    }
  }

  /** Names without quotes read back. */
  lemma PlainNamesReadBack(segs: seq<Segment>, resources: map<string, ResourceRequest>)
    requires Parsed(segs) && Readable(segs, resources)
    ensures ReadsBack(segs, resources)
  {
    if IsDeclared(segs, resources) {
      assert SingleQuoteFree(segs) && BraceFree(segs);
      SingleQuoteFreeReadsBack(segs, resources);
    }
  }

  /** The translated path reads back exactly when its names are not empty. */
  lemma PathReadsBackIff(segs: seq<Segment>, resources: map<string, ResourceRequest>, types: seq<ResourceType>)
    requires AllPrintable(segs) && ValidRequests(resources)
    requires TranslatePlaceholder(segs, resources, types).Ok?
    ensures var t := TranslatePlaceholder(segs, resources, types).value;
      && (Path(t.Body()) == Ok([Name(t.root)] + t.segs) <==> HasNames(segs, resources))
      && (HasNames(segs, resources) ==> AllPrintable(t.segs))
  {
    hide Path;
    var t := TranslatePlaceholder(segs, resources, types).value;
    RootIsName(t.root);
    RootedPathReads(t.root, t.segs);
    hide SegmentOf;
    assert Printable(segs[1]) && Printable(segs[2]);
    SegmentOfReads(segs[1]);
    SegmentOfReads(segs[2]);
    var r := resources[segs[1].Key().value];
    if r.id.Some? {
      ObjectIdReads(r.id.value);
    }
    assert t.segs[1] == SegmentOf(segs[2].Key().value);
    assert t.segs[0] == SegmentOf(if r.id.Some? then r.id.value else segs[1].Key().value);
    forall i | 2 <= i < |t.segs| ensures Printable(t.segs[i]) {
      assert t.segs[i] == segs[i + 1];
    }
  }

  /** A shared ID neither opens a quote nor ends the placeholder. */
  lemma OwnNamesDecide(segs: seq<Segment>, resources: map<string, ResourceRequest>, types: seq<ResourceType>)
    requires ValidRequests(resources) && TranslatePlaceholder(segs, resources, types).Ok?
    ensures var t := TranslatePlaceholder(segs, resources, types).value;
      OpenAfterAll(t.segs, None) == OpenAfterAll(OwnNames(segs, resources), None)
  {
    hide SegmentOf;
    var t := TranslatePlaceholder(segs, resources, types).value;
    var names := OwnNames(segs, resources);
    var r := resources[segs[1].Key().value];
    if r.id.Some? {
      ObjectIdReads(r.id.value);
      assert t.segs[0] == Name(r.id.value) && t.segs[1..] == names;
    } else {
      assert t.segs == names;
    }
  }

  /** The translated text is one placeholder, with the translated segments, exactly when its names read back. */
  lemma TranslatedReadsIff(segs: seq<Segment>, resources: map<string, ResourceRequest>, types: seq<ResourceType>)
    requires AllPrintable(segs) && ValidRequests(resources)
    requires TranslatePlaceholder(segs, resources, types).Ok?
    ensures var t := TranslatePlaceholder(segs, resources, types).value;
      Scans(t.Body()) && Path(t.Body()) == Ok([Name(t.root)] + t.segs) <==> ReadsBack(segs, resources)
  {
    hide Path, Scan, OpenAfterAll, OwnNames, HasNames;
    var t := TranslatePlaceholder(segs, resources, types).value;
    PathReadsBackIff(segs, resources, types);
    if HasNames(segs, resources) {
      RootIsName(t.root);
      ScanJoins(t.root, PathText(t.segs), None);
      PathOpens(t.segs, None);
      OwnNamesDecide(segs, resources, types);
    }
  }

  // ---- What the translated string means ----

  /** The part a part becomes. */
  ghost function NewPart(p: Part, resources: map<string, ResourceRequest>, types: seq<ResourceType>): Part {
    if p.Literal? || p.raw.Root() != "resources" then p
    else
      match TranslatePlaceholder(p.raw.segments, resources, types)
      case Err(_) => p
      case Ok(t) => Placeholder(RawPlaceholder(t.Text(), [Name(t.root)] + t.segs))
  }

  ghost function NewParts(parts: seq<Part>, resources: map<string, ResourceRequest>,
      types: seq<ResourceType>): (r: seq<Part>)
    ensures |r| == |parts| && forall i :: 0 <= i < |parts| ==> r[i] == NewPart(parts[i], resources, types)
  {
    seq(|parts|, i requires 0 <= i < |parts| => NewPart(parts[i], resources, types))
  }

  lemma {:induction false} TranslatedTextIsPrinted(parts: seq<Part>, resources: map<string, ResourceRequest>,
      types: seq<ResourceType>)
    requires TranslateParts(parts, resources, types).Ok?
    ensures TranslateParts(parts, resources, types).value.text == Print(NewParts(parts, resources, types))
    ensures forall i :: 0 <= i < |parts| ==> TranslatePart(parts[i], resources, types).Ok?
  {
    hide TranslatePlaceholder, EscapeLiteral;
    if parts != [] {
      TranslatedTextIsPrinted(parts[1..], resources, types);
      var all := NewParts(parts, resources, types);
      assert all[1..] == NewParts(parts[1..], resources, types);
      assert all[0] == NewPart(parts[0], resources, types);
    }
  }

  /** Every placeholder that is translated reads back. */
  predicate AllReadBack(parts: seq<Part>, resources: map<string, ResourceRequest>) {
    forall i :: 0 <= i < |parts| && parts[i].Placeholder? && parts[i].raw.Root() == "resources" ==>
      ReadsBack(parts[i].raw.segments, resources)
  }

  /** A placeholder as parsing leaves it. */
  lemma WellFormedIsParsed(raw: RawPlaceholder)
    requires WellFormedPlaceholder(raw)
    ensures Parsed(raw.segments)
  {
    hide Path, Scan, Parsed;
    var body :| raw.text == "${" + body + "}" && Scans(body) && Path(body) == Ok(raw.segments);
    BodyIsParsed(body);
  }

  /** A placeholder's text fixes its body. */
  lemma BodyIsFixed(body: string, segs: seq<Segment>)
    ensures WellFormedPlaceholder(RawPlaceholder("${" + body + "}", segs)) <==> Scans(body) && Path(body) == Ok(segs)
  {
    hide Path, Scan;
    var raw := RawPlaceholder("${" + body + "}", segs);
    if WellFormedPlaceholder(raw) {
      var b :| raw.text == "${" + b + "}" && Scans(b) && Path(b) == Ok(segs);
      assert b == raw.text[2..|raw.text| - 1] == body;
    }
  }

  lemma NewPlaceholderIsWellFormedIff(raw: RawPlaceholder, resources: map<string, ResourceRequest>,
      types: seq<ResourceType>)
    requires WellFormedPlaceholder(raw) && ValidRequests(resources)
    requires TranslatePlaceholder(raw.segments, resources, types).Ok?
    ensures var t := TranslatePlaceholder(raw.segments, resources, types).value;
      WellFormedPlaceholder(RawPlaceholder(t.Text(), [Name(t.root)] + t.segs)) <==> ReadsBack(raw.segments, resources)
  {
    hide Path, Scan, TranslatePlaceholder, ReadsBack, WellFormedPlaceholder;
    var t := TranslatePlaceholder(raw.segments, resources, types).value;
    WellFormedIsParsed(raw);
    TranslatedReadsIff(raw.segments, resources, types);
    BodyIsFixed(t.Body(), [Name(t.root)] + t.segs);
  }

  lemma NewPartsAreWellFormedIff(parts: seq<Part>, resources: map<string, ResourceRequest>, types: seq<ResourceType>)
    requires WellFormed(parts) && ValidRequests(resources)
    requires forall i :: 0 <= i < |parts| ==> TranslatePart(parts[i], resources, types).Ok?
    ensures WellFormed(NewParts(parts, resources, types)) <==> AllReadBack(parts, resources)
  {
    hide TranslatePlaceholder, ReadsBack, WellFormedPlaceholder, GoodLiteral;
    var all := NewParts(parts, resources, types);
    forall i | 0 <= i < |all|
      ensures WellFormedAt(all, i) <==>
        (parts[i].Placeholder? && parts[i].raw.Root() == "resources" ==> ReadsBack(parts[i].raw.segments, resources))
    {
      assert WellFormedAt(parts, i);
      assert TranslatePart(parts[i], resources, types).Ok?;
      if parts[i].Placeholder? && parts[i].raw.Root() == "resources" {
        NewPlaceholderIsWellFormedIff(parts[i].raw, resources, types);
      }
    }
  }

  /**
   The translated string parses to the same literals and the new placeholders
   exactly when the names of every translated placeholder read back.
   */
  lemma TranslatedStringParsesIff(s: string, resources: map<string, ResourceRequest>, types: seq<ResourceType>,
      sink: bool)
    requires ValidRequests(resources) && TranslateString(s, resources, types, sink).Ok?
    ensures var text := TranslateString(s, resources, types, sink).value.text;
      Parse(text) == Ok(NewParts(Parse(s).value, resources, types)) <==> AllReadBack(Parse(s).value, resources)
  {
    hide TranslateParts, Parse, AllReadBack, WellFormed, TranslatePart, NewPart;
    var parts := Parse(s).value;
    PrintInvertsParse(s);
    if IsLiteral(parts) {
      LiteralsStay(parts, resources, types);
    } else {
      var all := NewParts(parts, resources, types);
      TranslatedTextIsPrinted(parts, resources, types);
      NewPartsAreWellFormedIff(parts, resources, types);
      if WellFormed(all) {
        ParseInvertsPrint(all);
      }
      if Parse(Print(all)) == Ok(all) {
        PrintInvertsParse(Print(all));
      }
    }
  }

  lemma LiteralsStay(parts: seq<Part>, resources: map<string, ResourceRequest>, types: seq<ResourceType>)
    requires IsLiteral(parts)
    ensures NewParts(parts, resources, types) == parts && AllReadBack(parts, resources)
  {
  }

  /** What `${resources.<key>.<path>}` reads: a private dependency, or a shared resource. */
  ghost function Meaning(segs: seq<Segment>, resources: map<string, ResourceRequest>, scope: Placeholder.Scope)
    : Option<Placeholder.Lookup>
    requires |segs| > 2 && segs[1].Key().Some? && segs[1].Key().value in resources
  {
    var key := segs[1].Key().value;
    match resources[key].id
    case None =>
      if key in scope.externals then Placeholder.GetOutput(scope.externals[key], segs[2..]) else None
    case Some(id) =>
      if id in scope.shared then Placeholder.GetOutput(scope.shared[id], segs[2..]) else None
  }

  lemma SameOutput(o: Placeholder.ResourceOutputs, a: seq<Segment>, b: seq<Segment>)
    requires a != [] && b != [] && a[0].Key() == b[0].Key() && a[1..] == b[1..]
    ensures Placeholder.GetOutput(o, a) == Placeholder.GetOutput(o, b)
  {
  }

  /** A translated placeholder reads the same resource and path, in every scope. */
  lemma TranslatedPlaceholderMeansTheSame(segs: seq<Segment>, resources: map<string, ResourceRequest>,
      types: seq<ResourceType>, scope: Placeholder.Scope)
    requires TranslatePlaceholder(segs, resources, types).Ok?
    ensures var t := TranslatePlaceholder(segs, resources, types).value;
      var e := Placeholder.Interpret(RawPlaceholder(t.Text(), [Name(t.root)] + t.segs), Placeholder.InSet);
      e.Ok? && scope.Lookup(e.value) == Meaning(segs, resources, scope)
  {
    hide Placeholder.GetOutput, SegmentOf;
    var t := TranslatePlaceholder(segs, resources, types).value;
    var key, output, rest := segs[1].Key().value, segs[2].Key().value, segs[3..];
    var name := if resources[key].id.Some? then resources[key].id.value else key;
    KeyOfSegment(name);
    KeyOfSegment(output);
    var all := [Name(t.root)] + t.segs;
    var path := [SegmentOf(output)] + rest;
    assert all[1] == SegmentOf(name) && all[2..] == path;
    assert path[1..] == rest == segs[2..][1..];
    assert !IsContextRoot(t.root);
    if resources[key].id.None? && key in scope.externals {
      SameOutput(scope.externals[key], path, segs[2..]);
    } else if resources[key].id.Some? && name in scope.shared {
      SameOutput(scope.shared[name], path, segs[2..]);
    }
  }

  predicate IsContextRoot(root: string) { root == "context" || root == "resources" }

  lemma KeyOfSegment(name: string)
    ensures SegmentOf(name).Key() == Some(name)
  {
  }

  /**
   Translation keeps a string's meaning: it parses to the same literals in the
   same order, keeps every other placeholder, and each `resources` placeholder
   reads what it read before, in every scope.
   */
  lemma TranslationPreservesMeaning(s: string, resources: map<string, ResourceRequest>, types: seq<ResourceType>,
      sink: bool, i: nat, scope: Placeholder.Scope)
    requires ValidRequests(resources) && TranslateString(s, resources, types, sink).Ok?
    requires AllReadBack(Parse(s).value, resources) && i < |Parse(s).value|
    ensures var parts := Parse(s).value;
      var after := Parse(TranslateString(s, resources, types, sink).value.text);
      && after.Ok? && |after.value| == |parts|
      && (parts[i].Literal? || parts[i].raw.Root() != "resources" ==> after.value[i] == parts[i])
      && (parts[i].Placeholder? && parts[i].raw.Root() == "resources" ==>
        && after.value[i].Placeholder?
        && TranslatePlaceholder(parts[i].raw.segments, resources, types).Ok?
        && var e := Placeholder.Interpret(after.value[i].raw, Placeholder.InSet);
        && e.Ok?
        && scope.Lookup(e.value) == Meaning(parts[i].raw.segments, resources, scope))
  {
    hide Parse, TranslateParts, TranslatePlaceholder, Meaning, Placeholder.Interpret, AllReadBack;
    var parts := Parse(s).value;
    TranslatedStringParsesIff(s, resources, types, sink);
    assert NewParts(parts, resources, types)[i] == NewPart(parts[i], resources, types);
    if parts[i].Placeholder? && parts[i].raw.Root() == "resources" {
      assert !IsLiteral(parts);
      TranslatedTextIsPrinted(parts, resources, types);
      assert TranslatePart(parts[i], resources, types).Ok?;
      TranslatedPlaceholderMeansTheSame(parts[i].raw.segments, resources, types, scope);
    }
  }

  /** Every translated placeholder has names without quotes. */
  ghost predicate AllReadable(parts: seq<Part>, resources: map<string, ResourceRequest>) {
    forall i :: 0 <= i < |parts| && parts[i].Placeholder? && parts[i].raw.Root() == "resources" ==>
      Readable(parts[i].raw.segments, resources)
  }

  /** A string whose names are not empty and hold no quotes always translates to what it means. */
  lemma PlainStringReadsBack(s: string, resources: map<string, ResourceRequest>)
    requires Parse(s).Ok? && AllReadable(Parse(s).value, resources)
    ensures AllReadBack(Parse(s).value, resources)
  {
    hide Parse, ReadsBack, Readable, WellFormedPlaceholder, Parsed, GoodLiteral;
    var parts := Parse(s).value;
    PrintInvertsParse(s);
    forall i | 0 <= i < |parts| && parts[i].Placeholder? && parts[i].raw.Root() == "resources"
      ensures ReadsBack(parts[i].raw.segments, resources)
    {
      assert WellFormedAt(parts, i);
      WellFormedIsParsed(parts[i].raw);
      PlainNamesReadBack(parts[i].raw.segments, resources);
    }
  }

  // ---- Names that do not read back ----

  /** A resource of the type is declared under `key`, and every output of it may be read. */
  ghost predicate Declares(types: seq<ResourceType>, ty: ResourceType) {
    FindType(types, ty.id) == Some(ty) && ty.openOutputs && ty.KindOf("h") != Some(SecretOutput)
  }

  lemma OneKeyTranslates(types: seq<ResourceType>, ty: ResourceType, key: string)
    requires Declares(types, ty) && ']' !in key
    ensures var resources := map[key := ResourceRequest(ty.id, None)];
      var segs := [Name("resources"), Quoted(key), Name("h")];
      && AllPrintable(segs) && ValidRequests(resources) && IsDeclared(segs, resources)
      && TranslatePlaceholder(segs, resources, types).Ok?
      && OwnNames(segs, resources) == [SegmentOf(key), Name("h")]
  {
    hide FindType, SegmentOf;
    assert IsName("resources") && IsName("h");
    PlainH();
    var segs := [Name("resources"), Quoted(key), Name("h")];
    assert segs[3..] == [] && [SegmentOf(key)] + ([Name("h")] + []) == [SegmentOf(key), Name("h")];
  }

  lemma PlainH()
    ensures SegmentOf("h") == Name("h")
  {
  }

  /** A dependency with an empty name translates to text that does not read back. */
  lemma EmptyNameBreaks(types: seq<ResourceType>, ty: ResourceType)
    requires Declares(types, ty)
    ensures var resources := map["" := ResourceRequest(ty.id, None)];
      var segs := [Name("resources"), Quoted(""), Name("h")];
      var t := TranslatePlaceholder(segs, resources, types);
      && AllPrintable(segs) && Unquoted(segs) && t.Ok?
      && Path(t.value.Body()) != Ok([Name(t.value.root)] + t.value.segs)
  {
    hide Path, SegmentOf, Declares, TranslatePlaceholder, AllPrintable;
    var resources := map["" := ResourceRequest(ty.id, None)];
    OneKeyTranslates(types, ty, "");
    PathReadsBackIff([Name("resources"), Quoted(""), Name("h")], resources, types);
  }

  /** A dependency whose name holds a single quote translates to text that does not end. */
  lemma QuoteBreaks(types: seq<ResourceType>, ty: ResourceType)
    requires Declares(types, ty)
    ensures var resources := map["'" := ResourceRequest(ty.id, None)];
      var segs := [Name("resources"), Quoted("'"), Name("h")];
      var t := TranslatePlaceholder(segs, resources, types);
      && AllPrintable(segs) && HasNames(segs, resources) && t.Ok? && !Scans(t.value.Body())
  {
    hide Path, Scan, SegmentOf, Declares, TranslatePlaceholder, AllPrintable, OpenAfterAll;
    var resources := map["'" := ResourceRequest(ty.id, None)];
    var segs := [Name("resources"), Quoted("'"), Name("h")];
    OneKeyTranslates(types, ty, "'");
    PathReadsBackIff(segs, resources, types);
    TranslatedReadsIff(segs, resources, types);
    QuoteStaysOpen();
  }

  /** Three quotes leave one open. */
  lemma QuoteStaysOpen()
    ensures OpenAfterAll([SegmentOf("'"), Name("h")], None) == Some(Some('\''))
  {
    hide Scan;
    assert "'"[0] == '\'' && SegmentOf("'") == Quoted("'");
    ScanOne('\'', Some('\''));
    assert "'" == ['\''];
    var segs := [SegmentOf("'"), Name("h")];
    assert segs[1..] == [Name("h")] && segs[1..][1..] == [];
    assert OpenAfter(segs[0], None) == Some(Some('\''));
  }

  // ---- Writing the translated string ----

  function Joined(done: Output, rest: Result<Output, TranslateError>): Result<Output, TranslateError> {
    match rest
    case Err(e) => Err(e)
    case Ok(more) => Ok(Output(done.text + more.text, done.secret || more.secret))
  }

  lemma JoinedStep(done: Output, parts: seq<Part>, resources: map<string, ResourceRequest>, types: seq<ResourceType>)
    requires parts != []
    ensures match TranslatePart(parts[0], resources, types)
      case Err(e) => Joined(done, TranslateParts(parts, resources, types)) == Err(e)
      case Ok(next) =>
        Joined(done, TranslateParts(parts, resources, types))
        == Joined(Output(done.text + next.text, done.secret || next.secret),
          TranslateParts(parts[1..], resources, types))
  {
    hide TranslatePart;
    var next, rest := TranslatePart(parts[0], resources, types), TranslateParts(parts[1..], resources, types);
    if next.Ok? && rest.Ok? {
      Text.Associative(done.text, next.value.text, rest.value.text);
    }
  }

  /** The loop of `translate` over one string's parts. */
  method WriteTranslated(parts: seq<Part>, resources: map<string, ResourceRequest>, types: seq<ResourceType>)
    returns (r: Result<Output, TranslateError>)
    ensures r == TranslateParts(parts, resources, types)
  {
    var out := Output("", false);
    assert parts[0..] == parts;
    assert TranslateParts(parts, resources, types).Ok? ==>
      "" + TranslateParts(parts, resources, types).value.text == TranslateParts(parts, resources, types).value.text;
    for i := 0 to |parts|
      invariant TranslateParts(parts, resources, types) == Joined(out, TranslateParts(parts[i..], resources, types))
    {
      hide TranslateParts, TranslatePart, Joined;
      JoinedStep(out, parts[i..], resources, types);
      assert parts[i..][1..] == parts[i + 1..];
      var next := TranslatePart(parts[i], resources, types);
      if next.Err? {
        return Err(next.error);
      }
      out := Output(out.text + next.value.text, out.secret || next.value.secret);
    }
    assert parts[|parts|..] == [];
    assert out.text + "" == out.text;
    r := Ok(out);
  }

  // ---- What can be translated ----

  /** An output that the type declares secret, and not also as a value. */
  ghost predicate IsSecretOf(ty: ResourceType, output: string) {
    output in ty.secrets && output !in ty.values
  }

  /** The placeholder names a declared resource, and an output that its type has; a secret has no fields. */
  ghost predicate CanTranslate(segs: seq<Segment>, resources: map<string, ResourceRequest>, types: seq<ResourceType>) {
    IsDeclared(segs, resources) &&
    var ty, output := FindType(types, resources[segs[1].Key().value].ty), segs[2].Key().value;
    && ty.Some?
    && (output in ty.value.values || output in ty.value.secrets || ty.value.openOutputs)
    && (IsSecretOf(ty.value, output) ==> |segs| == 3)
  }

  ghost predicate ReadsSecret(segs: seq<Segment>, resources: map<string, ResourceRequest>, types: seq<ResourceType>) {
    CanTranslate(segs, resources, types) &&
    IsSecretOf(FindType(types, resources[segs[1].Key().value].ty).value, segs[2].Key().value)
  }

  lemma PlaceholderTranslatesIff(segs: seq<Segment>, resources: map<string, ResourceRequest>, types: seq<ResourceType>)
    ensures TranslatePlaceholder(segs, resources, types).Ok? <==> CanTranslate(segs, resources, types)
    ensures TranslatePlaceholder(segs, resources, types).Ok? ==>
      (TranslatePlaceholder(segs, resources, types).value.secret <==> ReadsSecret(segs, resources, types))
  {
    hide FindType, SegmentOf;
  }

  ghost predicate IsOfResource(p: Part) {
    p.Placeholder? && p.raw.Root() == "resources"
  }

  ghost predicate AllCanTranslate(parts: seq<Part>, resources: map<string, ResourceRequest>,
      types: seq<ResourceType>)
  {
    forall p :: p in parts && IsOfResource(p) ==> CanTranslate(p.raw.segments, resources, types)
  }

  ghost predicate SomeReadsSecret(parts: seq<Part>, resources: map<string, ResourceRequest>,
      types: seq<ResourceType>)
  {
    exists p :: p in parts && IsOfResource(p) && ReadsSecret(p.raw.segments, resources, types)
  }

  lemma {:induction false} PartsTranslateIff(parts: seq<Part>, resources: map<string, ResourceRequest>,
      types: seq<ResourceType>)
    ensures TranslateParts(parts, resources, types).Ok? <==> AllCanTranslate(parts, resources, types)
    ensures TranslateParts(parts, resources, types).Ok? ==>
      (TranslateParts(parts, resources, types).value.secret <==> SomeReadsSecret(parts, resources, types))
  {
    hide CanTranslate, ReadsSecret, EscapeLiteral, TranslatePlaceholder;
    if parts != [] {
      PartsTranslateIff(parts[1..], resources, types);
      assert forall p :: p in parts <==> p == parts[0] || p in parts[1..];
      if IsOfResource(parts[0]) {
        PlaceholderTranslatesIff(parts[0].raw.segments, resources, types);
      }
    }
  }

  /** A string is translated exactly when every resource it names can be, and no secret reaches a plain field. */
  lemma StringTranslatesIff(s: string, resources: map<string, ResourceRequest>, types: seq<ResourceType>, sink: bool)
    ensures TranslateString(s, resources, types, sink).Ok? <==>
      && Parse(s).Ok? && AllCanTranslate(Parse(s).value, resources, types)
      && (SomeReadsSecret(Parse(s).value, resources, types) ==> sink)
    ensures TranslateString(s, resources, types, sink).Ok? ==>
      (TranslateString(s, resources, types, sink).value.secret <==> SomeReadsSecret(Parse(s).value, resources, types))
  {
    hide Parse, TranslateParts, CanTranslate, ReadsSecret;
    if Parse(s).Ok? {
      PartsTranslateIff(Parse(s).value, resources, types);
    }
  }
}
