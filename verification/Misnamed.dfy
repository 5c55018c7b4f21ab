/** References that the graph and the run read differently, with deployments in which they do. */
module Misnamed {
  import opened Basics
  import opened Catalog
  import opened Collect
  import opened Criteria
  import opened Ids
  import opened Json
  import opened Placeholder
  import opened Template
  import opened TemplateLaws
  import opened PathLaws
  import opened GraphSpec
  import opened GraphMeaning
  import opened References
  import Resolve
  import Text

  /** The built-in implicit types, which are all that a run's scope knows. */
  const BUILT_IN: set<string> := {"workload", "base-env", "k8s-cluster", "k8s-namespace"}

  // ---- Custom implicit types ----

  /** A type that only the catalogue knows as implicit is misnamed, unless the reference leaves nothing to inherit. */
  lemma UnknownImplicitTypeIsMisnamed(input: Input, scope: Scope, target: ResourceRef, d: Descriptor)
    requires IsScopeOf(scope, d) && IsImplicit(input.types, target.ty) && target.ty !in scope.implicitTypes
    requires !IsFixed(target, d)
    ensures scope.DescriptorFor(target) != Some(ResolveRef(input, target, d))
  {
    NamesAlikeIff(input, scope, target, d);
  }

  lemma {:induction false} SlashBecomesDash(org: string, name: string)
    requires '/' !in org && '/' !in name
    ensures Text.ReplaceAll(org + "/" + name, "/", "-") == org + "-" + name
  {
    var s := org + "/" + name;
    if org == "" {
      assert s[..1] == "/" && s[1..] == name;
      PlainStays(name);
    } else {
      assert s[0] == org[0] && s[1..] == org[1..] + "/" + name;
      assert s[..1] != "/" by { assert s[..1][0] == org[0]; }
      SlashBecomesDash(org[1..], name);
    }
  }

  lemma {:induction false} PlainStays(s: string)
    requires '/' !in s
    ensures Text.ReplaceAll(s, "/", "-") == s
  {
    if s != "" {
      assert s[..1] != "/" by { assert s[..1][0] == s[0]; }
      PlainStays(s[1..]);
    }
  }

  /** No built-in type has an organization. */
  lemma CustomIsNotBuiltIn(org: string, name: string)
    ensures org + "/" + name !in BUILT_IN
  {
    var s := org + "/" + name;
    assert s[|org|] == '/';
    assert '/' !in "workload" && '/' !in "base-env" && '/' !in "k8s-cluster" && '/' !in "k8s-namespace";
  }

  /**
   Any organization's own implicit type, named without class and ID by a resource
   of another class: the graph means the one of the environment, and the run looks
   for one of the referrer's class and ID.
   */
  lemma CustomTypeIsMisnamed(input: Input, scope: Scope, org: string, name: string, d: Descriptor)
    requires IsObjectId(org) && IsTypeName(name) && IsImplicit(input.types, org + "/" + name)
    requires IsScopeOf(scope, d) && scope.implicitTypes == BUILT_IN && d.cls != DEFAULT_CLASS
    ensures var target := ResourceRef(org + "/" + name, None, None);
      && ResolveRef(input, target, d) == Descriptor(org + "/" + name, DEFAULT_CLASS, org + "-" + name)
      && scope.DescriptorFor(target) == Some(Descriptor(org + "/" + name, d.cls, d.id))
      && scope.DescriptorFor(target) != Some(ResolveRef(input, target, d))
  {
    hide IsImplicit, Text.ReplaceAll;
    CustomIsNotBuiltIn(org, name);
    SlashBecomesDash(org, name);
  }

  // ---- Co-provisioning params ----

  /** An entry for a resource of type `ty` and class `cls`, whose params name a resource of type `role`. */
  function EntryFor(ty: string, cls: string, role: string, output: string): ProvisionEntry {
    ProvisionEntry(ty + "." + cls, Provision(true, false, Some(Str("${" + RoleBody(role, output) + "}"))))
  }

  function RoleBody(role: string, output: string): string {
    "resources" + PathText(RolePath(role, output))
  }

  function RolePath(role: string, output: string): seq<Segment> {
    [Name(role), Name("outputs"), Name(output)]
  }

  /** What the params read. */
  function RoleOf(role: string, output: string): Expr {
    Resource(ResourceRef(role, None, None), Outputs([Name(output)]))
  }

  /** Built-in type names that are not a field of a placeholder. */
  ghost predicate IsPlainType(ty: string) {
    IsTypeName(ty) && !IsField(Name(ty))
  }

  /**
   A resource co-provisions one of another class, whose params name a third
   without class. The graph makes the co-provisioned resource depend on the one
   of the first's class, and the run looks for one of the second's.
   */
  lemma ParamIsMisnamed(input: Input, scope: Scope, d: Descriptor, ty: string, cls: string, role: string,
      output: string)
    requires IsTypeName(ty) && IsPlainType(role) && IsObjectId(cls) && IsTypeName(output) && cls != d.cls
    requires !IsImplicit(input.types, ty) && !IsImplicit(input.types, role) && role !in BUILT_IN
    requires IsScopeOf(scope, Descriptor(ty, cls, d.id)) && scope.implicitTypes == BUILT_IN
    ensures var entry, e := EntryFor(ty, cls, role, output), RoleOf(role, output);
      && CoOf(input, d, entry) == Some(Descriptor(ty, cls, d.id))
      && IsMentioned(OrNull(entry.provision.params), InDefinition, e)
      && ResolveRef(input, e.target, d) == Descriptor(role, d.cls, d.id)
      && scope.DescriptorFor(e.target) == Some(Descriptor(role, cls, d.id))
      && scope.DescriptorFor(e.target) != Some(ResolveRef(input, e.target, d))
  {
    hide IsMentioned, IsImplicit, IsPlainType, IsTypeName, IsObjectId, RoleBody, ParseRef;
    KeyParses(ty, cls);
    RoleIsMentioned(role, output);
  }

  const BUCKET: Descriptor := Descriptor("s3", "default", "modules.web.externals.files")

  /** For example a bucket's read-only policy, whose params name a role. */
  lemma PolicyIsMisnamed(input: Input, scope: Scope)
    requires !IsImplicit(input.types, "aws-policy") && !IsImplicit(input.types, "aws-role")
    requires IsScopeOf(scope, Descriptor("aws-policy", "readonly", BUCKET.id)) && scope.implicitTypes == BUILT_IN
    ensures var entry, e := EntryFor("aws-policy", "readonly", "aws-role", "arn"), RoleOf("aws-role", "arn");
      && CoOf(input, BUCKET, entry) == Some(Descriptor("aws-policy", "readonly", BUCKET.id))
      && IsMentioned(OrNull(entry.provision.params), InDefinition, e)
      && ResolveRef(input, e.target, BUCKET) == Descriptor("aws-role", "default", BUCKET.id)
      && scope.DescriptorFor(e.target) == Some(Descriptor("aws-role", "readonly", BUCKET.id))
  {
    hide IsMentioned, IsImplicit, IsPlainType, IsTypeName, IsObjectId, EntryFor, ResolveRef, CoOf;
    RoleIsPlain();
    ReadonlyIsAnotherClass();
    ParamIsMisnamed(input, scope, BUCKET, "aws-policy", "readonly", "aws-role", "arn");
  }

  lemma RoleIsPlain()
    ensures IsTypeName("aws-policy") && IsPlainType("aws-role") && IsTypeName("arn") && "aws-role" !in BUILT_IN
  {
    assert "aws-role"[0] == 'a' && "aws-role"[1] == 'w' && "account"[1] == 'c';
    assert "outputs"[0] == 'o' && "guresid"[0] == 'g' && "workload"[0] == 'w' && "base-env"[0] == 'b';
    assert "k8s-cluster"[0] == 'k' && "k8s-namespace"[0] == 'k';
  }

  lemma ReadonlyIsAnotherClass()
    ensures IsObjectId("readonly") && "readonly" != "default"
  {
    assert "readonly"[0] == 'r' && "default"[0] == 'd';
  }

  lemma TypeIsPlain(ty: string)
    requires IsTypeName(ty)
    ensures '.' !in ty && '#' !in ty && '/' !in ty && QuoteFree(ty) && '}' !in ty && IsName(ty)
  {
  }

  lemma KeyParses(ty: string, cls: string)
    requires IsTypeName(ty) && IsObjectId(cls)
    ensures ParseRef(ty + "." + cls) == Some(ResourceRef(ty, Some(cls), None))
  {
    hide IsObjectId, IsTypeName;
    var s := ty + "." + cls;
    TypeIsPlain(ty);
    ClassIsPlain(cls);
    Text.FindIs(s, '#', |s|);
    assert s[..|s|] == s;
    Text.FindIs(s, '.', |ty|);
    assert s[..|ty|] == ty && s[|ty| + 1..] == cls;
    Text.FindIs(ty, '/', |ty|);
  }

  lemma ClassIsPlain(cls: string)
    requires IsObjectId(cls)
    ensures '#' !in cls
  {
  }

  lemma RoleParses(role: string)
    requires IsPlainType(role)
    ensures ParseRef(role) == Some(ResourceRef(role, None, None))
  {
    hide IsTypeName;
    TypeIsPlain(role);
    Text.FindIs(role, '#', |role|);
    assert role[..|role|] == role;
    Text.FindIs(role, '.', |role|);
    Text.FindIs(role, '/', |role|);
  }

  lemma FixedNames()
    ensures IsName("resources") && IsName("outputs") && IsField(Name("outputs"))
    ensures QuoteFree("resources") && '}' !in "resources"
  {
  }

  lemma RolePathReads(role: string, output: string)
    requires IsPlainType(role) && IsTypeName(output)
    ensures Path(RoleBody(role, output)) == Ok([Name("resources")] + RolePath(role, output))
    ensures Scans(RoleBody(role, output))
  {
    hide Path, Scan, IsTypeName, IsName, PathText;
    var segs := RolePath(role, output);
    TypeIsPlain(role);
    TypeIsPlain(output);
    FixedNames();
    assert '}' !in "outputs";
    RootedPathReads("resources", segs);
    PlainCloses(segs);
    PathOpens(segs, None);
    PlainScans("resources");
    ScanJoins("resources", PathText(segs), None);
  }

  lemma RoleIsRead(role: string, output: string)
    requires IsPlainType(role)
    ensures ParseResourceRef(RolePath(role, output)) == Some((RoleOf(role, output).target, RoleOf(role, output).field))
  {
    hide ParseRef, IsTypeName;
    var segs := RolePath(role, output);
    FixedNames();
    assert segs[1..][0] == segs[1] && FieldIndex(segs[1..]) == 0;
    assert FieldIndex(segs) == 1;
    OneName(role);
    assert segs[..1] == [Name(role)];
    assert segs[1..] == [Name("outputs"), Name(output)] && segs[1..][1..] == [Name(output)];
    RoleParses(role);
  }

  lemma OneName(role: string)
    ensures Placeholder.Names([Name(role)]) == Some([role])
  {
    var names := Placeholder.Names([Name(role)]);
    assert names.Some? && names.value[0] == [Name(role)][0].name;
    assert names.value == [role];
  }

  lemma RoleIsMentioned(role: string, output: string)
    requires IsPlainType(role) && IsTypeName(output)
    ensures IsMentioned(Str("${" + RoleBody(role, output) + "}"), InDefinition, RoleOf(role, output))
  {
    hide Path, Scan, Parse, ParseResourceRef, IsTypeName, RoleBody, IsPlainType, Interpret;
    var body, segs := RoleBody(role, output), [Name("resources")] + RolePath(role, output);
    var raw := RawPlaceholder("${" + body + "}", segs);
    var parts := [Part.Placeholder(raw)];
    RolePathReads(role, output);
    assert WellFormedAt(parts, 0);
    ParseInvertsPrint(parts);
    assert parts[1..] == [] && Print(parts) == raw.text + "" == raw.text;
    RoleIsInterpreted(role, output, raw);
    assert parts[0].raw == raw && Resolve.Placeholders(parts)[0] == raw;
    assert IsAmong(Resolve.Placeholders(parts), InDefinition, RoleOf(role, output));
    assert Parse(raw.text) == Ok(parts);
  }

  lemma RoleIsInterpreted(role: string, output: string, raw: RawPlaceholder)
    requires IsPlainType(role) && raw.segments == [Name("resources")] + RolePath(role, output)
    ensures Interpret(raw, InDefinition) == Ok(RoleOf(role, output))
  {
    hide ParseResourceRef, IsTypeName;
    RoleIsRead(role, output);
    assert raw.segments[1..] == RolePath(role, output) && raw.Root() == "resources";
    assert "resources"[0] == 'r' && "context"[0] == 'c';
  }
}
