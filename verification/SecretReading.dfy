/** Reading the secrets a job needs: `read_secrets` and `references` in `crates/engine/src/executor.rs`. */
module SecretReading {
  import opened Basics
  import opened Json
  import opened Placeholder
  import opened Resolve
  import opened Rendering

  /** Where a secret in a job's inputs came from. */
  datatype SecretSource = FromValues | FromOutput(guresid: string)

  datatype Owner = OfDefinition(definition: string) | OfValues | OfResource(guresid: string)

  /** What the store says when a secret is to be used for an owner. */
  datatype Decision = Granted | Forbidden | NoAnswer

  /** The secret inputs of a job, and what the environment decides and holds. */
  datatype Job = Job(
    definition: string,
    hasAccount: bool,
    secretRefs: Resolved,
    secrets: Resolved,
    resource: Resolved,
    sources: seq<(SecretRef, SecretSource)>,
    checkCriteria: bool,
    matches: bool,
    decide: (SecretRef, Owner) -> Decision,
    stored: SecretRef -> Option<string>)

  datatype Refusal =
    | CriteriaDoNotMatch
    | NoSource(r: SecretRef)
    | Unauthorised(r: SecretRef)
    | Undecided(r: SecretRef)
    | NotStored(r: SecretRef)

  /** Adds every secret reference in `r` to `before`. */
  method Collect(r: Resolved, before: set<SecretRef>) returns (out: set<SecretRef>)
    ensures out == before + References(r)
    decreases r
  {
    out := before;
    match r {
      case Done(_) =>
      case Deferred(e) =>
        for i := 0 to |e|
          invariant out == before + ExprRefs(e[..i])
        {
          assert e[..i + 1] == e[..i] + [e[i]];
          RefsGrow(e[..i], e[i]);
          if e[i].SecretText? {
            out := out + {e[i].secret};
          }
        }
        assert e[..|e|] == e;
      case Items(items) =>
        for i := 0 to |items|
          invariant forall s :: s in out <==> s in before || (exists j :: 0 <= j < i && s in References(items[j]))
        {
          out := Collect(items[i], out);
        }
      case Members(members) =>
        for i := 0 to |members|
          invariant forall s :: s in out <==>
            s in before || (exists j :: 0 <= j < i && s in References(members[j].value))
        {
          out := Collect(members[i].value, out);
        }
    }
  }

  lemma RefsGrow(e: SecretExpr, p: SecretPart)
    ensures ExprRefs(e + [p]) == ExprRefs(e) + (if p.SecretText? then {p.secret} else {})
  {
    var all := e + [p];
    assert forall i :: 0 <= i < |e| ==> all[i] == e[i];
    assert all[|e|] == p;
  }

  function OwnerOf(s: SecretSource): Owner {
    match s case FromValues => OfValues case FromOutput(g) => OfResource(g)
  }

  /** Who may give out `r`, as recorded when the inputs were resolved. */
  function Owners(sources: seq<(SecretRef, SecretSource)>, r: SecretRef): (o: seq<Owner>)
    ensures o == [] <==> forall s :: s in sources ==> s.0 != r
  {
    if sources == [] then []
    else (if sources[0].0 == r then [OwnerOf(sources[0].1)] else []) + Owners(sources[1..], r)
  }

  /** A secret from the environment's values belongs to them, and one from a resource's output to that resource. */
  lemma {:induction false} OwnersAre(sources: seq<(SecretRef, SecretSource)>, r: SecretRef, o: Owner)
    ensures o in Owners(sources, r) <==>
      || (o == OfValues && (r, FromValues) in sources)
      || (o.OfResource? && (r, FromOutput(o.guresid)) in sources)
  {
    if sources != [] {
      OwnersAre(sources[1..], r, o);
      assert forall s :: s in sources <==> s == sources[0] || s in sources[1..];
    }
  }

  ghost function InputRefs(j: Job): set<SecretRef> {
    References(j.secrets) + References(j.resource)
  }

  /** The owners a secret can be used for: its definition, or those its source names. */
  ghost function OwnersFor(j: Job, r: SecretRef): seq<Owner> {
    if r in References(j.secretRefs) then [OfDefinition(j.definition)] else Owners(j.sources, r)
  }

  /** The `i`th owner decides: every owner before it is forbidden the secret. */
  ghost predicate Decides(j: Job, owners: seq<Owner>, r: SecretRef, i: nat) {
    i < |owners| && forall k :: 0 <= k < i ==> j.decide(r, owners[k]) == Forbidden
  }

  /** An owner may use the secret, and the store answered for all owners before it. */
  ghost predicate IsGranted(j: Job, owners: seq<Owner>, r: SecretRef) {
    exists i: nat :: Decides(j, owners, r, i) && j.decide(r, owners[i]) == Granted
  }

  ghost predicate IsUndecided(j: Job, owners: seq<Owner>, r: SecretRef) {
    exists i: nat :: Decides(j, owners, r, i) && j.decide(r, owners[i]) == NoAnswer
  }

  ghost predicate IsForbidden(j: Job, owners: seq<Owner>, r: SecretRef) {
    forall i :: 0 <= i < |owners| ==> j.decide(r, owners[i]) == Forbidden
  }

  /** `authorize` */
  method Authorize(j: Job, owners: seq<Owner>, r: SecretRef) returns (d: Decision)
    ensures d == Granted <==> IsGranted(j, owners, r)
    ensures d == NoAnswer <==> IsUndecided(j, owners, r)
    ensures d == Forbidden <==> IsForbidden(j, owners, r)
  {
    for i := 0 to |owners|
      invariant forall k :: 0 <= k < i ==> j.decide(r, owners[k]) == Forbidden
    {
      d := j.decide(r, owners[i]);
      if d != Forbidden {
        assert Decides(j, owners, r, i);
        OneDecides(j, owners, r, i);
        return;
      }
    }
    d := Forbidden;
  }

  /** The first owner that is not forbidden the secret is the only one that decides. */
  lemma OneDecides(j: Job, owners: seq<Owner>, r: SecretRef, i: nat)
    requires Decides(j, owners, r, i) && j.decide(r, owners[i]) != Forbidden
    ensures forall k: nat :: Decides(j, owners, r, k) && j.decide(r, owners[k]) != Forbidden ==> k == i
  {
  }

  ghost predicate MayRead(j: Job, r: SecretRef) {
    IsGranted(j, OwnersFor(j, r), r)
  }

  ghost predicate IsRefused(j: Job, e: Refusal) {
    match e
    case CriteriaDoNotMatch => j.checkCriteria && !j.matches && (References(j.secretRefs) != {} || j.hasAccount)
    case NoSource(r) => r in InputRefs(j) && OwnersFor(j, r) == []
    case Unauthorised(r) => IsNeeded(j, r) && OwnersFor(j, r) != [] && IsForbidden(j, OwnersFor(j, r), r)
    case Undecided(r) => IsNeeded(j, r) && IsUndecided(j, OwnersFor(j, r), r)
    case NotStored(r) => IsNeeded(j, r) && j.stored(r).None?
  }

  ghost predicate IsNeeded(j: Job, r: SecretRef) {
    r in References(j.secretRefs) + InputRefs(j)
  }

  lemma GrantedIsNotRefused(j: Job, owners: seq<Owner>, r: SecretRef)
    requires IsGranted(j, owners, r)
    ensures !IsForbidden(j, owners, r) && !IsUndecided(j, owners, r) && owners != []
  {
    var i: nat :| Decides(j, owners, r, i) && j.decide(r, owners[i]) == Granted;
    OneDecides(j, owners, r, i);
  }

  /** A job whose secrets could all be read is not refused. */
  lemma ReadIsNotRefused(j: Job, read: Secrets)
    requires IsRead(j, read, References(j.secretRefs) + InputRefs(j))
    requires !j.checkCriteria || j.matches || (References(j.secretRefs) == {} && !j.hasAccount)
    ensures forall e :: !IsRefused(j, e)
  {
    hide References, OwnersFor, IsGranted, IsForbidden, IsUndecided;
    forall e ensures !IsRefused(j, e) {
      if !e.CriteriaDoNotMatch? && IsNeeded(j, e.r) {
        GrantedIsNotRefused(j, OwnersFor(j, e.r), e.r);
      }
    }
  }

  /** What was read so far is allowed, and is what is stored. */
  ghost predicate IsRead(j: Job, read: Secrets, refs: set<SecretRef>) {
    read.Keys == refs && forall r :: r in refs ==> MayRead(j, r) && j.stored(r) == Some(read[r])
  }

  /** The definition's own secrets. */
  method ReadOwn(j: Job, refs: set<SecretRef>) returns (r: Result<Secrets, Refusal>)
    requires refs == References(j.secretRefs)
    ensures r.Ok? ==> IsRead(j, r.value, refs)
    ensures r.Err? ==> IsRefused(j, r.error)
  {
    hide References, Owners, IsGranted, IsForbidden, IsUndecided;
    var read: Secrets := map[];
    var todo := refs;
    while todo != {}
      invariant todo <= refs && IsRead(j, read, refs - todo)
    {
      var s :| s in todo;
      var decision := Authorize(j, [OfDefinition(j.definition)], s);
      if decision != Granted {
        return Err(if decision == Forbidden then Unauthorised(s) else Undecided(s));
      }
      var value := j.stored(s);
      if value.None? {
        return Err(NotStored(s));
      }
      read := read[s := value.value];
      todo := todo - {s};
    }
    assert refs - {} == refs;
    r := Ok(read);
  }

  /** `read_secrets` */
  method ReadSecrets(j: Job) returns (r: Result<Secrets, Refusal>)
    ensures r.Ok? ==> IsRead(j, r.value, References(j.secretRefs) + InputRefs(j))
    ensures r.Ok? ==> forall e :: !IsRefused(j, e)
    ensures r.Err? ==> IsRefused(j, r.error)
  {
    hide References, Owners, IsGranted, IsForbidden, IsUndecided;
    var own := Collect(j.secretRefs, {});
    var inputs := Collect(j.secrets, {});
    inputs := Collect(j.resource, inputs);
    if j.checkCriteria && (own != {} || j.hasAccount) && !j.matches {
      return Err(CriteriaDoNotMatch);
    }
    r := ReadOwn(j, own);
    if r.Err? {
      return;
    }
    var read := r.value;
    var todo := inputs;
    while todo != {}
      invariant todo <= inputs == InputRefs(j) && IsRead(j, read, own + (inputs - todo))
    {
      var s :| s in todo;
      todo := todo - {s};
      if s in read {
        assert own + (inputs - todo) == own + (inputs - (todo + {s})) + {s};
        continue;
      }
      var owners := Owners(j.sources, s);
      if owners == [] {
        return Err(NoSource(s));
      }
      var decision := Authorize(j, owners, s);
      if decision != Granted {
        return Err(if decision == Forbidden then Unauthorised(s) else Undecided(s));
      }
      var value := j.stored(s);
      if value.None? {
        return Err(NotStored(s));
      }
      read := read[s := value.value];
    }
    assert own + (inputs - {}) == own + inputs;
    ReadIsNotRefused(j, read);
    r := Ok(read);
  }

  /** With the secrets read, every input of the job can be rendered. */
  lemma InputsRender(j: Job, read: Secrets)
    requires IsRead(j, read, References(j.secretRefs) + InputRefs(j))
    ensures Render(j.secretRefs, read).Some? && Render(j.secrets, read).Some? && Render(j.resource, read).Some?
  {
    hide References;
    RendersIffRead(j.secretRefs, read);
    RendersIffRead(j.secrets, read);
    RendersIffRead(j.resource, read);
  }
}
