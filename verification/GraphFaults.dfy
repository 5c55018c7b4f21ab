/** What is wrong with a deployment whose graph cannot be built. */
module GraphFaults {
  import opened Basics
  import opened Catalog
  import opened Criteria
  import opened Ids
  import opened Json
  import opened GraphSpec
  import opened GraphClosure
  import opened GraphState
  import Canonical

  /** An action the deployment itself, or a resource it needs, calls for. */
  ghost predicate IsCalledFor(input: Input, a: Action) {
    || a in RootActions(input)
    || exists e :: IsNeeded(input, e) && a in ActionsOf(input, e)
  }

  lemma AskedIsNeeded(input: Input, a: Action)
    requires IsCalledFor(input, a) && a.Ask?
    ensures IsNeeded(input, a.d)
  {
    hide RootActions, ActionsOf;
    if a in RootActions(input) {
      InAskSet(RootActions(input), a);
    } else {
      var e :| IsNeeded(input, e) && a in ActionsOf(input, e);
      InAskSet(ActionsOf(input, e), a);
    }
  }

  lemma InAskSet(actions: seq<Action>, a: Action)
    requires a in actions && a.Ask?
    ensures a.d in AskSet(actions)
  {
    var i :| 0 <= i < |actions| && actions[i] == a;
  }

  /** `d` is asked for with these canonical inputs. */
  ghost predicate IsWantedWith(input: Input, d: Descriptor, canonical: string) {
    exists a :: IsCalledFor(input, a) && AsksWith(a, d, canonical)
  }

  ghost predicate AsksWith(a: Action, d: Descriptor, canonical: string) {
    a.Ask? && a.d == d && a.params.Some? && Canonical.ToCanonicalString(a.params.value) == canonical
  }

  /** `d` is asked for with these canonical inputs by a request from `origin`. */
  ghost predicate IsWantedFrom(input: Input, d: Descriptor, origin: Origin, canonical: string) {
    exists a :: IsCalledFor(input, a) && AsksWith(a, d, canonical) && a.origin == origin
  }

  lemma FromIsWith(input: Input, d: Descriptor, origin: Origin, canonical: string)
    requires IsWantedFrom(input, d, origin, canonical)
    ensures IsWantedWith(input, d, canonical)
  {
    hide IsCalledFor, AsksWith;
  }

  /** `r` is a request for `d` that the deployment makes. */
  ghost predicate IsRequest(input: Input, d: Descriptor, r: Request) {
    exists a :: IsCalledFor(input, a) && RequestsAs(a, d, r)
  }

  ghost predicate RequestsAs(a: Action, d: Descriptor, r: Request) {
    a.Ask? && a.d == d && r == Request(a.origin, Canonically(a.params))
  }

  /** `d` is asked for by a request from `origin`. */
  ghost predicate IsAskedFrom(input: Input, d: Descriptor, origin: Origin) {
    exists r :: IsRequest(input, d, r) && r.origin == origin
  }

  /** The error names something that is really wrong, and a request that meets it. */
  ghost predicate IsFault(input: Input, e: GraphError) {
    match e
    case UnknownType(origin, ty) => HasUnknownType(input, origin, ty)
    case MissingClass(origin, ty, cls) => HasMissingClass(input, origin, ty, cls)
    case Unmatched(origin, m) => HasUnmatched(input, origin, m)
    case Conflict(d, first, second) => HasConflict(input, d, first, second)
    case InvalidId(_) => IsCalledFor(input, Fail(e))
    case BadPlaceholder(_, _) => IsCalledFor(input, Fail(e))
    case Cycle(_) => false
  }

  ghost predicate HasUnknownType(input: Input, origin: Origin, ty: string) {
    exists d :: IsNeeded(input, d) && IsAskedFrom(input, d, origin) && d.ty == ty && FindType(input.types, ty).None?
  }

  ghost predicate HasMissingClass(input: Input, origin: Origin, ty: string, cls: string) {
    exists d :: IsNeeded(input, d) && IsAskedFrom(input, d, origin)
      && d.ty == ty && d.cls == cls && !ClassDefined(input, d)
  }

  ghost predicate HasUnmatched(input: Input, origin: Origin, m: MatchError) {
    exists d :: IsNeeded(input, d) && IsAskedFrom(input, d, origin)
      && Select(input.definitions, ContextFor(input, d)) == Err(m)
  }

  ghost predicate HasConflict(input: Input, d: Descriptor, first: Origin, second: Origin) {
    exists x, y :: IsWantedFrom(input, d, first, x) && IsWantedFrom(input, d, second, y) && x != y
  }

  /** Every fixed input is one the deployment wants, and every request one it makes. */
  ghost predicate Justified(input: Input, s: State) {
    && (forall d :: d in s.explicit ==> IsWantedFrom(input, d, s.explicit[d].origin, s.explicit[d].canonical))
    && (forall d, r :: d in s.nodes && r in s.nodes[d].requests ==> IsRequest(input, d, r))
  }

  /** A step fails only for a reason, and fixes only inputs that are wanted. */
  lemma StepIsJustified(input: Input, s: State, a: Action)
    requires Inv(input, s) && Justified(input, s) && IsCalledFor(input, a)
    requires a.Link? ==> a.from in s.deps
    ensures Apply(input, s, a).Ok? ==> Justified(input, Apply(input, s, a).value)
    ensures Apply(input, s, a).Err? ==> IsFault(input, Apply(input, s, a).error)
  {
    hide IsCalledFor, IsNeeded, Inv, Select;
    match a
    case Ask(d, origin, params) =>
      AskedIsNeeded(input, a);
      if params.Some? {
        assert AsksWith(a, d, Canonical.ToCanonicalString(params.value));
        assert IsWantedFrom(input, d, origin, Canonical.ToCanonicalString(params.value));
      }
      assert RequestsAs(a, d, Request(origin, Canonically(params)));
      assert IsRequest(input, d, Request(origin, Canonically(params)));
      AskIsJustified(input, s, a);
    case Link(_, _) =>
    case AddCo(_) =>
    case Fail(e) => FailIsFault(input, e);
  }

  lemma FailIsFault(input: Input, e: Unreadable)
    requires IsCalledFor(input, Fail(e))
    ensures IsFault(input, e)
  {
    hide IsCalledFor;
  }

  /** The request `a` is called for. */
  ghost predicate IsGood(input: Input, a: Action)
    requires a.Ask?
  {
    && IsNeeded(input, a.d) && IsRequest(input, a.d, Request(a.origin, Canonically(a.params)))
    && IsAskedFrom(input, a.d, a.origin)
    && (a.params.Some? ==> IsWantedFrom(input, a.d, a.origin, Canonical.ToCanonicalString(a.params.value)))
  }

  lemma AskAgainIsJustified(input: Input, s: State, a: Action)
    requires a.Ask? && Justified(input, s) && IsGood(input, a) && a.d in s.nodes
    ensures var r := RequestAgain(s, a.d, a.origin, a.params);
      if r.Ok? then Justified(input, r.value) else IsFault(input, r.error)
  {
    hide IsWantedFrom, IsAskedFrom, IsRequest, IsNeeded, Select, Canonical.Valid, Canonical.ToCanonicalString;
  }

  lemma AskNewIsJustified(input: Input, s: State, a: Action)
    requires a.Ask? && Justified(input, s) && IsGood(input, a)
    ensures var r := RequestNew(input, s, a.d, a.origin, a.params);
      if r.Ok? then Justified(input, r.value) else IsFault(input, r.error)
  {
    hide IsWantedFrom, IsAskedFrom, IsRequest, IsNeeded, Select, Canonical.Valid, Canonical.ToCanonicalString;
  }

  lemma AskIsJustified(input: Input, s: State, a: Action)
    requires a.Ask? && Justified(input, s) && IsGood(input, a)
    ensures var r := RequestOn(input, s, a.d, a.origin, a.params);
      if r.Ok? then Justified(input, r.value) else IsFault(input, r.error)
  {
    hide Justified, IsWantedWith, IsRequest, IsNeeded, RequestAgain, RequestNew, Canonical.Valid,
      Canonical.ToCanonicalString;
    if a.d in s.nodes {
      AskAgainIsJustified(input, s, a);
    } else {
      AskNewIsJustified(input, s, a);
    }
  }
}
