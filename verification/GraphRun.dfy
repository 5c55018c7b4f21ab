/** What a run of construction steps does, and why it fails. */
module GraphRun {
  import opened Basics
  import opened Ids
  import Topology
  import opened GraphSpec
  import opened GraphClosure
  import opened GraphState
  import opened GraphFaults
  import Canonical

  ghost predicate CanRun(input: Input, s: State, actions: seq<Action>) {
    Inv(input, s) && Ready(actions, s.nodes.Keys)
  }

  lemma FirstFits(input: Input, s: State, actions: seq<Action>)
    requires CanRun(input, s, actions) && actions != []
    ensures Fits(s, actions[0]) && (actions[0].Link? ==> actions[0].from in s.deps)
  {
    hide AllMatch, AllAgree, Distinct, Topology.Closed;
  }

  lemma StepCanRun(input: Input, s: State, actions: seq<Action>)
    requires CanRun(input, s, actions) && actions != []
    requires Fits(s, actions[0]) && (actions[0].Link? ==> actions[0].from in s.deps)
    requires Apply(input, s, actions[0]).Ok?
    ensures CanRun(input, Apply(input, s, actions[0]).value, actions[1..])
    ensures Stepped(s, Apply(input, s, actions[0]).value, actions[0])
  {
    hide Inv, Apply, QueueStepped, InputsStepped, AskSet, LinkSet, CoSet;
    var t := Apply(input, s, actions[0]).value;
    ApplySteps(input, s, actions[0]);
    SingleSets(actions[0]);
    assert actions[0].Ask? || t.nodes.Keys == s.nodes.Keys;
  }

  /** The state after `actions`, or the first error. */
  ghost function ApplyAll(input: Input, s: State, actions: seq<Action>): Result<State, GraphError>
    requires CanRun(input, s, actions)
    decreases |actions|
  {
    if actions == [] then Ok(s)
    else
      FirstFits(input, s, actions);
      if Apply(input, s, actions[0]).Err? then Apply(input, s, actions[0])
      else
        StepCanRun(input, s, actions);
        ApplyAll(input, Apply(input, s, actions[0]).value, actions[1..])
  }

  lemma ApplyAllStep(input: Input, s: State, actions: seq<Action>)
    requires CanRun(input, s, actions) && actions != []
    ensures Fits(s, actions[0]) && (actions[0].Link? ==> actions[0].from in s.deps)
    ensures Apply(input, s, actions[0]).Err? ==> ApplyAll(input, s, actions) == Apply(input, s, actions[0])
    ensures Apply(input, s, actions[0]).Ok? ==>
      && CanRun(input, Apply(input, s, actions[0]).value, actions[1..])
      && ApplyAll(input, s, actions) == ApplyAll(input, Apply(input, s, actions[0]).value, actions[1..])
  {
    hide CanRun, Apply, Fits, Stepped;
    FirstFits(input, s, actions);
    if Apply(input, s, actions[0]).Ok? {
      StepCanRun(input, s, actions);
    }
  }

  /** A request comes first. */
  lemma AskFirst(input: Input, s: State, actions: seq<Action>)
    requires CanRun(input, s, actions) && actions != [] && actions[0].Ask?
    ensures var r := RequestOn(input, s, actions[0].d, actions[0].origin, actions[0].params);
      && (r.Err? ==> ApplyAll(input, s, actions) == r)
      && (r.Ok? ==>
        CanRun(input, r.value, actions[1..]) && ApplyAll(input, s, actions) == ApplyAll(input, r.value, actions[1..]))
  {
    hide CanRun, ApplyAll, RequestOn;
    ApplyAllStep(input, s, actions);
  }

  /** An edge comes first. */
  lemma LinkFirst(input: Input, s: State, actions: seq<Action>)
    requires CanRun(input, s, actions) && actions != [] && actions[0].Link?
    ensures actions[0].from in s.deps
    ensures var t := LinkOn(s, actions[0].from, actions[0].to);
      CanRun(input, t, actions[1..]) && ApplyAll(input, s, actions) == ApplyAll(input, t, actions[1..])
  {
    hide CanRun, ApplyAll, LinkOn;
    ApplyAllStep(input, s, actions);
  }

  /** A failure comes first. */
  lemma FailFirst(input: Input, s: State, actions: seq<Action>)
    requires CanRun(input, s, actions) && actions != [] && actions[0].Fail?
    ensures ApplyAll(input, s, actions) == Err(actions[0].error)
  {
    hide CanRun, ApplyAll;
    ApplyAllStep(input, s, actions);
  }

  lemma NothingToApply(input: Input, s: State)
    requires Inv(input, s)
    ensures CanRun(input, s, []) && ApplyAll(input, s, []) == Ok(s)
  {
    hide Inv;
  }

  /** Running a list is running its front, then its back. */
  lemma {:induction false} ApplyAllJoin(input: Input, s: State, a: seq<Action>, b: seq<Action>)
    requires CanRun(input, s, a + b)
    ensures CanRun(input, s, a)
    ensures ApplyAll(input, s, a).Err? ==> ApplyAll(input, s, a + b) == ApplyAll(input, s, a)
    ensures ApplyAll(input, s, a).Ok? ==>
      && CanRun(input, ApplyAll(input, s, a).value, b)
      && ApplyAll(input, s, a + b) == ApplyAll(input, ApplyAll(input, s, a).value, b)
    decreases |a|
  {
    hide Inv, Apply, Fits, ApplyAll, CanRun;
    if a == [] {
      assert a + b == b;
      FrontCanRun(input, s, a, b);
      assert Inv(input, s) by { CanRunHasInv(input, s, b); }
      NothingToApply(input, s);
    } else {
      assert (a + b)[0] == a[0] && (a + b)[1..] == a[1..] + b;
      FrontCanRun(input, s, a, b);
      ApplyAllStep(input, s, a + b);
      ApplyAllStep(input, s, a);
      if Apply(input, s, a[0]).Ok? {
        ApplyAllJoin(input, Apply(input, s, a[0]).value, a[1..], b);
      }
    }
  }

  lemma CanRunHasInv(input: Input, s: State, actions: seq<Action>)
    requires CanRun(input, s, actions)
    ensures Inv(input, s)
  {
  }

  lemma FrontCanRun(input: Input, s: State, a: seq<Action>, b: seq<Action>)
    requires CanRun(input, s, a + b)
    ensures CanRun(input, s, a)
  {
    hide Inv;
    FrontIsReady(a, b, s.nodes.Keys);
  }

  lemma {:induction false} FrontIsReady(a: seq<Action>, b: seq<Action>, known: set<Descriptor>)
    requires Ready(a + b, known)
    ensures Ready(a, known)
    decreases |a|
  {
    if a != [] {
      assert (a + b)[0] == a[0] && (a + b)[1..] == a[1..] + b;
      match a[0]
      case Ask(d, _, _) => FrontIsReady(a[1..], b, known + {d});
      case Fail(_) =>
      case _ => FrontIsReady(a[1..], b, known);
    }
  }

  // ---- Effects ----

  ghost predicate AllMet(t: State, actions: seq<Action>) {
    forall i :: 0 <= i < |actions| ==> InputMet(t, actions[i]) && Requested(t, actions[i])
  }

  /** Later steps keep what earlier ones met. */
  lemma StillMet(s: State, t: State, actions: seq<Action>)
    requires AllMet(s, actions) && Kept(s, t)
    ensures AllMet(t, actions)
  {
    hide Canonical.Valid, Canonical.ToCanonicalString;
  }

  /** The nodes that are new are queued. */
  ghost predicate QueueGrew(s: State, t: State) {
    && s.queue <= t.queue
    && forall d :: d in t.queue[|s.queue|..] <==> d in t.nodes && d !in s.nodes
  }

  ghost predicate SetsGrew(s: State, t: State, actions: seq<Action>) {
    && t.nodes.Keys == s.nodes.Keys + AskSet(actions)
    && Edges(t.deps) == Edges(s.deps) + LinkSet(actions)
    && t.co == s.co + CoSet(actions)
  }

  ghost predicate Ran(s: State, t: State, actions: seq<Action>) {
    NoFail(actions) && SetsGrew(s, t, actions) && QueueGrew(s, t) && Kept(s, t) && AllMet(t, actions)
  }

  lemma SetsThen(s: State, u: State, t: State, actions: seq<Action>)
    requires actions != [] && SetsStepped(s, u, actions[0]) && SetsGrew(u, t, actions[1..])
    ensures SetsGrew(s, t, actions)
  {
    hide AskSet, LinkSet, CoSet, Edges, NoFail;
    SetsJoin([actions[0]], actions[1..]);
    assert actions == [actions[0]] + actions[1..];
  }

  lemma QueueThen(s: State, u: State, t: State, a: Action)
    requires QueueStepped(s, u, a) && QueueGrew(u, t)
    requires u.nodes.Keys == s.nodes.Keys + AskSet([a]) && u.nodes.Keys <= t.nodes.Keys
    ensures QueueGrew(s, t)
  {
    hide AskSet;
    SingleSets(a);
    if u.queue == s.queue {
      assert t.queue[|s.queue|..] == t.queue[|u.queue|..];
    } else {
      assert t.queue[|s.queue|] == u.queue[|s.queue|] == a.d;
      assert t.queue[|s.queue|..] == [a.d] + t.queue[|u.queue|..];
    }
  }

  lemma InputsThen(s: State, u: State, t: State, actions: seq<Action>)
    requires actions != [] && InputsStepped(s, u, actions[0]) && Kept(u, t) && AllMet(t, actions[1..])
    ensures Kept(s, t) && AllMet(t, actions)
  {
    hide Canonical.Valid, Canonical.ToCanonicalString;
    forall i | 0 <= i < |actions| ensures InputMet(t, actions[i]) && Requested(t, actions[i]) {
      if i > 0 {
        assert actions[i] == actions[1..][i - 1];
      }
    }
  }

  lemma RanNothing(s: State)
    ensures Ran(s, s, [])
  {
    EmptySets({});
  }

  lemma {:induction false} ApplyAllRan(input: Input, s: State, actions: seq<Action>)
    requires CanRun(input, s, actions) && ApplyAll(input, s, actions).Ok?
    ensures Inv(input, ApplyAll(input, s, actions).value)
    ensures Ran(s, ApplyAll(input, s, actions).value, actions)
    decreases |actions|
  {
    hide Inv, Apply, Fits, ApplyAll, Ready, AskSet, LinkSet, CoSet, Edges, AllMet, Kept, QueueStepped,
      InputsStepped, QueueGrew;
    if actions == [] {
      NothingToApply(input, s);
      RanNothing(s);
    } else {
      ApplyAllStep(input, s, actions);
      var u := Apply(input, s, actions[0]).value;
      var t := ApplyAll(input, s, actions).value;
      StepCanRun(input, s, actions);
      ApplyAllRan(input, u, actions[1..]);
      AskSetStep(actions);
      SetsThen(s, u, t, actions);
      QueueThen(s, u, t, actions[0]);
      InputsThen(s, u, t, actions);
    }
  }

  ghost predicate AllCalledFor(input: Input, actions: seq<Action>) {
    forall i :: 0 <= i < |actions| ==> IsCalledFor(input, actions[i])
  }

  lemma {:induction false} ApplyAllJustified(input: Input, s: State, actions: seq<Action>)
    requires CanRun(input, s, actions) && Justified(input, s) && AllCalledFor(input, actions)
    ensures var r := ApplyAll(input, s, actions);
      if r.Ok? then Justified(input, r.value) else IsFault(input, r.error)
    decreases |actions|
  {
    hide Apply, Fits, ApplyAll, Ready, Justified, IsCalledFor, IsFault, Inv;
    if actions == [] {
      NothingToApply(input, s);
    } else {
      ApplyAllStep(input, s, actions);
      StepIsJustified(input, s, actions[0]);
      if Apply(input, s, actions[0]).Ok? {
        ApplyAllJustified(input, Apply(input, s, actions[0]).value, actions[1..]);
      }
    }
  }
}
