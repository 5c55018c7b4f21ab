/** What a deployment's run ends with does not depend on the order in which its resources end. */
module Confluence {
  import opened Basics
  import opened Ids
  import opened Outcomes
  import opened Placeholder
  import opened Topology
  import opened Ancestry
  import opened Scheduler

  function Restrict(done: Finished, ds: set<Descriptor>): Finished {
    map d | d in done && d in ds :: done[d]
  }

  /** A resource's result is a function of the resource and its dependencies' outputs, whatever else has finished. */
  ghost predicate IsLocal(p: Plan) {
    forall d, seen: Finished, at :: CanStartWith(p.deps, d, seen.Keys) ==> SeesDependenciesOnly(p, d, seen, at)
  }

  /** Dependencies of dependencies count: they have finished as well. */
  ghost predicate SeesDependenciesOnly(p: Plan, d: Descriptor, seen: Finished, at: nat) {
    p.exec(d, seen, at) == p.exec(d, Restrict(seen, Below(p.deps, d)), 0)
  }

  ghost predicate NeverLate(p: Plan) {
    forall n :: p.clock(n) < p.deadline
  }

  ghost function ResultOf(p: Plan, done: Finished, d: Descriptor): Result<ResourceOutputs, Setback> {
    p.exec(d, Restrict(done, Below(p.deps, d)), 0)
  }

  ghost predicate AllProvisioned(p: Plan, outcomes: map<Descriptor, Outcome>, d: Descriptor)
    requires d in p.deps
  {
    forall e :: e in p.deps[d] ==> HasProvisioned(outcomes, e)
  }

  /** What one resource ends with, given what its dependencies end with. */
  ghost predicate SolvesAt(p: Plan, outcomes: map<Descriptor, Outcome>, done: Finished, d: Descriptor)
    requires d in p.deps && d in outcomes
  {
    if AllProvisioned(p, outcomes, d) then
      outcomes[d] == OutcomeOf(ResultOf(p, done, d)) && (d in done ==> ResultOf(p, done, d) == Ok(done[d]))
    else
      FirstWaiting(p.order, p.deps[d], outcomes).Some?
      && outcomes[d] == Pending(WaitingFor(FirstWaiting(p.order, p.deps[d], outcomes).value))
  }

  /** The equations that the outcomes of an unhurried run meet. */
  ghost predicate Solves(p: Plan, outcomes: map<Descriptor, Outcome>, done: Finished) {
    && outcomes.Keys == p.deps.Keys
    && (forall d :: d in done <==> HasProvisioned(outcomes, d))
    && (forall d :: d in p.deps ==> SolvesAt(p, outcomes, done, d))
  }

  // ---- One solution ----

  ghost predicate AgreeAt(a: map<Descriptor, Outcome>, x: Finished, b: map<Descriptor, Outcome>, y: Finished,
      d: Descriptor) {
    && d in a && d in b && a[d] == b[d]
    && (d in x <==> d in y) && (d in x ==> x[d] == y[d])
  }

  lemma SameRestriction(x: Finished, y: Finished, ds: set<Descriptor>)
    requires forall d :: d in ds ==> (d in x <==> d in y) && (d in x ==> x[d] == y[d])
    ensures Restrict(x, ds) == Restrict(y, ds)
  {
  }

  /** All dependencies agree, direct or not. */
  ghost predicate AgreeBelow(p: Plan, a: map<Descriptor, Outcome>, x: Finished, b: map<Descriptor, Outcome>,
      y: Finished, d: Descriptor) {
    forall e :: e in Below(p.deps, d) ==> AgreeAt(a, x, b, y, e)
  }

  lemma BelowAgrees(p: Plan, a: map<Descriptor, Outcome>, x: Finished, b: map<Descriptor, Outcome>, y: Finished,
      d: Descriptor)
    requires Closed(p.deps) && d in p.deps
    requires forall e :: e in p.deps[d] ==> AgreeAt(a, x, b, y, e) && AgreeBelow(p, a, x, b, y, e)
    ensures AgreeBelow(p, a, x, b, y, d)
  {
    hide Below, AgreeAt;
    forall e | e in Below(p.deps, d) ensures AgreeAt(a, x, b, y, e) {
      BelowSteps(p.deps, d, e);
    }
  }

  lemma DirectAgree(p: Plan, a: map<Descriptor, Outcome>, x: Finished, b: map<Descriptor, Outcome>, y: Finished,
      d: Descriptor)
    requires Closed(p.deps) && d in p.deps && AgreeBelow(p, a, x, b, y, d)
    ensures forall e :: e in p.deps[d] ==> AgreeAt(a, x, b, y, e)
  {
    hide AgreeAt, Below;
    forall e | e in p.deps[d] ensures AgreeAt(a, x, b, y, e) {
      BelowSteps(p.deps, d, e);
    }
  }

  /** If the dependencies agree, so does the resource. */
  lemma AgreementSpreads(p: Plan, a: map<Descriptor, Outcome>, x: Finished, b: map<Descriptor, Outcome>,
      y: Finished, d: Descriptor)
    requires Closed(p.deps) && Solves(p, a, x) && Solves(p, b, y) && d in p.deps && AgreeBelow(p, a, x, b, y, d)
    ensures AgreeAt(a, x, b, y, d)
  {
    hide FirstWaiting, Restrict, Solves, Below;
    SolvesHere(p, a, x, d);
    SolvesHere(p, b, y, d);
    SameRestriction(x, y, Below(p.deps, d));
    DirectAgree(p, a, x, b, y, d);
    SameWaiting(p.order, p.deps[d], a, b);
    assert AllProvisioned(p, a, d) <==> AllProvisioned(p, b, d);
  }

  lemma SolvesHere(p: Plan, a: map<Descriptor, Outcome>, x: Finished, d: Descriptor)
    requires Solves(p, a, x) && d in p.deps
    ensures d in a && SolvesAt(p, a, x, d) && (d in x <==> HasProvisioned(a, d))
  {
    hide SolvesAt;
  }

  /** On an acyclic graph the equations have one solution. */
  lemma SolutionIsUnique(p: Plan, a: map<Descriptor, Outcome>, x: Finished, b: map<Descriptor, Outcome>, y: Finished)
    requires Closed(p.deps) && Acyclic(p.deps) && Solves(p, a, x) && Solves(p, b, y)
    ensures a == b && x == y
  {
    hide Acyclic, Solves, AgreeAt, AgreeBelow;
    var bad := set d | d in p.deps && !(AgreeAt(a, x, b, y, d) && AgreeBelow(p, a, x, b, y, d));
    forall d | d in bad ensures p.deps[d] * bad != {} {
      if forall e :: e in p.deps[d] ==> e !in bad {
        BelowAgrees(p, a, x, b, y, d);
        AgreementSpreads(p, a, x, b, y, d);
      } else {
        var e :| e in p.deps[d] && e in bad;
        assert e in p.deps[d] * bad;
      }
    }
    NoEndlessChain(p.deps, bad);
    forall d | d in p.deps ensures AgreeAt(a, x, b, y, d) {
      assert d !in bad;
    }
    AgreeEverywhere(p, a, x, b, y);
  }

  lemma AgreeEverywhere(p: Plan, a: map<Descriptor, Outcome>, x: Finished, b: map<Descriptor, Outcome>, y: Finished)
    requires Solves(p, a, x) && Solves(p, b, y)
    requires forall d :: d in p.deps ==> AgreeAt(a, x, b, y, d)
    ensures a == b && x == y
  {
  }

  // ---- Runs solve the equations ----

  lemma StartedSolves(p: Plan, s: State, outcomes: map<Descriptor, Outcome>, d: Descriptor)
    requires Closed(p.deps) && IsFinal(p, s) && IsEnd(p, s, outcomes) && IsLocal(p) && d in s.starts
    ensures d in p.deps && d in outcomes && AllProvisioned(p, outcomes, d) && SolvesAt(p, outcomes, s.done, d)
  {
    hide IsLate, IsSafe, Records, IsExplained, FirstWaiting;
    assert ResultIs(p, s, d) && SawDependencies(p, s, d);
    forall e | e in p.deps[d] ensures HasProvisioned(outcomes, e) {
      assert e in s.done;
    }
    assert CanStartWith(p.deps, d, s.starts[d].seen.Keys);
    assert SeesDependenciesOnly(p, d, s.starts[d].seen, s.starts[d].at);
    hide CanStartWith;
    StartHoldsBelow(p.deps, d, s.starts[d].seen.Keys);
    hide Below;
    SameRestriction(s.starts[d].seen, s.done, Below(p.deps, d));
  }

  /** With time enough, what a run ends with solves the equations. */
  lemma RunSolves(p: Plan, s: State, outcomes: map<Descriptor, Outcome>)
    requires ValidPlan(p) && IsFinal(p, s) && IsEnd(p, s, outcomes) && IsLocal(p) && NeverLate(p)
    ensures Solves(p, outcomes, s.done)
  {
    hide Monotone, Lists, Closed, IsFinal, IsLocal, FirstWaiting, SolvesAt;
    DoneHaveProvisioned(p, s, outcomes);
    forall d | d in p.deps ensures SolvesAt(p, outcomes, s.done, d) {
      if d in s.starts {
        StartedSolves(p, s, outcomes, d);
      } else {
        WaitingSolves(p, outcomes, s.done, d);
      }
    }
  }

  lemma WaitingSolves(p: Plan, outcomes: map<Descriptor, Outcome>, done: Finished, d: Descriptor)
    requires NeverLate(p) && d in p.deps && d in outcomes && IsExplained(p, outcomes, d)
    ensures SolvesAt(p, outcomes, done, d) && !AllProvisioned(p, outcomes, d)
  {
    hide Restrict;
  }

  /** Runs that only differ in timing and completion order end alike. */
  lemma RunsAgree(p: Plan, s: State, a: map<Descriptor, Outcome>, q: Plan, t: State, b: map<Descriptor, Outcome>)
    requires ValidPlan(p) && ValidPlan(q) && Acyclic(p.deps) && IsLocal(p)
    requires q == p.(clock := q.clock, deadline := q.deadline) && NeverLate(p) && NeverLate(q)
    requires IsFinal(p, s) && IsEnd(p, s, a) && IsFinal(q, t) && IsEnd(q, t, b)
    ensures a == b && s.done == t.done && s.starts.Keys == t.starts.Keys
  {
    hide Acyclic, IsFinal, IsEnd, Solves, NeverLate, Monotone, Lists, Closed;
    LocalToo(p, q);
    RunSolves(p, s, a);
    RunSolves(q, t, b);
    SolvesToo(p, q, b, t.done);
    SolutionIsUnique(p, a, s.done, b, t.done);
    forall d ensures d in s.starts <==> d in t.starts {
      StartedIff(p, s, a, d);
      StartedIff(q, t, b, d);
    }
  }

  lemma LocalToo(p: Plan, q: Plan)
    requires IsLocal(p) && q.deps == p.deps && q.exec == p.exec
    ensures IsLocal(q)
  {
    hide CanStartWith, Below;
    forall d, seen: Finished, at | CanStartWith(q.deps, d, seen.Keys) ensures SeesDependenciesOnly(q, d, seen, at) {
      assert SeesDependenciesOnly(p, d, seen, at);
    }
  }

  lemma SolvesToo(p: Plan, q: Plan, b: map<Descriptor, Outcome>, y: Finished)
    requires Solves(q, b, y) && q.deps == p.deps && q.exec == p.exec && q.order == p.order
    ensures Solves(p, b, y)
  {
    hide FirstWaiting, Restrict;
    forall d | d in p.deps ensures SolvesAt(p, b, y, d) {
      assert SolvesAt(q, b, y, d);
    }
  }

  /** A resource starts exactly when its dependencies provision. */
  lemma StartedIff(p: Plan, s: State, outcomes: map<Descriptor, Outcome>, d: Descriptor)
    requires ValidPlan(p) && IsFinal(p, s) && IsEnd(p, s, outcomes) && IsLocal(p) && NeverLate(p)
    ensures d in s.starts <==> d in p.deps && AllProvisioned(p, outcomes, d)
  {
    hide Monotone, Lists, Closed, IsFinal, IsLocal, NeverLate, AllProvisioned, IsExplained;
    if d in s.starts {
      StartedSolves(p, s, outcomes, d);
    } else if d in p.deps {
      WaitingSolves(p, outcomes, s.done, d);
    }
  }

  // ---- Transitive dependencies ----

  /** If a resource's dependencies provisioned, so did everything down each chain. */
  lemma {:induction false} ChainProvisioned(p: Plan, outcomes: map<Descriptor, Outcome>, done: Finished,
      c: seq<Descriptor>, n: nat)
    requires Solves(p, outcomes, done) && IsPath(p.deps, c) && 0 < n < |c| && AllProvisioned(p, outcomes, c[0])
    ensures HasProvisioned(outcomes, c[n])
  {
    hide FirstWaiting, Restrict;
    if n > 1 {
      ChainProvisioned(p, outcomes, done, c, n - 1);
      assert SolvesAt(p, outcomes, done, c[n - 1]);
      assert AllProvisioned(p, outcomes, c[n - 1]);
    }
    assert c[n] in p.deps[c[n - 1]];
  }

  /** The resources attempted are those whose transitive dependencies all provisioned. */
  lemma AttemptedIff(p: Plan, s: State, outcomes: map<Descriptor, Outcome>, d: Descriptor)
    requires ValidPlan(p) && IsFinal(p, s) && IsEnd(p, s, outcomes) && IsLocal(p) && NeverLate(p)
    ensures d in s.starts <==> d in p.deps && forall e :: DependsOn(p.deps, d, e) ==> HasProvisioned(outcomes, e)
  {
    hide IsFinal, IsEnd, IsLocal, NeverLate, Solves, Monotone, Lists;
    StartedIff(p, s, outcomes, d);
    RunSolves(p, s, outcomes);
    if d in p.deps {
      forall e | DependsOn(p.deps, d, e) && AllProvisioned(p, outcomes, d) ensures HasProvisioned(outcomes, e) {
        var c :| IsPath(p.deps, c) && |c| > 1 && c[0] == d && c[|c| - 1] == e;
        ChainProvisioned(p, outcomes, s.done, c, |c| - 1);
      }
      forall e | e in p.deps[d] ensures DependsOn(p.deps, d, e) {
        assert IsPath(p.deps, [d, e]);
      }
    }
  }

  // ---- Any timing ----

  /** A deadline only leaves resources pending: whatever was attempted ends as it would without one. */
  lemma DeadlineOnlyPostpones(p: Plan, s: State, a: map<Descriptor, Outcome>, b: map<Descriptor, Outcome>, y: Finished)
    requires ValidPlan(p) && Acyclic(p.deps) && IsLocal(p) && IsFinal(p, s) && IsEnd(p, s, a) && Solves(p, b, y)
    ensures forall d :: d in s.starts ==> AgreeAt(a, s.done, b, y, d)
  {
    hide Acyclic, Solves, IsFinal, IsEnd, IsLocal, Monotone, Lists, AgreeAt, AgreeBelow;
    FinalAccounts(p, s);
    var bad := set d | d in s.starts && !(AgreeAt(a, s.done, b, y, d) && AgreeBelow(p, a, s.done, b, y, d));
    forall d | d in bad ensures p.deps[d] * bad != {} {
      StartedSolves(p, s, a, d);
      forall e | e in p.deps[d] ensures e in s.starts {
        ProvisionedStarted(p, s, a, e);
      }
      if forall e :: e in p.deps[d] ==> e !in bad {
        BelowAgrees(p, a, s.done, b, y, d);
        StartedAgrees(p, s, a, b, y, d);
      } else {
        var e :| e in p.deps[d] && e in bad;
        assert e in p.deps[d] * bad;
      }
    }
    NoEndlessChain(p.deps, bad);
    forall d | d in s.starts ensures AgreeAt(a, s.done, b, y, d) {
      assert d !in bad;
    }
  }

  lemma ProvisionedStarted(p: Plan, s: State, a: map<Descriptor, Outcome>, e: Descriptor)
    requires IsFinal(p, s) && IsEnd(p, s, a) && HasProvisioned(a, e)
    ensures e in s.starts
  {
    hide IsLate, IsSafe, Records, StartsAreSound, FirstWaiting, StartedAreReady;
    DoneHaveProvisioned(p, s, a);
    FinalAccounts(p, s);
    assert e in s.done;
  }

  lemma StartedAgrees(p: Plan, s: State, a: map<Descriptor, Outcome>, b: map<Descriptor, Outcome>, y: Finished,
      d: Descriptor)
    requires Closed(p.deps) && IsFinal(p, s) && IsEnd(p, s, a) && IsLocal(p) && Solves(p, b, y)
    requires d in s.starts && d in p.deps && AgreeBelow(p, a, s.done, b, y, d)
    ensures AgreeAt(a, s.done, b, y, d)
  {
    hide IsFinal, IsEnd, IsLocal, FirstWaiting, Restrict, Below;
    StartedSolves(p, s, a, d);
    DoneHaveProvisioned(p, s, a);
    DirectAgree(p, a, s.done, b, y, d);
    SameRestriction(s.done, y, Below(p.deps, d));
    assert SolvesAt(p, b, y, d);
  }
}
