/** Runs in which a resource starts with a given set of resources finished. */
module Reachability {
  import opened Basics
  import opened Ids
  import opened Json
  import opened Placeholder
  import opened Topology
  import opened Ancestry
  import opened Scheduler
  import opened Confluence

  /** Outputs that tell which resource they are of. */
  function MarkOf(d: Descriptor): ResourceOutputs {
    ResourceOutputs(map["type" := Str(d.ty), "class" := Str(d.cls), "id" := Str(d.id)], map[], None, None)
  }

  lemma MarksDiffer(d: Descriptor, e: Descriptor)
    requires MarkOf(d) == MarkOf(e)
    ensures d == e
  {
    var a, b := MarkOf(d).values, MarkOf(e).values;
    assert "type"[0] == 't' && "class"[0] == 'c' && "id"[0] == 'i';
    assert a["type"] == b["type"] && a["class"] == b["class"] && a["id"] == b["id"];
  }

  /** Every resource provisions, and there is always time. */
  function SmoothPlan(deps: Deps, order: seq<Descriptor>): Plan {
    Plan(order, deps, (d, seen, at) => Ok(MarkOf(d)), n => 0, 1)
  }

  lemma OrderExists(nodes: set<Descriptor>) returns (order: seq<Descriptor>)
    ensures Lists(order, nodes)
  {
    if nodes == {} {
      order := [];
    } else {
      var d :| d in nodes;
      var rest := OrderExists(nodes - {d});
      order := [d] + rest;
    }
  }

  lemma SmoothIsValid(deps: Deps, order: seq<Descriptor>)
    requires Closed(deps) && Lists(order, deps.Keys)
    ensures ValidPlan(SmoothPlan(deps, order)) && NeverLate(SmoothPlan(deps, order))
  {
  }

  /** The states of a run. */
  type History = seq<State>

  ghost function LastOf(run: History): State {
    if run == [] then INITIAL else run[|run| - 1]
  }

  /** Every resource that ended provisioned, and nothing was skipped. */
  ghost predicate IsSmoothState(s: State) {
    && s.outcomes.Keys == s.done.Keys && s.started == s.starts.Keys
    && (forall d :: d in s.running ==> s.running[d] == Ok(MarkOf(d)))
    && (forall d :: d in s.done ==> s.done[d] == MarkOf(d))
  }

  ghost predicate IsSmooth(p: Plan, run: History) {
    IsRun(p, run) && IsSmoothState(LastOf(run))
  }

  lemma NothingYet(p: Plan)
    ensures IsSmooth(p, [INITIAL])
  {
  }

  lemma RunGoesOn(p: Plan, run: History, t: State)
    requires IsRun(p, run) && IsStep(p, LastOf(run), t)
    ensures IsRun(p, run + [t])
  {
    hide IsStep;
    var all := run + [t];
    forall i | 0 < i < |all| ensures IsStep(p, all[i - 1], all[i]) {
      if i < |run| {
        assert all[i - 1] == run[i - 1] && all[i] == run[i];
      }
    }
  }

  lemma LaunchIsSmooth(p: Plan, s: State, d: Descriptor)
    requires p == SmoothPlan(p.deps, p.order) && IsSmoothState(s)
    ensures IsSmoothState(Launch(p, s, d))
  {
    hide MarkOf;
  }

  lemma FinishIsSmooth(s: State, d: Descriptor)
    requires IsSmoothState(s) && d in s.running
    ensures IsSmoothState(Finish(s, d)) && Finish(s, d).done.Keys == s.done.Keys + {d}
  {
    hide MarkOf;
  }

  lemma SmoothLaunch(p: Plan, run: History, d: Descriptor)
    requires p == SmoothPlan(p.deps, p.order) && IsSmooth(p, run) && IsDue(p, LastOf(run), d)
    ensures IsSmooth(p, run + [Launch(p, LastOf(run), d)])
  {
    hide IsRun, IsSmoothState, Launch;
    LaunchIsSmooth(p, LastOf(run), d);
    RunGoesOn(p, run, Launch(p, LastOf(run), d));
  }

  lemma SmoothFinish(p: Plan, run: History, d: Descriptor)
    requires IsSmooth(p, run) && IsIdle(p, LastOf(run)) && d in LastOf(run).running
    ensures IsSmooth(p, run + [Finish(LastOf(run), d)])
    ensures Finish(LastOf(run), d).done.Keys == LastOf(run).done.Keys + {d}
  {
    hide IsRun, IsIdle, IsSmoothState, Finish;
    FinishIsSmooth(LastOf(run), d);
    RunGoesOn(p, run, Finish(LastOf(run), d));
  }

  /** Everything that can start is started, one by one. */
  lemma StartAll(p: Plan, run: History) returns (more: History)
    requires p == SmoothPlan(p.deps, p.order) && IsSmooth(p, run)
    ensures IsSmooth(p, more) && IsIdle(p, LastOf(more)) && LastOf(more).done == LastOf(run).done
    decreases p.deps.Keys - LastOf(run).started
  {
    hide IsSmooth;
    var s := LastOf(run);
    if d :| IsDue(p, s, d) {
      SmoothLaunch(p, run, d);
      assert d in p.deps.Keys - s.started;
      more := StartAll(p, run + [Launch(p, s, d)]);
    } else {
      more := run;
      forall d | d in p.deps && p.deps[d] <= s.done.Keys ensures d in s.started {
        assert !IsDue(p, s, d);
      }
    }
  }

  lemma SmoothIsSound(p: Plan, run: History)
    requires IsSmooth(p, run)
    ensures Inv(p, LastOf(run))
  {
    hide Inv, IsStep;
    EveryStateIsSound(p, run, |run| - 1);
  }

  /** The outputs a resource starts with are the marks of what has finished. */
  lemma SeenAreMarks(p: Plan, run: History, d: Descriptor)
    requires IsSmooth(p, run) && d in LastOf(run).starts
    ensures forall e :: e in LastOf(run).starts[d].seen ==> LastOf(run).starts[d].seen[e] == MarkOf(e)
  {
    hide IsRun, MarkOf, Balanced, IsPrompt, IsSafe, Records, ResultIs, LastOf;
    SmoothIsSound(p, run);
    assert SawDependencies(p, LastOf(run), d);
  }

  /** A resource whose dependencies have finished, and that has not, runs. */
  lemma ReadyRuns(p: Plan, run: History, d: Descriptor)
    requires IsSmooth(p, run) && IsIdle(p, LastOf(run))
    requires d in p.deps && p.deps[d] <= LastOf(run).done.Keys && d !in LastOf(run).done
    ensures d in LastOf(run).running
  {
    hide IsRun, StartsAreSound, IsPrompt, IsSafe, Records, IsLate;
    SmoothIsSound(p, run);
  }

  /** In a whole set that is not finished, something is ready. */
  lemma SomethingIsReady(g: Deps, s: set<Descriptor>, done: set<Descriptor>) returns (d: Descriptor)
    requires Acyclic(g) && s <= g.Keys && IsWhole(g, s) && done < s
    ensures d in s - done && g[d] <= done
  {
    hide Acyclic;
    var left := s - done;
    if forall e :: e in left ==> g[e] * left != {} {
      NoEndlessChain(g, left);
    }
    d :| d in left && g[d] * left == {};
    forall e | e in g[d] ensures e in done {
      assert e !in g[d] * left;
    }
  }

  /** A run that finishes just the resources of a whole set. */
  lemma RunTo(p: Plan, s: set<Descriptor>, run: History) returns (more: History)
    requires p == SmoothPlan(p.deps, p.order) && Acyclic(p.deps) && s <= p.deps.Keys && IsWhole(p.deps, s)
    requires IsSmooth(p, run) && IsIdle(p, LastOf(run)) && LastOf(run).done.Keys <= s
    ensures IsSmooth(p, more) && IsIdle(p, LastOf(more)) && LastOf(more).done.Keys == s
    decreases s - LastOf(run).done.Keys
  {
    hide IsSmooth, Acyclic, IsIdle, Finish;
    if LastOf(run).done.Keys == s {
      more := run;
    } else {
      var d := SomethingIsReady(p.deps, s, LastOf(run).done.Keys);
      ReadyRuns(p, run, d);
      SmoothFinish(p, run, d);
      var next := StartAll(p, run + [Finish(LastOf(run), d)]);
      assert d in s - LastOf(run).done.Keys;
      more := RunTo(p, s, next);
    }
  }

  /** Not all dependencies of `d` have finished, so it has not started. */
  lemma WaitsForDependency(p: Plan, run: History, d: Descriptor, x: Descriptor)
    requires IsSmooth(p, run) && d in p.deps && x in p.deps[d] && x !in LastOf(run).done
    ensures d !in LastOf(run).started
  {
    hide IsRun, StartsAreSound, IsPrompt, IsSafe, Records, IsLate;
    SmoothIsSound(p, run);
  }

  /** The run in which `d` starts with just `s` finished. */
  lemma StartsWith(p: Plan, d: Descriptor, s: set<Descriptor>) returns (run: History)
    requires p == SmoothPlan(p.deps, p.order) && Acyclic(p.deps) && CanStartWith(p.deps, d, s)
    ensures IsSmooth(p, run) && d in LastOf(run).starts && LastOf(run).starts[d].seen.Keys == s
  {
    hide IsSmooth, Acyclic, IsIdle;
    NothingYet(p);
    if p.deps[d] == {} {
      SmoothLaunch(p, [INITIAL], d);
      run := [INITIAL] + [Launch(p, INITIAL, d)];
    } else {
      var x :| x in p.deps[d] && IsWhole(p.deps, s - {x});
      var before := StartAll(p, [INITIAL]);
      before := RunTo(p, s - {x}, before);
      assert p.deps[x] <= s - {x} by {
        WaitsForOthers(p.deps, s, x);
      }
      ReadyRuns(p, before, x);
      SmoothFinish(p, before, x);
      var after := before + [Finish(LastOf(before), x)];
      assert LastOf(after).done.Keys == s;
      WaitsForDependency(p, before, d, x);
      SmoothLaunch(p, after, d);
      run := after + [Launch(p, LastOf(after), d)];
    }
  }

  lemma WaitsForOthers(g: Deps, s: set<Descriptor>, x: Descriptor)
    requires Acyclic(g) && IsWhole(g, s) && x in s && x in g
    ensures g[x] <= s - {x}
  {
    if x in g[x] {
      assert IsCycle(g, [x, x]);
    }
  }

  /** When a resource starts in any run, one of these sets has finished; and each of them has, in some run. */
  lemma StartsWithIff(deps: Deps, d: Descriptor, s: set<Descriptor>)
    requires Closed(deps) && Acyclic(deps)
    ensures CanStartWith(deps, d, s) <==> exists p: Plan, run :: p.deps == deps && ValidPlan(p) && IsStart(p, run, d, s)
  {
    hide Acyclic, CanStartWith, ValidPlan;
    if CanStartWith(deps, d, s) {
      var order := OrderExists(deps.Keys);
      var p := SmoothPlan(deps, order);
      SmoothIsValid(deps, order);
      var run := StartsWith(p, d, s);
      assert IsStart(p, run, d, s);
    }
    if p: Plan, run :| p.deps == deps && ValidPlan(p) && IsStart(p, run, d, s) {
      StartIsPossible(p, run, d);
    }
  }

  /** In the last state of the run, `d` has started, and it started with `s`. */
  ghost predicate IsStart(p: Plan, run: History, d: Descriptor, s: set<Descriptor>) {
    IsRun(p, run) && d in LastOf(run).starts && LastOf(run).starts[d].seen.Keys == s
  }

  lemma StartIsPossible(p: Plan, run: History, d: Descriptor)
    requires IsRun(p, run) && d in LastOf(run).starts
    ensures CanStartWith(p.deps, d, LastOf(run).starts[d].seen.Keys)
  {
    hide IsStep, CanStartWith, Balanced, StartsAreSound, IsSafe, Records;
    EveryStateIsSound(p, run, |run| - 1);
  }
}
