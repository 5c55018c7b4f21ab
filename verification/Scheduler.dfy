/**
 Running a deployment: `Planner::run` in `crates/engine/src/planner.rs`. A
 resource starts once its dependencies provisioned. Which running resource ends
 next is the environment's choice, and so are the times read from the clock.
 */
module Scheduler {
  import opened Basics
  import opened Ids
  import opened Outcomes
  import opened Placeholder
  import opened Topology
  import opened Ancestry

  type Finished = map<Descriptor, ResourceOutputs>

  /** The result of provisioning a resource, given the outputs finished so far and the time it starts. */
  type Exec = (Descriptor, Finished, nat) -> Result<ResourceOutputs, Setback>

  /** `order` lists the graph's nodes in key order; `clock` gives the time of each reading. */
  datatype Plan = Plan(order: seq<Descriptor>, deps: Deps, exec: Exec, clock: nat -> nat, deadline: nat)

  ghost predicate Monotone(clock: nat -> nat) {
    forall i, j :: i <= j ==> clock(i) <= clock(j)
  }

  ghost predicate Lists(order: seq<Descriptor>, nodes: set<Descriptor>) {
    && (forall d :: d in order <==> d in nodes)
    && (forall i, j :: 0 <= i < j < |order| ==> order[i] != order[j])
  }

  ghost predicate ValidPlan(p: Plan) {
    Closed(p.deps) && Lists(p.order, p.deps.Keys) && Monotone(p.clock)
  }

  /** A start: the outputs finished by then, and the reading of the clock. */
  datatype Start = Start(seen: Finished, at: nat)

  datatype Event = Started(d: Descriptor) | Ended(d: Descriptor, provisioned: bool)

  datatype State = State(
    outcomes: map<Descriptor, Outcome>,
    done: Finished,
    started: set<Descriptor>,
    running: map<Descriptor, Result<ResourceOutputs, Setback>>,
    readings: nat,
    starts: map<Descriptor, Start>,
    trace: seq<Event>)

  const INITIAL: State := State(map[], map[], {}, map[], 0, map[], [])

  function OutcomeOf(r: Result<ResourceOutputs, Setback>): Outcome {
    if r.Ok? then Provisioned else r.error
  }

  // ---- What every step keeps ----

  ghost predicate Accounted(p: Plan, s: State) {
    && s.starts.Keys == s.running.Keys + s.outcomes.Keys
    && s.running.Keys !! s.outcomes.Keys
    && s.starts.Keys <= s.started <= p.deps.Keys
  }

  ghost predicate DoneAreProvisioned(s: State) {
    forall d :: d in s.done <==> d in s.outcomes && s.outcomes[d].Provisioned?
  }

  ghost predicate StartedAreReady(p: Plan, s: State) {
    forall d :: d in s.started ==> d in p.deps && p.deps[d] <= s.done.Keys
  }

  /** Some reading so far was past the deadline. */
  ghost predicate IsLate(p: Plan, readings: nat) {
    exists k: nat :: k < readings && p.clock(k) >= p.deadline
  }

  ghost predicate ResultIs(p: Plan, s: State, d: Descriptor)
    requires d in s.starts
  {
    var r := p.exec(d, s.starts[d].seen, s.starts[d].at);
    && (d in s.running ==> s.running[d] == r)
    && (d in s.outcomes ==> s.outcomes[d] == OutcomeOf(r))
    && (d in s.done ==> r == Ok(s.done[d]))
  }

  /** A resource started with all its dependencies' outputs and not its own; they are still the ones it saw. */
  ghost predicate SawDependencies(p: Plan, s: State, d: Descriptor)
    requires d in s.starts
  {
    && d in p.deps && p.deps[d] <= s.starts[d].seen.Keys && d !in s.starts[d].seen
    && forall e :: e in s.starts[d].seen ==> e in s.done && s.done[e] == s.starts[d].seen[e]
  }

  ghost predicate StartsAreSound(p: Plan, s: State) {
    forall d :: d in s.starts ==> ResultIs(p, s, d) && SawDependencies(p, s, d)
  }

  /** The events up to `i` say that `e` provisioned. */
  ghost predicate ProvisionedBefore(trace: seq<Event>, i: nat, e: Descriptor) {
    i <= |trace| && Ended(e, true) in trace[..i]
  }

  ghost predicate StartsOnce(trace: seq<Event>) {
    forall i, j :: 0 <= i < j < |trace| && trace[i].Started? && trace[j].Started? ==> trace[i].d != trace[j].d
  }

  ghost predicate IsReadyAt(deps: Deps, trace: seq<Event>, i: nat, d: Descriptor) {
    forall e :: d in deps && e in deps[d] ==> ProvisionedBefore(trace, i, e)
  }

  /** No resource starts twice, or before its dependencies provisioned. */
  ghost predicate IsSafe(deps: Deps, trace: seq<Event>) {
    && StartsOnce(trace)
    && (forall i :: 0 <= i < |trace| && trace[i].Started? ==> IsReadyAt(deps, trace, i, trace[i].d))
  }

  /** The events are the ones the state is about. */
  ghost predicate Records(trace: seq<Event>, starts: set<Descriptor>, outcomes: map<Descriptor, Outcome>) {
    && (forall d :: Started(d) in trace <==> d in starts)
    && (forall d, ok :: Ended(d, ok) in trace <==> d in outcomes && ok == outcomes[d].Provisioned?)
  }

  ghost predicate Balanced(p: Plan, s: State) {
    && Accounted(p, s) && DoneAreProvisioned(s) && StartedAreReady(p, s)
    && (s.started == s.starts.Keys || IsLate(p, s.readings))
  }

  /** A resource starts once its last dependency ended, and before anything else ends. */
  ghost predicate IsPrompt(p: Plan, s: State) {
    && (forall d :: d in s.starts ==> CanStartWith(p.deps, d, s.starts[d].seen.Keys))
    && (forall d :: IsDue(p, s, d) ==> CanStartWith(p.deps, d, s.done.Keys))
  }

  /** Nothing starts once the time is up. */
  ghost predicate StartsInTime(p: Plan, s: State) {
    forall d :: d in s.starts ==> p.clock(s.starts[d].at) < p.deadline
  }

  ghost predicate Inv(p: Plan, s: State) {
    && Balanced(p, s) && StartsAreSound(p, s) && IsPrompt(p, s) && StartsInTime(p, s)
    && IsSafe(p.deps, s.trace) && Records(s.trace, s.starts.Keys, s.outcomes)
  }

  // ---- Steps ----

  /** `d` is due, but the time is up. */
  ghost function Skip(s: State, d: Descriptor): State {
    s.(started := s.started + {d}, readings := s.readings + 1)
  }

  ghost function Launch(p: Plan, s: State, d: Descriptor): State {
    s.(started := s.started + {d}, readings := s.readings + 1,
       running := s.running[d := p.exec(d, s.done, s.readings)],
       starts := s.starts[d := Start(s.done, s.readings)],
       trace := s.trace + [Started(d)])
  }

  ghost function Finish(s: State, d: Descriptor): State
    requires d in s.running
  {
    var r := s.running[d];
    s.(running := s.running - {d},
       outcomes := s.outcomes[d := OutcomeOf(r)],
       done := if r.Ok? then s.done[d := r.value] else s.done,
       trace := s.trace + [Ended(d, r.Ok?)])
  }

  ghost predicate IsDue(p: Plan, s: State, d: Descriptor) {
    d in p.deps && d !in s.started && p.deps[d] <= s.done.Keys
  }

  /** Nothing can start. */
  ghost predicate IsIdle(p: Plan, s: State) {
    forall d :: d in p.deps && p.deps[d] <= s.done.Keys ==> d in s.started
  }

  lemma SkipBalances(p: Plan, s: State, d: Descriptor)
    requires Balanced(p, s) && IsDue(p, s, d) && p.clock(s.readings) >= p.deadline
    ensures Balanced(p, Skip(s, d))
  {
    assert IsLate(p, Skip(s, d).readings);
  }

  lemma SkipKeepsStarts(p: Plan, s: State, d: Descriptor)
    requires StartsAreSound(p, s)
    ensures StartsAreSound(p, Skip(s, d))
  {
    var t := Skip(s, d);
    forall e | e in t.starts ensures ResultIs(p, t, e) && SawDependencies(p, t, e) {
      assert ResultIs(p, s, e) && SawDependencies(p, s, e);
    }
  }

  lemma SkipKeeps(p: Plan, s: State, d: Descriptor)
    requires Inv(p, s) && IsDue(p, s, d) && p.clock(s.readings) >= p.deadline
    ensures Inv(p, Skip(s, d))
  {
    hide Balanced, StartsAreSound, IsSafe, Records, CanStartWith;
    SkipBalances(p, s, d);
    SkipKeepsStarts(p, s, d);
    assert forall e :: IsDue(p, Skip(s, d), e) ==> IsDue(p, s, e);
  }

  lemma LaterIsLate(p: Plan, m: nat, n: nat)
    requires IsLate(p, m) && m <= n
    ensures IsLate(p, n)
  {
    var k: nat :| k < m && p.clock(k) >= p.deadline;
  }

  lemma LaunchKeepsStarts(p: Plan, s: State, d: Descriptor)
    requires Balanced(p, s) && StartsAreSound(p, s) && IsDue(p, s, d)
    ensures StartsAreSound(p, Launch(p, s, d))
  {
    var t := Launch(p, s, d);
    assert d !in s.starts;
    forall e | e in t.starts ensures ResultIs(p, t, e) && SawDependencies(p, t, e) {
      if e != d {
        assert ResultIs(p, s, e) && SawDependencies(p, s, e);
      }
    }
  }

  lemma StillReady(deps: Deps, trace: seq<Event>, more: Event, i: nat, d: Descriptor)
    requires IsReadyAt(deps, trace, i, d) && i <= |trace|
    ensures IsReadyAt(deps, trace + [more], i, d)
  {
    assert (trace + [more])[..i] == trace[..i];
    forall e | d in deps && e in deps[d] ensures ProvisionedBefore(trace + [more], i, e) {
      assert ProvisionedBefore(trace, i, e);
    }
  }

  lemma StartIsSafe(deps: Deps, trace: seq<Event>, d: Descriptor)
    requires IsSafe(deps, trace) && Started(d) !in trace
    requires forall e :: d in deps && e in deps[d] ==> Ended(e, true) in trace
    ensures IsSafe(deps, trace + [Started(d)])
  {
    hide IsReadyAt;
    var all := trace + [Started(d)];
    assert all[..|trace|] == trace;
    assert IsReadyAt(deps, all, |trace|, d) by {
      NowReady(deps, trace, Started(d));
    }
    forall i | 0 <= i < |all| && all[i].Started? ensures IsReadyAt(deps, all, i, all[i].d) {
      if i < |trace| {
        StillReady(deps, trace, Started(d), i, all[i].d);
      }
    }
    forall i | 0 <= i < |trace| && trace[i].Started? ensures trace[i].d != d {
      assert trace[i] in trace && trace[i] == Started(trace[i].d);
    }
  }

  lemma NowReady(deps: Deps, trace: seq<Event>, more: Event)
    requires forall e :: more.d in deps && e in deps[more.d] ==> Ended(e, true) in trace
    ensures IsReadyAt(deps, trace + [more], |trace|, more.d)
  {
    assert (trace + [more])[..|trace|] == trace;
  }

  lemma LaunchIsSafe(p: Plan, s: State, d: Descriptor)
    requires Balanced(p, s) && IsSafe(p.deps, s.trace) && Records(s.trace, s.starts.Keys, s.outcomes)
    requires IsDue(p, s, d)
    ensures IsSafe(p.deps, s.trace + [Started(d)])
  {
    hide IsLate, StartedAreReady, IsSafe;
    forall e | e in p.deps[d] ensures Ended(e, true) in s.trace {
      assert e in s.done;
    }
    StartIsSafe(p.deps, s.trace, d);
  }

  lemma LaunchBalances(p: Plan, s: State, d: Descriptor)
    requires Balanced(p, s) && IsDue(p, s, d)
    ensures Balanced(p, Launch(p, s, d)) && d !in s.starts
  {
    hide IsLate;
    if IsLate(p, s.readings) {
      LaterIsLate(p, s.readings, s.readings + 1);
    }
  }

  lemma RecordsStart(trace: seq<Event>, starts: set<Descriptor>, outcomes: map<Descriptor, Outcome>, d: Descriptor)
    requires Records(trace, starts, outcomes)
    ensures Records(trace + [Started(d)], starts + {d}, outcomes)
  {
  }

  lemma LaunchKeeps(p: Plan, s: State, d: Descriptor)
    requires Inv(p, s) && IsDue(p, s, d) && p.clock(s.readings) < p.deadline
    ensures Inv(p, Launch(p, s, d))
  {
    hide Balanced, StartsAreSound, IsSafe, Records, CanStartWith;
    LaunchBalances(p, s, d);
    LaunchKeepsStarts(p, s, d);
    LaunchIsSafe(p, s, d);
    RecordsStart(s.trace, s.starts.Keys, s.outcomes, d);
    assert Launch(p, s, d).starts.Keys == s.starts.Keys + {d};
    assert forall e :: IsDue(p, Launch(p, s, d), e) ==> IsDue(p, s, e);
  }

  lemma FinishKeepsStart(p: Plan, s: State, d: Descriptor, e: Descriptor)
    requires d in s.running && d !in s.outcomes && d !in s.done && d in s.starts && e in s.starts
    requires ResultIs(p, s, d) && ResultIs(p, s, e) && SawDependencies(p, s, e)
    ensures ResultIs(p, Finish(s, d), e) && SawDependencies(p, Finish(s, d), e)
  {
  }

  lemma FinishKeepsStarts(p: Plan, s: State, d: Descriptor)
    requires Balanced(p, s) && StartsAreSound(p, s) && d in s.running
    ensures StartsAreSound(p, Finish(s, d))
  {
    hide Balanced, ResultIs, SawDependencies;
    RunningIsUnfinished(p, s, d);
    assert ResultIs(p, s, d);
    forall e | e in s.starts ensures ResultIs(p, Finish(s, d), e) && SawDependencies(p, Finish(s, d), e) {
      FinishKeepsStart(p, s, d, e);
    }
  }

  lemma RunningIsUnfinished(p: Plan, s: State, d: Descriptor)
    requires Balanced(p, s) && d in s.running
    ensures d in s.starts && d !in s.outcomes && d !in s.done
  {
    hide IsLate, StartedAreReady;
  }

  lemma EndIsSafe(deps: Deps, trace: seq<Event>, e: Event)
    requires IsSafe(deps, trace) && e.Ended?
    ensures IsSafe(deps, trace + [e])
  {
    hide IsReadyAt;
    var all := trace + [e];
    forall i | 0 <= i < |all| && all[i].Started? ensures IsReadyAt(deps, all, i, all[i].d) {
      StillReady(deps, trace, e, i, all[i].d);
    }
  }

  lemma RecordsEnd(trace: seq<Event>, starts: set<Descriptor>, outcomes: map<Descriptor, Outcome>, d: Descriptor,
      o: Outcome)
    requires Records(trace, starts, outcomes) && d !in outcomes
    ensures Records(trace + [Ended(d, o.Provisioned?)], starts, outcomes[d := o])
  {
    var all := trace + [Ended(d, o.Provisioned?)];
    forall e, ok ensures Ended(e, ok) in all <==> e in outcomes[d := o] && ok == outcomes[d := o][e].Provisioned? {
      assert Ended(e, ok) in all <==> Ended(e, ok) in trace || (e == d && ok == o.Provisioned?);
    }
  }

  lemma FinishBalances(p: Plan, s: State, d: Descriptor)
    requires Balanced(p, s) && d in s.running
    ensures Balanced(p, Finish(s, d)) && d !in s.outcomes
  {
    hide IsLate;
  }

  /** What has finished is whole. */
  lemma DoneIsWhole(p: Plan, s: State)
    requires Balanced(p, s) && StartsAreSound(p, s)
    ensures IsWhole(p.deps, s.done.Keys) && s.done.Keys <= p.deps.Keys && s.done.Keys <= s.started
  {
    hide IsLate, ResultIs, StartedAreReady;
    forall d, e | d in s.done && d in p.deps && e in p.deps[d] ensures e in s.done {
      assert SawDependencies(p, s, d);
    }
  }

  /** What can start now waited for the resource that just ended. */
  lemma FinishIsPrompt(p: Plan, s: State, d: Descriptor)
    requires Balanced(p, s) && StartsAreSound(p, s) && IsPrompt(p, s) && d in s.running && IsIdle(p, s)
    ensures IsPrompt(p, Finish(s, d))
  {
    hide Balanced, StartsAreSound;
    DoneIsWhole(p, s);
    RunningIsUnfinished(p, s, d);
    FinishBalances(p, s, d);
    var t := Finish(s, d);
    FinishKeepsStarts(p, s, d);
    DoneIsWhole(p, t);
    forall e | IsDue(p, t, e) ensures CanStartWith(p.deps, e, t.done.Keys) {
      assert d in p.deps[e] && t.done.Keys - {d} == s.done.Keys;
    }
  }

  lemma FinishKeeps(p: Plan, s: State, d: Descriptor)
    requires Inv(p, s) && d in s.running && IsIdle(p, s)
    ensures Inv(p, Finish(s, d))
  {
    hide Balanced, StartsAreSound, IsSafe, Records, IsPrompt, IsIdle;
    FinishBalances(p, s, d);
    FinishIsPrompt(p, s, d);
    FinishKeepsStarts(p, s, d);
    EndIsSafe(p.deps, s.trace, Ended(d, s.running[d].Ok?));
    RecordsEnd(s.trace, s.starts.Keys, s.outcomes, d, OutcomeOf(s.running[d]));
  }

  // ---- Whole runs ----

  ghost predicate IsStep(p: Plan, s: State, t: State) {
    || (exists d :: IsDue(p, s, d) && p.clock(s.readings) >= p.deadline && t == Skip(s, d))
    || (exists d :: IsDue(p, s, d) && p.clock(s.readings) < p.deadline && t == Launch(p, s, d))
    || (IsIdle(p, s) && exists d :: d in s.running && t == Finish(s, d))
  }

  /** A run, whichever running resource ends next; whatever can start does so first. */
  ghost predicate IsRun(p: Plan, run: seq<State>) {
    && |run| > 0 && run[0] == INITIAL
    && forall i :: 0 < i < |run| ==> IsStep(p, run[i - 1], run[i])
  }

  lemma InitialHolds(p: Plan)
    ensures Inv(p, INITIAL)
  {
  }

  /** Every state of every run is sound. */
  lemma {:induction false} EveryStateIsSound(p: Plan, run: seq<State>, n: nat)
    requires IsRun(p, run) && n < |run|
    ensures Inv(p, run[n])
  {
    hide Inv, IsDue;
    if n == 0 {
      InitialHolds(p);
    } else {
      EveryStateIsSound(p, run, n - 1);
      StepKeeps(p, run[n - 1], run[n]);
    }
  }

  lemma StepKeeps(p: Plan, s: State, t: State)
    requires Inv(p, s) && IsStep(p, s, t)
    ensures Inv(p, t)
  {
    hide Inv, IsDue, Skip, Launch, Finish;
    if d :| IsDue(p, s, d) && p.clock(s.readings) >= p.deadline && t == Skip(s, d) {
      SkipKeeps(p, s, d);
    } else if d :| IsDue(p, s, d) && p.clock(s.readings) < p.deadline && t == Launch(p, s, d) {
      LaunchKeeps(p, s, d);
    } else {
      var d :| d in s.running && t == Finish(s, d);
      FinishKeeps(p, s, d);
    }
  }

  // ---- Resources that did not start ----

  predicate HasProvisioned(outcomes: map<Descriptor, Outcome>, d: Descriptor) {
    d in outcomes && outcomes[d].Provisioned?
  }

  /** `e` comes in the order, and everything of `ds` before it was provisioned. */
  ghost predicate IsFirst(outcomes: map<Descriptor, Outcome>, order: seq<Descriptor>, ds: set<Descriptor>,
      e: Descriptor)
  {
    exists i :: 0 <= i < |order| && order[i] == e
      && (forall j :: 0 <= j < i && order[j] in ds ==> HasProvisioned(outcomes, order[j]))
  }

  /** The first of `ds` that did not provision. */
  function FirstWaiting(order: seq<Descriptor>, ds: set<Descriptor>,
      outcomes: map<Descriptor, Outcome>): (r: Option<Descriptor>)
    ensures r.Some? ==> r.value in order && r.value in ds && !HasProvisioned(outcomes, r.value)
    ensures r.Some? ==> IsFirst(outcomes, order, ds, r.value)
    ensures r.None? ==> forall d :: d in order && d in ds ==> HasProvisioned(outcomes, d)
  {
    if order == [] then None
    else if order[0] in ds && !HasProvisioned(outcomes, order[0]) then Some(order[0])
    else FirstWaiting(order[1..], ds, outcomes)
  }

  lemma {:induction false} SameWaiting(order: seq<Descriptor>, ds: set<Descriptor>, a: map<Descriptor, Outcome>,
      b: map<Descriptor, Outcome>)
    requires forall d :: d in ds ==> (HasProvisioned(a, d) <==> HasProvisioned(b, d))
    ensures FirstWaiting(order, ds, a) == FirstWaiting(order, ds, b)
  {
    if order != [] {
      SameWaiting(order[1..], ds, a, b);
    }
  }

  ghost predicate IsFinal(p: Plan, s: State) {
    Inv(p, s) && s.running == map[] && IsIdle(p, s)
  }

  /** A resource that did not start waits for its first dependency that did not provision, or ran out of time. */
  ghost predicate IsExplained(p: Plan, outcomes: map<Descriptor, Outcome>, d: Descriptor)
    requires d in p.deps && d in outcomes
  {
    var first := FirstWaiting(p.order, p.deps[d], outcomes);
    if first.Some? then outcomes[d] == Pending(WaitingFor(first.value))
    else outcomes[d] == Pending(OutOfTime) && exists n :: IsLate(p, n)
  }

  /** `outcomes` are how the run that ended in `s` ends. */
  ghost predicate IsEnd(p: Plan, s: State, outcomes: map<Descriptor, Outcome>) {
    && outcomes.Keys == p.deps.Keys
    && (forall d :: d in s.starts ==> d in s.outcomes && d in outcomes && outcomes[d] == s.outcomes[d])
    && (forall d :: d in p.deps && d !in s.starts ==> d in outcomes && IsExplained(p, outcomes, d))
  }

  lemma DueIsLate(p: Plan, s: State, d: Descriptor)
    requires ValidPlan(p) && IsFinal(p, s) && d in p.deps && d !in s.outcomes
    requires FirstWaiting(p.order, p.deps[d], s.outcomes).None?
    ensures IsLate(p, s.readings)
  {
    hide IsLate, StartsAreSound, IsSafe, Records, Monotone;
    assert p.deps[d] <= s.done.Keys by {
      forall e | e in p.deps[d] ensures e in s.done {
        assert HasProvisioned(s.outcomes, e);
      }
    }
    assert d in s.started && d !in s.starts;
  }

  lemma LateForever(p: Plan, n: nat, k: nat)
    requires Monotone(p.clock) && IsLate(p, n) && n <= k
    ensures p.clock(k) >= p.deadline
  {
    var i: nat :| i < n && p.clock(i) >= p.deadline;
  }

  class Run {
    const p: Plan
    var outcomes: map<Descriptor, Outcome>
    var done: Finished
    var started: set<Descriptor>
    var running: map<Descriptor, Result<ResourceOutputs, Setback>>
    var readings: nat
    ghost var starts: map<Descriptor, Start>
    ghost var trace: seq<Event>

    ghost function Value(): State
      reads this
    {
      State(outcomes, done, started, running, readings, starts, trace)
    }

    constructor (p: Plan)
      ensures this.p == p && Value() == INITIAL
    {
      this.p := p;
      outcomes, done, started, running, readings := map[], map[], {}, map[], 0;
      starts, trace := map[], [];
    }

    method Now() returns (t: nat)
      modifies this`readings
      ensures t == p.clock(old(readings)) && readings == old(readings) + 1
    {
      t := p.clock(readings);
      readings := readings + 1;
    }

    /** Starts every resource whose dependencies provisioned, unless time is up. */
    method StartReady()
      requires ValidPlan(p) && Inv(p, Value())
      modifies this
      ensures Inv(p, Value()) && outcomes == old(outcomes) && done == old(done)
      ensures IsIdle(p, Value())
    {
      hide Inv;
      for i := 0 to |p.order|
        invariant Inv(p, Value()) && outcomes == old(outcomes) && done == old(done)
        invariant forall j ::
          0 <= j < i && p.order[j] in p.deps && p.deps[p.order[j]] <= done.Keys ==> p.order[j] in started
      {
        var d := p.order[i];
        if d in started || !(p.deps[d] <= done.Keys) {
          continue;
        }
        ghost var s := Value();
        started := started + {d};
        var now := Now();
        if now >= p.deadline {
          SkipKeeps(p, s, d);
          continue;
        }
        running := running[d := p.exec(d, done, readings - 1)];
        starts := starts[d := Start(done, readings - 1)];
        trace := trace + [Started(d)];
        LaunchKeeps(p, s, d);
      }
    }

    /** Waits for a running resource to end, any of them. */
    method Join()
      requires Inv(p, Value()) && IsIdle(p, Value()) && running != map[]
      modifies this
      ensures Inv(p, Value())
      ensures exists d :: d in old(running) && d !in old(outcomes) && Value() == Finish(old(Value()), d)
    {
      hide StartsAreSound, IsSafe, Records, IsPrompt, IsIdle;
      var d :| d in running;
      FinishKeeps(p, Value(), d);
      var r := running[d];
      running := running - {d};
      trace := trace + [Ended(d, r.Ok?)];
      if r.Ok? {
        outcomes := outcomes[d := Provisioned];
        done := done[d := r.value];
      } else {
        outcomes := outcomes[d := r.error];
      }
    }

    /** Gives every resource that did not run its reason. */
    method Settle()
      requires ValidPlan(p) && IsFinal(p, Value())
      modifies this`outcomes, this`readings
      ensures IsEnd(p, old(Value()), outcomes)
    {
      hide Inv, IsLate, Monotone, FirstWaiting, IsSettling, IsEnd;
      ghost var s := Value();
      SettlingStarts(p, s);
      for i := 0 to |p.order|
        invariant readings >= s.readings && IsSettling(p, s, outcomes, i)
      {
        var d := p.order[i];
        if d in outcomes {
          SettlingPasses(p, s, outcomes, i);
          continue;
        }
        var reason := NotStarted;
        SettlingAgrees(p, s, outcomes, i, d);
        var first := FirstWaiting(p.order, p.deps[d], outcomes);
        if first.Some? {
          reason := WaitingFor(first.value);
        } else {
          DueIsLate(p, s, d);
          LateForever(p, s.readings, readings);
          var now := Now();
          if now >= p.deadline {
            reason := OutOfTime;
          }
        }
        SettlingGoesOn(p, s, outcomes, i, Pending(reason));
        outcomes := outcomes[d := Pending(reason)];
      }
      EndIsExplained(p, s, outcomes);
    }
  }

  /** Why `d`, which has no outcome in `s`, is pending. */
  ghost predicate IsReasonFor(p: Plan, s: State, d: Descriptor, o: Outcome)
    requires d in p.deps
  {
    var first := FirstWaiting(p.order, p.deps[d], s.outcomes);
    if first.Some? then o == Pending(WaitingFor(first.value)) else o == Pending(OutOfTime) && IsLate(p, s.readings)
  }

  /** The first `i` resources have their outcomes. */
  ghost predicate IsSettling(p: Plan, s: State, outcomes: map<Descriptor, Outcome>, i: nat) {
    && i <= |p.order|
    && (forall d :: d in outcomes <==> d in s.outcomes || d in p.order[..i])
    && (forall d :: d in s.outcomes ==> outcomes[d] == s.outcomes[d])
    && (forall d :: d in outcomes && d !in s.outcomes ==> d in p.deps && IsReasonFor(p, s, d, outcomes[d]))
  }

  lemma SettlingStarts(p: Plan, s: State)
    requires IsFinal(p, s)
    ensures IsSettling(p, s, s.outcomes, 0)
  {
  }

  lemma SettlingPasses(p: Plan, s: State, outcomes: map<Descriptor, Outcome>, i: nat)
    requires IsSettling(p, s, outcomes, i) && i < |p.order| && p.order[i] in outcomes
    ensures IsSettling(p, s, outcomes, i + 1)
  {
    hide IsReasonFor;
    assert p.order[..i + 1] == p.order[..i] + [p.order[i]];
  }

  lemma SettlingGoesOn(p: Plan, s: State, outcomes: map<Descriptor, Outcome>, i: nat, o: Outcome)
    requires IsSettling(p, s, outcomes, i) && i < |p.order|
    requires p.order[i] !in outcomes && p.order[i] in p.deps && IsReasonFor(p, s, p.order[i], o)
    ensures IsSettling(p, s, outcomes[p.order[i] := o], i + 1)
  {
    hide IsReasonFor;
    assert p.order[..i + 1] == p.order[..i] + [p.order[i]];
  }

  /** The outcomes filled in so far change no reason. */
  lemma SettlingAgrees(p: Plan, s: State, outcomes: map<Descriptor, Outcome>, i: nat, d: Descriptor)
    requires IsSettling(p, s, outcomes, i) && d in p.deps
    ensures FirstWaiting(p.order, p.deps[d], outcomes) == FirstWaiting(p.order, p.deps[d], s.outcomes)
    ensures d !in outcomes ==> d !in s.outcomes
  {
    hide IsLate, FirstWaiting;
    SameWaiting(p.order, p.deps[d], s.outcomes, outcomes);
  }

  lemma FinalAccounts(p: Plan, s: State)
    requires IsFinal(p, s)
    ensures s.starts.Keys == s.outcomes.Keys <= p.deps.Keys
  {
    hide StartsAreSound, IsSafe, Records, IsLate;
    assert s.running.Keys == {};
  }

  lemma EndIsExplained(p: Plan, s: State, outcomes: map<Descriptor, Outcome>)
    requires ValidPlan(p) && IsFinal(p, s) && IsSettling(p, s, outcomes, |p.order|)
    ensures IsEnd(p, s, outcomes)
  {
    hide IsLate, Monotone, FirstWaiting, Closed, Inv, IsFirst, HasProvisioned;
    FinalAccounts(p, s);
    assert p.order[..|p.order|] == p.order;
    forall d | d in p.deps && d !in s.starts ensures d in outcomes && IsExplained(p, outcomes, d) {
      SettlingAgrees(p, s, outcomes, |p.order|, d);
    }
  }

  lemma DoneHaveProvisioned(p: Plan, s: State, outcomes: map<Descriptor, Outcome>)
    requires IsFinal(p, s) && IsEnd(p, s, outcomes)
    ensures forall d :: d in s.done <==> HasProvisioned(outcomes, d)
  {
    hide IsLate, IsSafe, Records, StartsAreSound, FirstWaiting, StartedAreReady;
    FinalAccounts(p, s);
    forall d ensures d in s.done <==> HasProvisioned(outcomes, d) {
      if d in p.deps && d !in s.starts {
        assert IsExplained(p, outcomes, d);
      }
    }
  }

  /** Whatever the timing, what provisioned has its dependencies provisioned. */
  lemma ProvisionedAreClosed(p: Plan, s: State, outcomes: map<Descriptor, Outcome>, d: Descriptor, e: Descriptor)
    requires IsFinal(p, s) && IsEnd(p, s, outcomes)
    requires d in p.deps && e in p.deps[d] && HasProvisioned(outcomes, d)
    ensures HasProvisioned(outcomes, e)
  {
    hide IsLate, IsSafe, Records, ResultIs, FirstWaiting;
    DoneHaveProvisioned(p, s, outcomes);
    FinalAccounts(p, s);
    assert d in s.done && d in s.starts;
    assert SawDependencies(p, s, d);
  }

  /** Nothing starts when artifacts, versions or deletions are missing. */
  function Refusals(p: Plan, missing: map<Descriptor, string>): map<Descriptor, Outcome> {
    map d | d in p.deps.Keys + missing.Keys :: if d in missing then Failed(missing[d]) else Pending(Refused)
  }

  method Refuse(p: Plan, missing: map<Descriptor, string>) returns (outcomes: map<Descriptor, Outcome>)
    requires ValidPlan(p)
    ensures outcomes == Refusals(p, missing)
  {
    hide Monotone, Closed;
    outcomes := map d | d in missing :: Failed(missing[d]);
    for i := 0 to |p.order|
      invariant forall d :: d in outcomes <==> d in missing || d in p.order[..i]
      invariant forall d :: d in outcomes ==>
        outcomes[d] == if d in missing then Failed(missing[d]) else Pending(Refused)
    {
      assert p.order[..i + 1] == p.order[..i] + [p.order[i]];
      if p.order[i] !in missing {
        outcomes := outcomes[p.order[i] := Pending(Refused)];
      }
    }
    assert p.order[..|p.order|] == p.order;
  }

  lemma InvStartsInTime(p: Plan, s: State)
    requires Inv(p, s)
    ensures StartsInTime(p, s)
  {
  }

  /** `run`, up to the deletion of resources the deployment leaves out. */
  method RunDeployment(p: Plan, missing: map<Descriptor, string>) returns (outcomes: map<Descriptor, Outcome>,
      ghost s: State)
    requires ValidPlan(p)
    ensures missing != map[] ==> outcomes == Refusals(p, missing) && s == INITIAL
    ensures forall d :: d in missing ==> outcomes[d] == Failed(missing[d])
    ensures forall d :: d in p.deps && d !in missing && missing != map[] ==> outcomes[d] == Pending(Refused)
    ensures missing == map[] ==> IsFinal(p, s) && IsEnd(p, s, outcomes)
    ensures forall d :: d in s.starts ==> p.clock(s.starts[d].at) < p.deadline
    ensures outcomes.Keys == p.deps.Keys + missing.Keys
    ensures forall d, e :: d in p.deps && e in p.deps[d] && HasProvisioned(outcomes, d) ==> HasProvisioned(outcomes, e)
  {
    hide Inv, IsEnd, ValidPlan;
    s := INITIAL;
    if missing != map[] {
      outcomes := Refuse(p, missing);
      return;
    }
    var run := new Run(p);
    InitialHolds(p);
    while true
      invariant run.p == p && Inv(p, run.Value())
      decreases p.deps.Keys - run.outcomes.Keys
    {
      run.StartReady();
      if run.running == map[] {
        break;
      }
      ghost var before := run.Value();
      run.Join();
      JoinShrinks(p, before, run.Value());
    }
    s := run.Value();
    InvStartsInTime(p, s);
    run.Settle();
    outcomes := run.outcomes;
    EndHasAll(p, s, outcomes);
    forall d, e | d in p.deps && e in p.deps[d] && HasProvisioned(outcomes, d) ensures HasProvisioned(outcomes, e) {
      ProvisionedAreClosed(p, s, outcomes, d, e);
    }
  }

  lemma EndHasAll(p: Plan, s: State, outcomes: map<Descriptor, Outcome>)
    requires IsEnd(p, s, outcomes)
    ensures outcomes.Keys == p.deps.Keys
  {
  }

  lemma JoinShrinks(p: Plan, s: State, t: State)
    requires Inv(p, s) && exists d :: d in s.running && d !in s.outcomes && t == Finish(s, d)
    ensures p.deps.Keys - t.outcomes.Keys < p.deps.Keys - s.outcomes.Keys
  {
    hide StartsAreSound, IsSafe, Records, IsLate;
    var d :| d in s.running && d !in s.outcomes && t == Finish(s, d);
    assert d in p.deps.Keys - s.outcomes.Keys && d !in p.deps.Keys - t.outcomes.Keys;
  }
}
