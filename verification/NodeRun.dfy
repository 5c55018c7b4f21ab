/** One resource's provisioning, with retries: `NodeRun::run` in `crates/engine/src/planner.rs`. */
module NodeRun {
  import opened Basics
  import opened Outcomes
  import opened Executor

  datatype Permit = Granted | ShuttingDown | NoTime

  /** How the executor's task ends: with an answer, by a panic, or not before the deadline. */
  datatype Answer = Answered(result: Result<Provision, ExecFailure>) | Panicked | RanOut

  datatype Checkpoint =
    | Saved(provision: Provision)
    | Failure(error: string)
    | Unclear(error: string, cookie: Option<Sealed>)

  /** What the environment does in each attempt. */
  datatype World = World(
    attempts: nat,
    deadline: nat,
    missing: Option<string>,
    permit: nat -> Permit,
    startsAt: nat -> nat,
    begin: nat -> Option<string>,
    job: nat -> Option<string>,
    prior: nat -> Option<ExecFailure>,
    record: nat -> bool,
    exec: nat -> Answer,
    save: (nat, Checkpoint) -> bool,
    endsAt: nat -> nat,
    backoff: nat -> nat)

  /** What the store and the executor see, each for one operation. */
  datatype Event =
    | Begin(op: nat, at: nat)
    | Refuse(op: nat, failure: ExecFailure)
    | Record(op: nat, recorded: bool)
    | Execute(op: nat, result: Result<Provision, ExecFailure>)
    | Save(op: nat, checkpoint: Checkpoint, recorded: bool)

  const UNRECORDED := "the operation's inputs were not recorded"
  const UNSAVED := "the resource provisioned, but its result could not be recorded"
  const STOPPED := "the executor stopped unexpectedly while the resource was provisioning"
  const RAN_OUT := "the deployment ran out of time while the resource was provisioning"

  // ---- The discipline of the operation log ----

  /** Where an operation log stands. */
  datatype Phase =
    | Between(ops: nat)
    | Begun(op: nat)
    | Recorded(op: nat)
    | Judged(op: nat, result: Result<Provision, ExecFailure>)
    | Unsaved(op: nat)
    | Over(op: nat)
    | Broken

  function CheckpointFor(f: ExecFailure): Checkpoint {
    match f
    case Permanent(e) => Failure(e)
    case Retryable(e, _) => Failure(e)
    case Uncertain(e, c) => Unclear(e, c)
  }

  /**
   An operation begins before the deadline. It is refused, or its inputs are
   recorded and then, and only then, it executes. Its result is saved, and only
   a retryable failure lets another operation begin.
   */
  function Next(deadline: nat, p: Phase, e: Event): Phase {
    match (p, e)
    case (Between(n), Begin(k, at)) => if k == n + 1 && at < deadline then Begun(k) else Broken
    case (Begun(k), Refuse(op, f)) => if op == k then Judged(k, Err(f)) else Broken
    case (Begun(k), Record(op, ok)) =>
      if op != k then Broken else if ok then Recorded(k) else Judged(k, Err(Retryable(UNRECORDED, None)))
    case (Recorded(k), Execute(op, r)) => if op == k then Judged(k, r) else Broken
    case (Judged(k, r), Save(op, c, ok)) =>
      if op != k then Broken
      else if r.Ok? then (if c != Saved(r.value) then Broken else if ok then Over(k) else Unsaved(k))
      else if c != CheckpointFor(r.error) then Broken
      else if r.error.Retryable? then Between(k)
      else Over(k)
    case (Unsaved(k), Save(op, c, _)) => if op == k && c == Unclear(UNSAVED, None) then Over(k) else Broken
    case _ => Broken
  }

  function PhaseAfter(deadline: nat, trace: seq<Event>): Phase {
    if trace == [] then Between(0)
    else Next(deadline, PhaseAfter(deadline, trace[..|trace| - 1]), trace[|trace| - 1])
  }

  lemma PhaseStep(deadline: nat, trace: seq<Event>, e: Event)
    ensures PhaseAfter(deadline, trace + [e]) == Next(deadline, PhaseAfter(deadline, trace), e)
  {
    assert (trace + [e])[..|trace|] == trace;
  }

  // ---- What a node returns ----

  /** A panic or the deadline leaves the outcome uncertain. */
  function ResultOf(a: Answer): Result<Provision, ExecFailure> {
    match a
    case Answered(r) => r
    case Panicked => Err(Uncertain(STOPPED, None))
    case RanOut => Err(Uncertain(RAN_OUT, None))
  }

  /** What the world makes of operation `k`. */
  function ResultIn(w: World, k: nat): Result<Provision, ExecFailure> {
    if w.job(k).Some? then Err(Permanent(w.job(k).value))
    else if w.prior(k).Some? then Err(w.prior(k).value)
    else if !w.record(k) then Err(Retryable(UNRECORDED, None))
    else ResultOf(w.exec(k))
  }

  predicate GivesUp(w: World, k: nat, f: ExecFailure)
    requires f.Retryable?
  {
    var delay := if f.retryAfter.Some? then f.retryAfter.value else w.backoff(k);
    k >= w.attempts || w.endsAt(k) + delay >= w.deadline
  }

  /** Operation `k` failed in a way that another attempt may mend, and there is one left, and time for it. */
  ghost predicate MayRetry(w: World, k: nat) {
    ResultIn(w, k).Err? && ResultIn(w, k).error.Retryable? && !GivesUp(w, k, ResultIn(w, k).error)
  }

  /** The event is one that the world brings about. */
  ghost predicate IsIn(w: World, e: Event) {
    match e
    case Begin(k, at) =>
      && w.missing.None? && w.permit(k).Granted? && w.begin(k).None? && at == w.startsAt(k)
      && (k > 1 ==> MayRetry(w, k - 1))
    case Refuse(k, f) => (w.job(k).Some? || w.prior(k).Some?) && ResultIn(w, k) == Err(f)
    case Record(k, ok) => w.job(k).None? && w.prior(k).None? && ok == w.record(k)
    case Execute(k, r) => r == ResultOf(w.exec(k)) == ResultIn(w, k)
    case Save(k, c, ok) => ok == w.save(k, c)
  }

  ghost predicate AllIn(w: World, trace: seq<Event>) {
    forall e :: e in trace ==> IsIn(w, e)
  }

  /** Attempt `k` ends without beginning an operation. */
  ghost predicate DoesNotBegin(w: World, k: nat, r: Result<Provision, Setback>) {
    if w.permit(k).ShuttingDown? then r.Err? && r.error.Failed?
    else if w.permit(k).NoTime? || w.startsAt(k) >= w.deadline then r == Err(Pending(OutOfTime))
    else w.begin(k).Some? && r == Err(Failed(w.begin(k).value))
  }

  /** A failure that changed nothing ends the run, or the next attempt does not begin. */
  ghost predicate IsStopped(w: World, k: nat, r: Result<Provision, Setback>) {
    ResultIn(w, k).Err? &&
    var f := ResultIn(w, k).error;
    if f.Retryable? && !GivesUp(w, k, f) then DoesNotBegin(w, k + 1, r) else r == Err(Failed(f.error))
  }

  /** The result that a log calls for. */
  ghost predicate IsResultOf(w: World, trace: seq<Event>, r: Result<Provision, Setback>) {
    if trace == [] then
      if w.missing.Some? then r == Err(Failed(w.missing.value)) else DoesNotBegin(w, 1, r)
    else
      var last := trace[|trace| - 1];
      && last.Save?
      && match last.checkpoint
         case Saved(p) => last.recorded && r == Ok(p)
         case Failure(_) => IsStopped(w, last.op, r)
         case Unclear(e, _) => r == Err(Unknown(e))
  }

  ghost predicate IsLogOf(w: World, trace: seq<Event>) {
    var p := PhaseAfter(w.deadline, trace);
    (p.Between? && p.ops <= MaxOps(w)) || (p.Over? && 0 < p.op <= MaxOps(w))
  }

  function MaxOps(w: World): nat {
    if w.attempts == 0 then 1 else w.attempts
  }

  // ---- Running ----

  /** An operation that began: its result, recorded where it must be. */
  method Operate(w: World, k: nat, ghost before: seq<Event>) returns (r: Result<Provision, ExecFailure>,
      ghost trace: seq<Event>)
    requires PhaseAfter(w.deadline, before) == Begun(k) && AllIn(w, before)
    ensures PhaseAfter(w.deadline, trace) == Judged(k, r) && AllIn(w, trace) && r == ResultIn(w, k)
  {
    hide PhaseAfter;
    var error := w.job(k);
    if error.Some? {
      PhaseStep(w.deadline, before, Refuse(k, Permanent(error.value)));
      return Err(Permanent(error.value)), before + [Refuse(k, Permanent(error.value))];
    }
    var failure := w.prior(k);
    if failure.Some? {
      PhaseStep(w.deadline, before, Refuse(k, failure.value));
      return Err(failure.value), before + [Refuse(k, failure.value)];
    }
    var recorded := w.record(k);
    PhaseStep(w.deadline, before, Record(k, recorded));
    trace := before + [Record(k, recorded)];
    if !recorded {
      return Err(Retryable(UNRECORDED, None)), trace;
    }
    r := ResultOf(w.exec(k));
    PhaseStep(w.deadline, trace, Execute(k, r));
    trace := trace + [Execute(k, r)];
  }

  /** Outputs were provisioned and saved; an unknown outcome was uncertain, or provisioned and not saved. */
  ghost predicate IsBecauseOf(w: World, k: nat, r: Result<Provision, Setback>) {
    var result := ResultIn(w, k);
    if r.Ok? then result == Ok(r.value) && w.save(k, Saved(r.value))
    else if r.error.Unknown? then
      || (result.Ok? && !w.save(k, Saved(result.value)))
      || (result.Err? && result.error.Uncertain? && result.error.error == r.error.reason)
    else result.Err? && !result.error.Uncertain?
  }

  /** Saves an operation's result: what the node returns, or nothing if it tries again. */
  method Conclude(w: World, k: nat, result: Result<Provision, ExecFailure>, ghost before: seq<Event>)
    returns (r: Option<Result<Provision, Setback>>, ghost trace: seq<Event>)
    requires 0 < k <= MaxOps(w) && PhaseAfter(w.deadline, before) == Judged(k, result) && AllIn(w, before) &&
      result == ResultIn(w, k)
    ensures AllIn(w, trace) && trace != []
    ensures r.Some? ==> IsLogOf(w, trace) && IsResultOf(w, trace, r.value)
    ensures r.None? ==>
      k < MaxOps(w) && PhaseAfter(w.deadline, trace) == Between(k) && IsRetried(w, trace[|trace| - 1], k)
    ensures r.Some? ==> IsBecauseOf(w, k, r.value)
  {
    hide Next, PhaseAfter, ResultIn;
    if result.Ok? {
      var recorded := w.save(k, Saved(result.value));
      SaveStep(w, before, k, result, recorded);
      trace := before + [Save(k, Saved(result.value), recorded)];
      if recorded {
        return Some(Ok(result.value)), trace;
      }
      recorded := w.save(k, Unclear(UNSAVED, None));
      UnsavedStep(w, trace, k, recorded);
      trace := trace + [Save(k, Unclear(UNSAVED, None), recorded)];
      return Some(Err(Unknown(UNSAVED))), trace;
    }
    var f := result.error;
    var recorded := w.save(k, CheckpointFor(f));
    SaveStep(w, before, k, result, recorded);
    trace := before + [Save(k, CheckpointFor(f), recorded)];
    match f {
      case Permanent(error) => r := Some(Err(Failed(error)));
      case Uncertain(error, _) => r := Some(Err(Unknown(error)));
      case Retryable(error, retryAfter) =>
        var delay := if retryAfter.Some? then retryAfter.value else w.backoff(k);
        if k >= w.attempts {
          r := Some(Err(Failed(error)));
        } else if w.endsAt(k) + delay >= w.deadline {
          r := Some(Err(Failed(error)));
        } else {
          r := None;
        }
    }
  }

  /** `run` */
  method RunNode(w: World) returns (r: Result<Provision, Setback>, ghost trace: seq<Event>)
    ensures IsLogOf(w, trace) && AllIn(w, trace) && IsResultOf(w, trace, r)
    ensures r.Ok? || r.error.Unknown? ==> exists k :: 0 < k <= MaxOps(w) && IsBecauseOf(w, k, r)
  {
    hide Next, PhaseAfter, ResultIn, GivesUp, IsIn;
    trace := [];
    EmptyLog(w);
    if w.missing.Some? {
      return Err(Failed(w.missing.value)), trace;
    }
    var attempt := 0;
    while true
      invariant PhaseAfter(w.deadline, trace) == Between(attempt) && attempt < MaxOps(w) && AllIn(w, trace)
      invariant trace == [] <==> attempt == 0
      invariant trace != [] ==> IsRetried(w, trace[|trace| - 1], attempt)
      decreases MaxOps(w) - attempt
    {
      attempt := attempt + 1;
      var permit := w.permit(attempt);
      if permit.ShuttingDown? {
        return Err(Failed("the planner is shutting down")), trace;
      }
      if permit.NoTime? || w.startsAt(attempt) >= w.deadline {
        return Err(Pending(OutOfTime)), trace;
      }
      var refused := w.begin(attempt);
      if refused.Some? {
        return Err(Failed(refused.value)), trace;
      }
      BeginStep(w, trace, attempt, w.startsAt(attempt));
      trace := trace + [Begin(attempt, w.startsAt(attempt))];
      var result;
      result, trace := Operate(w, attempt, trace);
      var ended;
      ended, trace := Conclude(w, attempt, result, trace);
      if ended.Some? {
        return ended.value, trace;
      }
    }
  }

  /** Operation `k` failed in a way that is retried. */
  ghost predicate IsRetried(w: World, last: Event, k: nat) {
    last.Save? && last.op == k && last.checkpoint.Failure? && MayRetry(w, k)
  }

  lemma EmptyLog(w: World)
    ensures PhaseAfter(w.deadline, []) == Between(0)
  {
  }

  lemma BeginStep(w: World, trace: seq<Event>, k: nat, at: nat)
    requires k > 0 && PhaseAfter(w.deadline, trace) == Between(k - 1) && at < w.deadline && AllIn(w, trace)
    requires w.missing.None? && w.permit(k).Granted? && w.begin(k).None? && at == w.startsAt(k)
    requires k > 1 ==> MayRetry(w, k - 1)
    ensures PhaseAfter(w.deadline, trace + [Begin(k, at)]) == Begun(k) && AllIn(w, trace + [Begin(k, at)])
  {
    PhaseStep(w.deadline, trace, Begin(k, at));
  }

  lemma SaveStep(w: World, trace: seq<Event>, k: nat, r: Result<Provision, ExecFailure>, recorded: bool)
    requires PhaseAfter(w.deadline, trace) == Judged(k, r)
    ensures r.Ok? ==>
      PhaseAfter(w.deadline, trace + [Save(k, Saved(r.value), recorded)]) == (if recorded then Over(k) else Unsaved(k))
    ensures r.Err? ==>
      PhaseAfter(w.deadline, trace + [Save(k, CheckpointFor(r.error), recorded)])
      == (if r.error.Retryable? then Between(k) else Over(k))
  {
    if r.Ok? {
      PhaseStep(w.deadline, trace, Save(k, Saved(r.value), recorded));
    } else {
      PhaseStep(w.deadline, trace, Save(k, CheckpointFor(r.error), recorded));
    }
  }

  lemma UnsavedStep(w: World, trace: seq<Event>, k: nat, recorded: bool)
    requires PhaseAfter(w.deadline, trace) == Unsaved(k)
    ensures PhaseAfter(w.deadline, trace + [Save(k, Unclear(UNSAVED, None), recorded)]) == Over(k)
  {
    PhaseStep(w.deadline, trace, Save(k, Unclear(UNSAVED, None), recorded));
  }

  // ---- What the discipline means ----

  /** A log's prefixes are not broken. */
  lemma {:induction false} PrefixIsSound(deadline: nat, trace: seq<Event>, i: nat)
    requires i <= |trace| && PhaseAfter(deadline, trace) != Broken
    ensures PhaseAfter(deadline, trace[..i]) != Broken
    decreases |trace|
  {
    if i < |trace| {
      assert PhaseAfter(deadline, trace[..|trace| - 1]) != Broken;
      assert trace[..|trace| - 1][..i] == trace[..i];
      PrefixIsSound(deadline, trace[..|trace| - 1], i);
    } else {
      assert trace[..i] == trace;
    }
  }

  lemma StepInLog(w: World, trace: seq<Event>, i: nat)
    requires IsLogOf(w, trace) && i < |trace|
    ensures PhaseAfter(w.deadline, trace[..i + 1]) == Next(w.deadline, PhaseAfter(w.deadline, trace[..i]), trace[i])
    ensures PhaseAfter(w.deadline, trace[..i + 1]) != Broken && PhaseAfter(w.deadline, trace[..i]) != Broken
  {
    assert trace[..i + 1] == trace[..i] + [trace[i]];
    PhaseStep(w.deadline, trace[..i], trace[i]);
    PrefixIsSound(w.deadline, trace, i + 1);
    PrefixIsSound(w.deadline, trace, i);
  }

  /** Each execution follows its operation's beginning and recorded inputs, and its checkpoint comes next. */
  lemma ExecutionIsFramed(w: World, trace: seq<Event>, i: nat)
    requires IsLogOf(w, trace) && i < |trace| && trace[i].Execute?
    ensures i >= 2 && trace[i - 1] == Record(trace[i].op, true)
    ensures trace[i - 2].Begin? && trace[i - 2].op == trace[i].op && trace[i - 2].at < w.deadline
    ensures i + 1 < |trace| && trace[i + 1].Save? && trace[i + 1].op == trace[i].op
    ensures trace[i + 1].checkpoint ==
      if trace[i].result.Ok? then Saved(trace[i].result.value) else CheckpointFor(trace[i].result.error)
  {
    hide IsLogOf, PhaseAfter;
    StepInLog(w, trace, i);
    RecordedMeans(w, trace, i);
    NotOverYet(w, trace, i + 1);
    StepInLog(w, trace, i + 1);
  }

  lemma RecordedMeans(w: World, trace: seq<Event>, i: nat)
    requires IsLogOf(w, trace) && i <= |trace| && PhaseAfter(w.deadline, trace[..i]).Recorded?
    ensures var k := PhaseAfter(w.deadline, trace[..i]).op;
      i >= 2 && trace[i - 1] == Record(k, true) && trace[i - 2].Begin? && trace[i - 2].op == k &&
        trace[i - 2].at < w.deadline
  {
    hide IsLogOf, PhaseAfter;
    EmptyLog(w);
    assert trace[..0] == [];
    StepInLog(w, trace, i - 1);
    assert PhaseAfter(w.deadline, trace[..i - 1]).Begun?;
    StepInLog(w, trace, i - 2);
  }

  /** An operation that begins is saved before another begins or the node returns. */
  lemma BegunIsSaved(w: World, trace: seq<Event>, i: nat)
    requires IsLogOf(w, trace) && i < |trace| && trace[i].Begin?
    ensures exists j: nat :: IsSavedAt(trace, i, j)
  {
    hide IsLogOf, PhaseAfter;
    assert trace[..|trace|] == trace;
    StepInLog(w, trace, i);
    NotOverYet(w, trace, i + 1);
    StepInLog(w, trace, i + 1);
    NotOverYet(w, trace, i + 2);
    StepInLog(w, trace, i + 2);
    if trace[i + 2].Save? {
      assert IsSavedAt(trace, i, i + 2);
    } else {
      NotOverYet(w, trace, i + 3);
      StepInLog(w, trace, i + 3);
      assert IsSavedAt(trace, i, i + 3);
    }
  }

  ghost predicate IsSavedAt(trace: seq<Event>, i: nat, j: nat) {
    && i < j < |trace| && trace[j].Save? && trace[j].op == trace[i].op
    && forall k :: i < k <= j ==> trace[k].op == trace[i].op && !trace[k].Begin?
  }

  lemma NotOverYet(w: World, trace: seq<Event>, i: nat)
    requires IsLogOf(w, trace) && i <= |trace|
    requires var p := PhaseAfter(w.deadline, trace[..i]); p.Begun? || p.Recorded? || p.Judged?
    ensures i < |trace|
  {
    assert trace[..|trace|] == trace;
  }

  function Begins(trace: seq<Event>): nat {
    if trace == [] then 0
    else Begins(trace[..|trace| - 1]) + if trace[|trace| - 1].Begin? then 1 else 0
  }

  function OpsIn(p: Phase): nat {
    match p case Between(n) => n case Broken => 0 case other => other.op
  }

  lemma {:induction false} OpsAreCounted(deadline: nat, trace: seq<Event>)
    requires PhaseAfter(deadline, trace) != Broken
    ensures OpsIn(PhaseAfter(deadline, trace)) == Begins(trace)
  {
    if trace != [] {
      OpsAreCounted(deadline, trace[..|trace| - 1]);
    }
  }

  /** There are at most `max(1, attempts)` operations. */
  lemma OpsAreBounded(w: World, trace: seq<Event>)
    requires IsLogOf(w, trace)
    ensures Begins(trace) <= MaxOps(w)
  {
    hide PhaseAfter, Begins;
    OpsAreCounted(w.deadline, trace);
  }

  /** Nothing follows an uncertain result but its checkpoint, which keeps the cookie. */
  lemma UncertainIsLast(w: World, trace: seq<Event>, i: nat)
    requires IsLogOf(w, trace) && i < |trace| && trace[i].Execute?
    requires trace[i].result.Err? && trace[i].result.error.Uncertain?
    ensures |trace| == i + 2
    ensures trace[i + 1].Save? &&
      trace[i + 1].checkpoint == Unclear(trace[i].result.error.error, trace[i].result.error.cookie)
  {
    hide IsLogOf, PhaseAfter;
    ExecutionIsFramed(w, trace, i);
    StepInLog(w, trace, i);
    StepInLog(w, trace, i + 1);
    if i + 2 < |trace| {
      StepInLog(w, trace, i + 2);
    }
  }

  /** Outputs are returned exactly when they were saved. */
  lemma OutputsWereSaved(w: World, trace: seq<Event>, r: Result<Provision, Setback>)
    requires IsResultOf(w, trace, r)
    ensures r.Ok? <==>
      trace != [] && trace[|trace| - 1].Save? && trace[|trace| - 1].recorded && trace[|trace| - 1].checkpoint.Saved?
    ensures r.Ok? ==> trace[|trace| - 1].checkpoint == Saved(r.value)
  {
  }
}
