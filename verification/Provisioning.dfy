/**
 From a deployment's run down to the calls of its drivers: what a resource's
 outcome says about every attempt to provision it.
 */
module Provisioning {
  import opened Basics
  import opened Ids
  import opened Outcomes
  import opened Placeholder
  import opened Executor
  import opened NodeMeaning
  import opened NodeRun
  import Driver
  import DriverTrace
  import DriverRun
  import Scheduler

  /** One resource's provisioning: what happened, what it logged, and the job and driver run of each operation. */
  datatype Attempt = Attempt(
    world: World,
    log: seq<Event>,
    result: Result<Provision, Setback>,
    job: nat -> Job,
    run: nat -> Option<DriverTrace.State>)

  /** The resource was run by `RunNode`, and each of its operations that gave an answer by `RunProvision`. */
  ghost predicate IsAttempt(a: Attempt) {
    && IsLogOf(a.world, a.log) && AllIn(a.world, a.log) && IsResultOf(a.world, a.log, a.result)
    && forall op :: a.world.exec(op).Answered? ==> IsExecution(a.job(op), a.world.exec(op).result, a.run(op))
  }

  /** How a deployment provisions each resource that it starts; `stops` says whose task stops unexpectedly. */
  datatype Works = Works(
    stops: (Descriptor, Scheduler.Finished, nat) -> bool,
    attempt: (Descriptor, Scheduler.Finished, nat) -> Attempt,
    outputs: Provision -> ResourceOutputs)

  function ResultFor(w: Works, r: Result<Provision, Setback>): Result<ResourceOutputs, Setback> {
    if r.Ok? then Ok(w.outputs(r.value)) else Err(r.error)
  }

  const TASK_STOPPED := "provisioning stopped unexpectedly; recover the resource"

  ghost predicate Provisions(w: Works, p: Scheduler.Plan) {
    forall d, seen, at :: IsProvisioned(w, p, d, seen, at)
  }

  ghost predicate IsProvisioned(w: Works, p: Scheduler.Plan, d: Descriptor, seen: Scheduler.Finished, at: nat) {
    if w.stops(d, seen, at) then p.exec(d, seen, at) == Err(Unknown(TASK_STOPPED))
    else
      && IsAttempt(w.attempt(d, seen, at))
      && p.exec(d, seen, at) == ResultFor(w, w.attempt(d, seen, at).result)
  }

  ghost predicate TaskStops(w: Works, s: Scheduler.State, d: Descriptor)
    requires d in s.starts
  {
    w.stops(d, s.starts[d].seen, s.starts[d].at)
  }

  /** The attempt of a resource that was started. */
  function AttemptOf(w: Works, s: Scheduler.State, d: Descriptor): Attempt
    requires d in s.starts
  {
    w.attempt(d, s.starts[d].seen, s.starts[d].at)
  }

  lemma OutcomeIsOfAttempt(w: Works, p: Scheduler.Plan, s: Scheduler.State, d: Descriptor)
    requires Provisions(w, p) && Scheduler.Inv(p, s) && d in s.outcomes
    ensures d in s.starts
    ensures TaskStops(w, s, d) ==> s.outcomes[d].Unknown?
    ensures !TaskStops(w, s, d) ==>
      IsAttempt(AttemptOf(w, s, d)) && s.outcomes[d] == Scheduler.OutcomeOf(ResultFor(w, AttemptOf(w, s, d).result))
  {
    hide Scheduler.IsSafe, Scheduler.Records, IsAttempt;
    assert Scheduler.ResultIs(p, s, d);
    assert IsProvisioned(w, p, d, s.starts[d].seen, s.starts[d].at);
  }

  // ---- What ends a log ----

  /** The driver ran in this operation, and the executor gave an answer. */
  ghost predicate IsOperation(a: Attempt, i: nat) {
    i < |a.log| && a.log[i].Execute? && a.world.exec(a.log[i].op).Answered?
  }

  lemma ExecutionIsAnswer(a: Attempt, i: nat)
    requires IsAttempt(a) && i < |a.log| && a.log[i].Execute?
    ensures a.log[i].result == ResultOf(a.world.exec(a.log[i].op))
  {
    hide IsLogOf, IsResultOf, ResultIn;
    assert IsIn(a.world, a.log[i]);
  }

  /** After a result that is no failure, the log ends with its checkpoint, or with the note that it was not saved. */
  lemma SuccessIsLast(w: World, log: seq<Event>, i: nat)
    requires IsLogOf(w, log) && i < |log| && log[i].Execute? && log[i].result.Ok?
    ensures i + 1 < |log| && log[i + 1].Save? && log[i + 1].checkpoint == Saved(log[i].result.value)
    ensures if log[i + 1].recorded then |log| == i + 2 else
      |log| == i + 3 && log[i + 2].Save? && log[i + 2].checkpoint == Unclear(UNSAVED, None)
  {
    hide IsLogOf, PhaseAfter;
    ExecutionIsFramed(w, log, i);
    StepInLog(w, log, i);
    StepInLog(w, log, i + 1);
    if log[i + 1].recorded {
      if i + 2 < |log| {
        StepInLog(w, log, i + 2);
      }
    } else {
      UnsavedIsNotLast(w, log, i + 2);
      StepInLog(w, log, i + 2);
      if i + 3 < |log| {
        StepInLog(w, log, i + 3);
      }
    }
  }

  lemma UnsavedIsNotLast(w: World, log: seq<Event>, i: nat)
    requires IsLogOf(w, log) && i <= |log| && PhaseAfter(w.deadline, log[..i]).Unsaved?
    ensures i < |log|
  {
    assert log[..|log|] == log;
  }

  // ---- Cookies ----

  /** The sealed cookie in a checkpoint. */
  function CookieIn(c: Checkpoint): Option<Sealed> {
    match c
    case Saved(provision) => provision.cookie
    case Failure(_) => None
    case Unclear(_, cookie) => cookie
  }

  /** A checkpoint that the store recorded for the operation holds the sealed cookie. */
  ghost predicate IsStored(a: Attempt, i: nat, k: Driver.Cookie)
    requires i < |a.log| && a.log[i].Execute?
  {
    exists n :: i < n < |a.log| && HoldsRecord(a.log[n], a.log[i].op, a.job(a.log[i].op).seal(k))
  }

  predicate HoldsRecord(e: Event, op: nat, cookie: Option<Sealed>) {
    e.Save? && e.recorded && e.op == op && CookieIn(e.checkpoint) == cookie
  }

  /**
   What follows an operation whose driver run left a new cookie: a checkpoint with
   the cookie, no other operation, and a recorded cookie exactly if the store
   recorded that checkpoint.
   */
  ghost predicate IsKept(a: Attempt, i: nat, k: Driver.Cookie)
    requires i < |a.log| && a.log[i].Execute?
  {
    && i + 1 < |a.log| && a.log[i + 1].Save? && a.log[i + 1].op == a.log[i].op
    && CookieIn(a.log[i + 1].checkpoint) == a.job(a.log[i].op).seal(k)
    && (IsStored(a, i, k) <==> a.log[i + 1].recorded)
    && (forall n :: i < n < |a.log| ==> !a.log[n].Begin? && !a.log[n].Execute?)
    && (a.result.Ok? || a.result.error.Unknown?)
    && (a.result.Ok? <==> a.log[i].result.Ok? && a.log[i + 1].recorded)
  }

  lemma CookieIsKeptByNode(a: Attempt, i: nat, k: Driver.Cookie)
    requires IsAttempt(a) && IsOperation(a, i) && a.run(a.log[i].op).Some?
    requires LeftCookie(a.job(a.log[i].op), a.run(a.log[i].op).value, k)
    ensures IsKept(a, i, k)
  {
    hide IsLogOf, AllIn, IsExecution, DriverTrace.Latest;
    ExecutionIsAnswer(a, i);
    AnswerHoldsCookie(a, i, k);
    ExecutionIsFramed(a.world, a.log, i);
    if a.log[i].result.Ok? {
      SuccessIsLast(a.world, a.log, i);
    } else {
      UncertainIsLast(a.world, a.log, i);
    }
    assert HoldsRecord(a.log[i + 1], a.log[i].op, a.job(a.log[i].op).seal(k)) <==> a.log[i + 1].recorded;
  }

  lemma AnswerHoldsCookie(a: Attempt, i: nat, k: Driver.Cookie)
    requires IsAttempt(a) && IsOperation(a, i) && a.run(a.log[i].op).Some?
    requires LeftCookie(a.job(a.log[i].op), a.run(a.log[i].op).value, k)
    ensures HoldsCookie(a.job(a.log[i].op), a.world.exec(a.log[i].op).result, k)
    ensures a.world.exec(a.log[i].op).result.Err? ==> a.world.exec(a.log[i].op).result.error.Uncertain?
  {
    hide IsLogOf, AllIn, IsResultOf, IsResult, LeftCookie, DriverTrace.IsRunOf;
    var op := a.log[i].op;
    assert IsExecution(a.job(op), a.world.exec(op).result, a.run(op));
  }

  /** An operation that was cut off gives no answer: its checkpoint holds no cookie, and the outcome is unknown. */
  lemma CutOffIsUnknown(a: Attempt, i: nat)
    requires IsAttempt(a) && i < |a.log| && a.log[i].Execute? && !a.world.exec(a.log[i].op).Answered?
    ensures |a.log| == i + 2 && a.log[i + 1].Save? && a.log[i + 1].checkpoint.Unclear?
    ensures a.log[i + 1].checkpoint.cookie.None? && a.result.Err? && a.result.error.Unknown?
  {
    hide IsLogOf, AllIn, IsExecution;
    ExecutionIsAnswer(a, i);
    UncertainIsLast(a.world, a.log, i);
  }

  /**
   In every state of every run of a deployment: if a driver left a new cookie, the
   checkpoint written next holds it, sealed, and the store has the cookie exactly
   if it recorded that checkpoint. No operation follows, and the resource ends as
   provisioned or unknown.
   */
  lemma CookieIsKept(w: Works, p: Scheduler.Plan, s: Scheduler.State, d: Descriptor, i: nat, k: Driver.Cookie)
    requires Provisions(w, p) && Scheduler.Inv(p, s) && d in s.outcomes && d in s.starts && !TaskStops(w, s, d)
    requires var a := AttemptOf(w, s, d);
      && IsOperation(a, i) && a.run(a.log[i].op).Some?
      && LeftCookie(a.job(a.log[i].op), a.run(a.log[i].op).value, k)
    ensures IsKept(AttemptOf(w, s, d), i, k)
    ensures IsStored(AttemptOf(w, s, d), i, k) <==> AttemptOf(w, s, d).log[i + 1].recorded
    ensures s.outcomes[d].Provisioned? || s.outcomes[d].Unknown?
  {
    hide Scheduler.Inv, Provisions, IsAttempt, LeftCookie, IsStored;
    OutcomeIsOfAttempt(w, p, s, d);
    CookieIsKeptByNode(AttemptOf(w, s, d), i, k);
  }

  // ---- A success that is not recorded ----

  /** After a success whose checkpoint the store did not record, what it does record holds no cookie. */
  lemma UnrecordedSuccessLosesCookie(a: Attempt, i: nat, n: nat)
    requires IsAttempt(a) && i < |a.log| && a.log[i].Execute? && a.log[i].result.Ok?
    requires i + 1 < |a.log| && a.log[i + 1].Save? && !a.log[i + 1].recorded
    requires i < n < |a.log| && a.log[n].Save? && a.log[n].recorded
    ensures a.log[n].checkpoint == Unclear(UNSAVED, None)
    ensures a.result == Err(Unknown(UNSAVED))
  {
    hide IsLogOf, AllIn, IsExecution;
    SuccessIsLast(a.world, a.log, i);
  }

  const COOKIE: Driver.Cookie := Driver.Cookie(1, [])

  /** Is ready at once, with a new cookie. */
  const PROMPT: DriverTrace.Behaviour := DriverTrace.Behaviour(
    1, false,
    _ => DriverTrace.Reply(Ok(Driver.PutReady(map[], Some(COOKIE))), 0),
    _ => DriverTrace.Reply(Ok(Driver.Deleted), 0),
    (_, _) => DriverTrace.Reply(Ok(Driver.Absent(None)), 0),
    _ => DriverTrace.Reply(Ok(Driver.Absent(None)), 0))

  const PROMPT_JOB: Job := Job(PROMPT, None, 1, false, None, Ok(NoPlan), _ => None, None, _ => Some("sealed"),
    _ => None, _ => None)

  const PROMPT_TRACE: seq<DriverTrace.Event> := [
    DriverTrace.Call(DriverTrace.Put, None),
    DriverTrace.PutReply(Ok(Driver.PutReady(map[], Some(COOKIE))))]

  const PROMPT_RUN: DriverTrace.State := DriverTrace.State(Some(COOKIE), 0, PROMPT_TRACE, 0)

  const MADE: Provision := Provision(map[], Some("sealed"))

  /** The store records every checkpoint but that of a success. */
  const FORGETFUL: World := World(
    1, 1, None, _ => Granted, _ => 0, _ => None, _ => None, _ => None, _ => true,
    op => if op == 1 then Answered(Ok(MADE)) else Panicked,
    (_, c: Checkpoint) => !c.Saved?, _ => 0, _ => 0)

  const FORGETFUL_LOG: seq<Event> := [
    Begin(1, 0), Record(1, true), Execute(1, Ok(MADE)),
    Save(1, Saved(MADE), false), Save(1, Unclear(UNSAVED, None), true)]

  const FORGOTTEN: Attempt :=
    Attempt(FORGETFUL, FORGETFUL_LOG, Err(Unknown(UNSAVED)), _ => PROMPT_JOB, _ => Some(PROMPT_RUN))

  lemma PromptTrace(c: DriverTrace.Setup)
    requires c == DriverTrace.Setup(PROMPT, 1, None)
    ensures DriverTrace.Latest(c, PROMPT_TRACE) == Some(COOKIE) && DriverTrace.IsCarried(c, PROMPT_TRACE)
    ensures DriverTrace.Calls(PROMPT_TRACE) == [DriverTrace.Put]
  {
    hide DriverTrace.Latest, DriverTrace.IsCarried, DriverTrace.Calls;
    var t := PROMPT_TRACE;
    assert t == [] + [t[0]] + [t[1]];
    DriverRun.StartIsCarried(c);
    DriverTrace.Extend(c, [], t[0]);
    DriverTrace.Extend(c, [] + [t[0]], t[1]);
    assert [] + [DriverTrace.Put] + [] == [DriverTrace.Put];
  }

  lemma PromptIsAnswered(c: DriverTrace.Setup)
    requires c == DriverTrace.Setup(PROMPT, 1, None)
    ensures DriverTrace.IsAnswered(c, PROMPT_TRACE)
  {
    hide DriverTrace.Calls;
    var t := PROMPT_TRACE;
    assert DriverTrace.IsAnsweredAt(c, t, 0) && DriverTrace.IsAnsweredAt(c, t, 1);
  }

  lemma PromptRun()
    ensures DriverTrace.IsRunOf(Setting(PROMPT_JOB), DriverTrace.Put, PROMPT_RUN, Ok(map[]))
    ensures DriverTrace.Latest(Setting(PROMPT_JOB), PROMPT_TRACE) == Some(COOKIE)
  {
    hide DriverTrace.Latest, DriverTrace.IsCarried, DriverTrace.Calls, DriverTrace.IsAnswered, DriverTrace.Gets;
    PromptTrace(Setting(PROMPT_JOB));
    PromptIsAnswered(Setting(PROMPT_JOB));
    DriverRun.MoreGets(0);
    assert [DriverTrace.Put] + DriverTrace.Gets(0) == [DriverTrace.Put];
  }

  lemma PromptExecution()
    ensures IsExecution(PROMPT_JOB, Ok(MADE), Some(PROMPT_RUN)) && LeftCookie(PROMPT_JOB, PROMPT_RUN, COOKIE)
  {
    hide DriverTrace.IsRunOf, DriverTrace.Latest;
    PromptRun();
    assert DriverTrace.Verdict(Setting(PROMPT_JOB), DriverTrace.Put, PROMPT_TRACE) == Ok(map[]);
  }

  lemma ForgetfulLog()
    ensures IsLogOf(FORGETFUL, FORGETFUL_LOG) && AllIn(FORGETFUL, FORGETFUL_LOG)
  {
    hide PhaseAfter;
    var t := FORGETFUL_LOG;
    assert t == [] + [t[0]] + [t[1]] + [t[2]] + [t[3]] + [t[4]];
    EmptyLog(FORGETFUL);
    PhaseStep(1, [], t[0]);
    PhaseStep(1, [] + [t[0]], t[1]);
    PhaseStep(1, [] + [t[0]] + [t[1]], t[2]);
    PhaseStep(1, [] + [t[0]] + [t[1]] + [t[2]], t[3]);
    PhaseStep(1, [] + [t[0]] + [t[1]] + [t[2]] + [t[3]], t[4]);
  }

  /** Such an attempt: the driver left a new cookie, the executor answered, and no recorded checkpoint holds it. */
  lemma CookieCanBeForgotten()
    ensures IsAttempt(FORGOTTEN) && IsOperation(FORGOTTEN, 2)
    ensures LeftCookie(PROMPT_JOB, PROMPT_RUN, COOKIE) && !IsStored(FORGOTTEN, 2, COOKIE)
  {
    hide IsLogOf, AllIn, IsExecution, LeftCookie, IsStored, DriverTrace.IsRunOf;
    PromptExecution();
    ForgetfulLog();
    CookieIsKeptByNode(FORGOTTEN, 2, COOKIE);
  }

  // ---- Failures that changed nothing ----

  /** The operation's driver run left no cookie, and how it ended is known. */
  ghost predicate IsClean(j: Job, run: DriverTrace.State) {
    var verdict := DriverTrace.Verdict(Setting(j), DriverTrace.Put, run.trace);
    && (forall k :: !LeftCookie(j, run, k))
    && (verdict.Err? ==> !IsUnknownOutcome(verdict.error))
    && (verdict.Ok? ==> j.plan == Ok(NoEffects))
  }

  lemma CertainIsClean(j: Job, r: Result<Provision, ExecFailure>, run: DriverTrace.State)
    requires IsExecution(j, r, Some(run)) && r.Err? && !r.error.Uncertain?
    ensures IsClean(j, run)
  {
    hide DriverTrace.Verdict, DriverTrace.Latest, DriverTrace.IsRunOf, IsUnknownOutcome, LeftCookie;
    var verdict := DriverTrace.Verdict(Setting(j), DriverTrace.Put, run.trace);
    if verdict.Err? && IsUnknownOutcome(verdict.error) {
      UnknownStaysUncertain(j, run, r);
    }
  }

  /** A resource that failed or is pending had no operation with an uncertain result, or with outputs. */
  lemma FailureIsCertain(a: Attempt, i: nat)
    requires IsAttempt(a) && i < |a.log| && a.log[i].Execute? && a.result.Err? && !a.result.error.Unknown?
    ensures a.world.exec(a.log[i].op).Answered?
    ensures a.log[i].result == a.world.exec(a.log[i].op).result
    ensures a.log[i].result.Err? && !a.log[i].result.error.Uncertain?
  {
    hide IsLogOf, AllIn, IsExecution;
    ExecutionIsAnswer(a, i);
    if a.log[i].result.Ok? {
      SuccessIsLast(a.world, a.log, i);
    } else if a.log[i].result.error.Uncertain? {
      UncertainIsLast(a.world, a.log, i);
    }
  }

  /**
   In every state of every run of a deployment: a resource that ends as failed or
   pending left no new cookie in any of its operations, each of them ended in a
   way that is known, and none that succeeded had planned a change.
   */
  lemma FailureIsClean(w: Works, p: Scheduler.Plan, s: Scheduler.State, d: Descriptor, i: nat)
    requires Provisions(w, p) && Scheduler.Inv(p, s) && d in s.outcomes && d in s.starts
    requires s.outcomes[d].Failed? || s.outcomes[d].Pending?
    requires i < |AttemptOf(w, s, d).log| && AttemptOf(w, s, d).log[i].Execute?
    ensures var a := AttemptOf(w, s, d);
      !TaskStops(w, s, d) && (a.run(a.log[i].op).Some? ==> IsClean(a.job(a.log[i].op), a.run(a.log[i].op).value))
  {
    hide Scheduler.Inv, Provisions, IsLogOf, AllIn, IsResultOf, IsExecution, IsClean;
    OutcomeIsOfAttempt(w, p, s, d);
    var a := AttemptOf(w, s, d);
    FailureIsCertain(a, i);
    var op := a.log[i].op;
    assert IsExecution(a.job(op), a.world.exec(op).result, a.run(op));
    if a.run(op).Some? {
      CertainIsClean(a.job(op), a.world.exec(op).result, a.run(op).value);
    }
  }

  // ---- Retries ----

  /** Only a retryable failure is followed by another operation. */
  lemma FollowedIsRetryable(w: World, log: seq<Event>, i: nat, n: nat)
    requires IsLogOf(w, log) && i < n < |log| && log[i].Execute? && log[n].Begin?
    ensures log[i].result.Err? && log[i].result.error.Retryable?
  {
    hide IsLogOf, PhaseAfter;
    ExecutionIsFramed(w, log, i);
    if log[i].result.Ok? {
      SuccessIsLast(w, log, i);
    } else if log[i].result.error.Uncertain? {
      UncertainIsLast(w, log, i);
    } else {
      StepInLog(w, log, i);
      StepInLog(w, log, i + 1);
      StepInLog(w, log, i + 2);
    }
  }

  /** The driver was called and last reported a transient failure without a new cookie, or it was not called. */
  ghost predicate IsRetrySafe(j: Job, run: Option<DriverTrace.State>) {
    run.Some? ==> IsTransient(j, run.value) && forall k :: !LeftCookie(j, run.value, k)
  }

  /** In every run, another operation follows only one whose driver last reported a transient failure. */
  lemma RetriedWasTransient(w: Works, p: Scheduler.Plan, s: Scheduler.State, d: Descriptor, i: nat, n: nat)
    requires Provisions(w, p) && Scheduler.Inv(p, s) && d in s.outcomes && d in s.starts && !TaskStops(w, s, d)
    requires var log := AttemptOf(w, s, d).log; i < n < |log| && log[i].Execute? && log[n].Begin?
    ensures var a, op := AttemptOf(w, s, d), AttemptOf(w, s, d).log[i].op;
      a.world.exec(op).Answered? && IsRetrySafe(a.job(op), a.run(op))
  {
    hide Scheduler.Inv, Provisions, IsLogOf, AllIn, IsResultOf, IsExecution, LeftCookie, IsTransient;
    OutcomeIsOfAttempt(w, p, s, d);
    var a := AttemptOf(w, s, d);
    var op := a.log[i].op;
    ExecutionIsAnswer(a, i);
    FollowedIsRetryable(a.world, a.log, i, n);
    assert IsExecution(a.job(op), a.world.exec(op).result, a.run(op));
    if a.run(op).Some? {
      TransientIff(a.job(op), a.world.exec(op).result, a.run(op).value);
    }
  }

  /** In every run, a transient failure that left no cookie is tried again if an attempt and time are left. */
  lemma TransientIsRetried(w: Works, p: Scheduler.Plan, s: Scheduler.State, d: Descriptor, i: nat)
    requires Provisions(w, p) && Scheduler.Inv(p, s) && d in s.outcomes && d in s.starts && !TaskStops(w, s, d)
    requires var a := AttemptOf(w, s, d); IsOperation(a, i) && a.run(a.log[i].op).Some?
    requires var a, op := AttemptOf(w, s, d), AttemptOf(w, s, d).log[i].op;
      && IsRetrySafe(a.job(op), a.run(op)) && CanBegin(a.world, op + 1)
      && HasAnother(a.world, op, RetryAfter(a.log[i].result))
    ensures var a, op := AttemptOf(w, s, d), AttemptOf(w, s, d).log[i].op;
      i + 2 < |a.log| && a.log[i + 2] == Begin(op + 1, a.world.startsAt(op + 1))
  {
    hide Scheduler.Inv, Provisions, IsLogOf, AllIn, IsResultOf, IsExecution, LeftCookie, IsTransient, ResultIn,
      HasAnother, CanBegin;
    OutcomeIsOfAttempt(w, p, s, d);
    var a := AttemptOf(w, s, d);
    var op := a.log[i].op;
    ExecutionIsAnswer(a, i);
    assert IsExecution(a.job(op), a.world.exec(op).result, a.run(op));
    TransientIff(a.job(op), a.world.exec(op).result, a.run(op).value);
    ExecutionIsFramed(a.world, a.log, i);
    ExecutedIs(a.world, a.log, i);
    RetryIff(a.world, a.log, a.result, i + 1);
  }

  function RetryAfter(r: Result<Provision, ExecFailure>): Option<nat> {
    if r.Err? && r.error.Retryable? then r.error.retryAfter else None
  }

  lemma ExecutedIs(w: World, log: seq<Event>, i: nat)
    requires AllIn(w, log) && i < |log| && log[i].Execute?
    ensures log[i].result == ResultIn(w, log[i].op)
  {
    hide ResultIn;
    EventIsIn(w, log, i);
  }

  // ---- No resource is left without a reason ----

  lemma NodeHasReason(a: Attempt)
    requires IsAttempt(a) && a.result.Err? && a.result.error.Pending?
    ensures a.result.error == Pending(OutOfTime)
  {
    hide IsLogOf, AllIn, IsExecution;
  }

  /** At the end of a run, a pending resource waits for a dependency or ran out of time: never just "not started". */
  lemma PendingHasReason(w: Works, p: Scheduler.Plan, s: Scheduler.State, outcomes: map<Descriptor, Outcome>,
      d: Descriptor)
    requires Provisions(w, p) && Scheduler.IsFinal(p, s) && Scheduler.IsEnd(p, s, outcomes)
    requires d in outcomes && outcomes[d].Pending?
    ensures outcomes[d].wait.WaitingFor? || outcomes[d].wait.OutOfTime?
  {
    hide Scheduler.Inv, Provisions, IsAttempt, Scheduler.IsLate, Scheduler.FirstWaiting;
    if d in s.starts {
      OutcomeIsOfAttempt(w, p, s, d);
      if !TaskStops(w, s, d) {
        NodeHasReason(AttemptOf(w, s, d));
      }
    } else {
      assert Scheduler.IsExplained(p, outcomes, d);
    }
  }
}
