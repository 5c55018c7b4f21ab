/** What a node's operation log says about each of its operations. */
module NodeMeaning {
  import opened Basics
  import opened Outcomes
  import opened Executor
  import opened NodeRun

  /** A permit was granted, there is time, and the store let the operation begin. */
  ghost predicate CanBegin(w: World, k: nat) {
    w.permit(k).Granted? && w.startsAt(k) < w.deadline && w.begin(k).None?
  }

  /** Another attempt is left, and time for it once the delay is over. */
  ghost predicate HasAnother(w: World, k: nat, retryAfter: Option<nat>) {
    && k < w.attempts
    && match retryAfter
       case Some(delay) => w.endsAt(k) + delay < w.deadline
       case None => w.endsAt(k) + w.backoff(k) < w.deadline
  }

  /** The log of a node that ended with `r`. */
  ghost predicate IsNodeLog(w: World, trace: seq<Event>, r: Result<Provision, Setback>) {
    IsLogOf(w, trace) && AllIn(w, trace) && IsResultOf(w, trace, r)
  }

  lemma EventIsIn(w: World, trace: seq<Event>, i: nat)
    requires AllIn(w, trace) && i < |trace|
    ensures IsIn(w, trace[i])
  {
    hide IsIn;
  }

  /** A log begins with the first operation, unless the node cannot provision or its first attempt cannot begin. */
  lemma FirstBegins(w: World, trace: seq<Event>, r: Result<Provision, Setback>)
    requires IsNodeLog(w, trace, r)
    ensures trace != [] <==> w.missing.None? && CanBegin(w, 1)
    ensures trace != [] ==> trace[0] == Begin(1, w.startsAt(1))
    ensures w.missing.Some? ==> r == Err(Failed(w.missing.value))
  {
    hide IsLogOf, PhaseAfter, IsIn, AllIn;
    if trace != [] {
      EmptyLog(w);
      assert trace[..0] == [];
      StepInLog(w, trace, 0);
      EventIsIn(w, trace, 0);
      BeginIs(w, trace[0]);
    }
  }

  lemma BeginIs(w: World, e: Event)
    requires IsIn(w, e) && e.Begin?
    ensures w.missing.None? && w.permit(e.op).Granted? && w.begin(e.op).None? && e.at == w.startsAt(e.op)
    ensures e.op > 1 ==> MayRetry(w, e.op - 1)
  {
    hide MayRetry;
  }

  /** What follows the beginning of an operation. */
  ghost predicate GoesOn(w: World, trace: seq<Event>, i: nat, k: nat) {
    i < |trace| &&
    if w.job(k).Some? then trace[i] == Refuse(k, Permanent(w.job(k).value))
    else if w.prior(k).Some? then trace[i] == Refuse(k, w.prior(k).value)
    else
      && trace[i] == Record(k, w.record(k)) && i + 1 < |trace|
      && if w.record(k) then trace[i + 1] == Execute(k, ResultOf(w.exec(k)))
         else trace[i + 1].Save? && trace[i + 1].checkpoint == Failure(UNRECORDED)
  }

  /** An operation that begins is refused, fails unrecorded, or has its inputs recorded and executes. */
  lemma BegunGoesOn(w: World, trace: seq<Event>, i: nat)
    requires IsLogOf(w, trace) && AllIn(w, trace) && i < |trace| && trace[i].Begin?
    ensures GoesOn(w, trace, i + 1, trace[i].op)
  {
    hide IsLogOf, PhaseAfter, AllIn;
    StepInLog(w, trace, i);
    NotOverYet(w, trace, i + 1);
    StepInLog(w, trace, i + 1);
    EventIsIn(w, trace, i + 1);
    if trace[i + 1].Record? {
      NotOverYet(w, trace, i + 2);
      StepInLog(w, trace, i + 2);
      EventIsIn(w, trace, i + 2);
    }
  }

  lemma {:induction false} OpsAreNumbered(deadline: nat, trace: seq<Event>)
    ensures var p := PhaseAfter(deadline, trace); p.Between? || p.Broken? || p.op > 0
  {
    if trace != [] {
      OpsAreNumbered(deadline, trace[..|trace| - 1]);
    }
  }

  /** Another operation follows a failure exactly if it is retryable, an attempt and time are left, and it can begin. */
  lemma RetryIff(w: World, trace: seq<Event>, r: Result<Provision, Setback>, i: nat)
    requires IsNodeLog(w, trace, r) && i < |trace| && trace[i].Save? && trace[i].checkpoint.Failure?
    ensures var k, result := trace[i].op, ResultIn(w, trace[i].op);
      i + 1 < |trace| <==>
        && result.Err? && result.error.Retryable? && HasAnother(w, k, result.error.retryAfter)
        && CanBegin(w, k + 1)
    ensures i + 1 < |trace| ==> trace[i + 1] == Begin(trace[i].op + 1, w.startsAt(trace[i].op + 1))
  {
    hide IsLogOf, PhaseAfter, IsIn, AllIn, ResultIn;
    if i + 1 < |trace| {
      OpsAreNumbered(w.deadline, trace[..i]);
      StepInLog(w, trace, i);
      StepInLog(w, trace, i + 1);
      EventIsIn(w, trace, i + 1);
      BeginIs(w, trace[i + 1]);
    }
  }

  /** An operation whose inputs were not recorded is not executed, and is retried if an attempt and time are left. */
  lemma UnrecordedIsRetried(w: World, trace: seq<Event>, r: Result<Provision, Setback>, i: nat)
    requires IsNodeLog(w, trace, r) && i < |trace| && trace[i].Record? && !trace[i].recorded
    ensures i + 1 < |trace| && trace[i + 1].Save? && trace[i + 1].op == trace[i].op && trace[i + 1].checkpoint.Failure?
    ensures i + 2 < |trace| <==> HasAnother(w, trace[i].op, None) && CanBegin(w, trace[i].op + 1)
    ensures i + 2 < |trace| ==> trace[i + 2].Begin?
  {
    hide IsLogOf, PhaseAfter, AllIn, HasAnother, CanBegin, IsResultOf;
    StepInLog(w, trace, i);
    NotOverYet(w, trace, i + 1);
    StepInLog(w, trace, i + 1);
    EventIsIn(w, trace, i);
    RetryIff(w, trace, r, i + 1);
  }
}
