/** Provisioning one resource through its driver: `run_provision` in `crates/engine/src/executor.rs`. */
module Executor {
  import opened Basics
  import opened DriverTrace
  import Driver
  import DriverMeaning
  import DriverRun

  /** A cookie encrypted for the store. */
  type Sealed = string

  datatype ExecFailure =
    | Permanent(error: string)
    | Retryable(error: string, retryAfter: Option<nat>)
    | Uncertain(error: string, cookie: Option<Sealed>)

  datatype Destruction = Replaces | Deletes | IsUnknown

  datatype Change = Create | Update | Replace | Remove

  datatype Plan =
    | NoPlan
    | NoEffects
    | Actions(actions: seq<Change>, fingerprint: string)

  /** What a provisioned resource returns. */
  datatype Provision = Provision(outputs: Driver.Outputs, cookie: Option<Sealed>)

  // ---- Failures ----

  function Message(e: Driver.DriverError): string
    requires !e.WithCookie?
  {
    if e.Timeout? then "the driver did not finish in time" else e.message
  }

  /** `driver_failure` */
  function DriverFailure(e: Driver.DriverError): ExecFailure {
    match e
    case Invalid(_) => Permanent(Message(e))
    case Unsupported(_) => Permanent(Message(e))
    case Transient(message, after) => Retryable(message, after)
    case Conflict(_) => Permanent(Message(e))
    case Timeout(_) => Uncertain(Message(e), None)
    case Uncertain(_) => Uncertain(Message(e), None)
    case WithCookie(error, _) => DriverFailure(error)
  }

  /** `mutation_failure`: once the driver accepted the mutation, any failure may have left changes. */
  function MutationFailure(e: Driver.DriverError, accepted: bool): ExecFailure {
    var f := DriverFailure(e);
    if f.Uncertain? || !accepted then f else Uncertain(f.error, None)
  }

  /** `with_cookie` */
  function WithNewer(f: ExecFailure, newer: Option<Sealed>): ExecFailure {
    if f.Uncertain? && newer.Some? then f.(cookie := newer) else f
  }

  predicate IsUnknownOutcome(e: Driver.DriverError) {
    e.Split().0.Timeout? || e.Split().0.Uncertain?
  }

  /** Failures are retried exactly when the driver says so, and uncertain exactly when the outcome is unknown. */
  lemma {:induction false} FailureIsFaithful(e: Driver.DriverError)
    ensures DriverFailure(e).Retryable? <==> e.IsRetryable()
    ensures DriverFailure(e).Uncertain? <==> IsUnknownOutcome(e)
    ensures DriverFailure(e) == DriverFailure(e.Split().0)
  {
    if e.WithCookie? {
      FailureIsFaithful(e.error);
    }
  }

  /** A failure after an accepted mutation is uncertain, and keeps the newest cookie. */
  lemma MutationFailureIsSafe(e: Driver.DriverError, newer: Option<Sealed>)
    ensures var f := WithNewer(MutationFailure(e, newer.Some?), newer);
      && (newer.Some? ==> f.Uncertain? && f.cookie == newer)
      && (IsUnknownOutcome(e) ==> f.Uncertain?)
      && (f.Retryable? <==> newer.None? && e.IsRetryable())
  {
    FailureIsFaithful(e);
  }

  // ---- Provisioning ----

  /** A job, with whatever the environment answers before and after the driver runs. */
  datatype Job = Job(
    b: Behaviour,
    cookie: Option<Driver.Cookie>,
    timeout: nat,
    existing: bool,
    request: Option<ExecFailure>,
    plan: Result<Plan, ExecFailure>,
    permit: Destruction -> Option<ExecFailure>,
    refresh: Option<ExecFailure>,
    seal: Driver.Cookie -> Option<Sealed>,
    invalid: Driver.Outputs -> Option<string>,
    unstored: Driver.Outputs -> Option<string>)

  function Setting(j: Job): Setup {
    Setup(j.b, Min(j.timeout, MAX_TIMEOUT), j.cookie)
  }

  /** `newer_cookie`: the cookie a mutation left, sealed, when it differs from the one the call was given. */
  function NewerCookie(j: Job, k: Option<Driver.Cookie>): Option<Sealed> {
    if k.None? || k == j.cookie then None else j.seal(k.value)
  }

  const UNENCODED := "the driver state could not be encoded"

  /** `provisioned`: outputs that are valid and stored, with the cookie sealed. */
  function Provisioned(j: Job, outputs: Driver.Outputs, cookie: Option<Driver.Cookie>): Result<Provision, ExecFailure> {
    if j.invalid(outputs).Some? then Err(Permanent(j.invalid(outputs).value))
    else if j.unstored(outputs).Some? then Err(Uncertain(j.unstored(outputs).value, None))
    else if cookie.None? then Ok(Provision(outputs, None))
    else if j.seal(cookie.value).None? then Err(Uncertain(UNENCODED, None))
    else Ok(Provision(outputs, j.seal(cookie.value)))
  }

  function Destroys(actions: seq<Change>): Option<Destruction> {
    if Replace in actions then Some(Replaces)
    else if Remove in actions then Some(Deletes)
    else None
  }

  /** The permit a plan needs. */
  function NeededPermit(j: Job, plan: Plan): Option<Destruction> {
    match plan
    case NoEffects => None
    case Actions(actions, _) => Destroys(actions)
    case NoPlan => if j.existing then Some(IsUnknown) else None
  }

  /** What keeps the driver from being called. */
  function Refusal(j: Job): Option<ExecFailure> {
    if j.request.Some? then j.request
    else if j.plan.Err? then Some(j.plan.error)
    else
      var needed := NeededPermit(j, j.plan.value);
      if needed.Some? && j.permit(needed.value).Some? then j.permit(needed.value) else j.refresh
  }

  /** The run left a cookie that the job was not given and that can be kept. */
  ghost predicate LeftCookie(j: Job, s: State, k: Driver.Cookie) {
    Latest(Setting(j), s.trace) == Some(k) && j.cookie != Some(k) && j.seal(k).Some?
  }

  /** The result is a provision or an uncertain failure, and holds the sealed cookie. */
  ghost predicate HoldsCookie(j: Job, r: Result<Provision, ExecFailure>, k: Driver.Cookie) {
    if r.Ok? then r.value.cookie == j.seal(k) else r.error.Uncertain? && r.error.cookie == j.seal(k)
  }

  /** What the executor makes of a driver run that ended in `s`. */
  ghost predicate IsResult(j: Job, s: State, r: Result<Provision, ExecFailure>) {
    var verdict := Verdict(Setting(j), Put, s.trace);
    var newer := NewerCookie(j, Latest(Setting(j), s.trace));
    && (verdict.Err? ==> r == Err(WithNewer(MutationFailure(verdict.error, newer.Some?), newer)))
    && (r.Ok? ==> verdict.Ok? && Provisioned(j, verdict.value, s.cookie) == r)
    && (verdict.Ok? && (newer.Some? || j.plan != Ok(NoEffects)) ==> r.Ok? || r.error.Uncertain?)
    && (verdict.Ok? && ((newer.None? && j.plan == Ok(NoEffects)) || Provisioned(j, verdict.value, s.cookie).Ok?) ==>
      r == Provisioned(j, verdict.value, s.cookie))
  }

  /** The driver is not called exactly when something refuses; a new cookie that its run leaves is in the result. */
  ghost predicate IsExecution(j: Job, r: Result<Provision, ExecFailure>, run: Option<State>) {
    && (Refusal(j).Some? ==> r == Err(Refusal(j).value))
    && (run.None? <==> Refusal(j).Some?)
    && (run.Some? ==> IsRunOf(Setting(j), Put, run.value, Verdict(Setting(j), Put, run.value.trace)))
    && (run.Some? ==> IsResult(j, run.value, r))
    && (run.Some? ==> forall k :: LeftCookie(j, run.value, k) ==> HoldsCookie(j, r, k))
  }

  /** `run_provision` */
  method RunProvision(j: Job) returns (r: Result<Provision, ExecFailure>, ghost run: Option<State>)
    ensures Refusal(j).Some? ==> r == Err(Refusal(j).value)
    ensures IsExecution(j, r, run)
  {
    hide IsRunOf, Latest, Verdict;
    run := None;
    if j.request.Some? {
      return Err(j.request.value), None;
    }
    if j.plan.Err? {
      return Err(j.plan.error), None;
    }
    var changes := j.plan.value != NoEffects;
    var needed := NeededPermit(j, j.plan.value);
    if needed.Some? {
      var refused := j.permit(needed.value);
      if refused.Some? {
        return Err(refused.value), None;
      }
    }
    if j.refresh.Some? {
      return Err(j.refresh.value), None;
    }
    var settled, s := DriverRun.Converge(j.b, j.cookie, j.timeout);
    run := Some(s);
    RunHasVerdict(Setting(j), s, settled.result);
    var newer := NewerCookie(j, settled.cookie);
    if settled.result.Err? {
      MutationFailureIsSafe(settled.result.error, newer);
      r := Err(WithNewer(MutationFailure(settled.result.error, newer.Some?), newer));
      return;
    }
    var changed := changes || newer.Some?;
    r := Provisioned(j, settled.result.value, settled.cookie);
    if r.Err? && !r.error.Uncertain? && changed {
      r := Err(Uncertain(r.error.error, None));
    }
    if r.Err? {
      r := Err(WithNewer(r.error, newer));
    }
  }

  lemma RunHasVerdict(c: Setup, s: State, r: Result<Driver.Outputs, Driver.DriverError>)
    requires IsRunOf(c, Put, s, r)
    ensures r == Verdict(c, Put, s.trace) && s.cookie == Latest(c, s.trace)
  {
    hide Verdict, Latest, IsCarried, IsAnswered, Calls;
  }

  // ---- Uncertainty is never lost ----

  /** A timeout or an unknown outcome is never taken for a failure that changed nothing. */
  lemma UnknownStaysUncertain(j: Job, s: State, r: Result<Provision, ExecFailure>)
    requires IsResult(j, s, r)
    requires Verdict(Setting(j), Put, s.trace).Err? && IsUnknownOutcome(Verdict(Setting(j), Put, s.trace).error)
    ensures r.Err? && r.error.Uncertain?
  {
    hide Verdict, Latest;
    MutationFailureIsSafe(Verdict(Setting(j), Put, s.trace).error, NewerCookie(j, Latest(Setting(j), s.trace)));
  }

  /** An attempt is retried exactly when the driver's last word was a transient failure and it left no new cookie. */
  lemma RetriedIff(j: Job, s: State, r: Result<Provision, ExecFailure>)
    requires IsResult(j, s, r)
    ensures var verdict := Verdict(Setting(j), Put, s.trace);
      r.Err? && r.error.Retryable? <==>
        verdict.Err? && verdict.error.IsRetryable() && NewerCookie(j, Latest(Setting(j), s.trace)).None?
  {
    hide Verdict, Latest;
    var verdict := Verdict(Setting(j), Put, s.trace);
    if verdict.Err? {
      MutationFailureIsSafe(verdict.error, NewerCookie(j, Latest(Setting(j), s.trace)));
    }
  }

  // ---- What an execution says about the job and the driver ----

  /** A plan that replaces or deletes, or none for a resource that exists, runs only with the permit for that. */
  ghost predicate IsPermitted(j: Job) {
    match j.plan
    case Err(_) => false
    case Ok(NoEffects) => true
    case Ok(NoPlan) => j.existing ==> j.permit(IsUnknown).None?
    case Ok(Actions(actions, _)) =>
      && (Replace in actions ==> j.permit(Replaces).None?)
      && (Remove in actions && Replace !in actions ==> j.permit(Deletes).None?)
  }

  /** The driver is called exactly when the request was made, the plan is permitted, and its inputs are fresh. */
  lemma CalledIff(j: Job, r: Result<Provision, ExecFailure>, run: Option<State>)
    requires IsExecution(j, r, run)
    ensures run.Some? <==> j.request.None? && IsPermitted(j) && j.refresh.None?
  {
    hide IsRunOf, IsResult, LeftCookie;
  }

  lemma NoNewerIff(j: Job, s: State)
    ensures NewerCookie(j, Latest(Setting(j), s.trace)).None? <==> forall k :: !LeftCookie(j, s, k)
  {
    hide Latest;
    var latest := Latest(Setting(j), s.trace);
    if latest.Some? && latest != j.cookie && j.seal(latest.value).Some? {
      assert LeftCookie(j, s, latest.value);
    }
  }

  /** The driver last reported a transient failure, with no cookie or a good one. */
  ghost predicate IsTransient(j: Job, s: State) {
    && s.trace != [] && DriverMeaning.Reported(DriverMeaning.LastOf(s)).Some?
    && DriverMeaning.Reported(DriverMeaning.LastOf(s)).value.IsRetryable()
    && !DriverMeaning.BringsRefused(Setting(j), DriverMeaning.LastOf(s))
  }

  /** An attempt may be retried exactly when the driver last reported a transient failure, and left no new cookie. */
  lemma TransientIff(j: Job, r: Result<Provision, ExecFailure>, s: State)
    requires IsExecution(j, r, Some(s))
    ensures r.Err? && r.error.Retryable? <==> IsTransient(j, s) && forall k :: !LeftCookie(j, s, k)
  {
    hide IsRunOf, Verdict, Latest, IsResult, NewerCookie, LeftCookie, DriverMeaning.BringsRefused;
    RetriedIff(j, s, r);
    NoNewerIff(j, s);
    DriverMeaning.RetryableIff(Setting(j), Put, s, Verdict(Setting(j), Put, s.trace));
  }

  /** The outputs are valid and stored, and the cookie, if there is one, is sealed. */
  ghost predicate IsKeepable(j: Job, s: State, provision: Provision) {
    && j.invalid(provision.outputs).None? && j.unstored(provision.outputs).None?
    && match s.cookie
       case None => provision.cookie.None?
       case Some(k) => provision.cookie.Some? && provision.cookie == j.seal(k)
  }

  /** The driver last reported the resource ready, and its answer can be believed. */
  ghost predicate IsReady(j: Job, s: State, outputs: Driver.Outputs) {
    && s.trace != [] && DriverMeaning.IsReadyWith(DriverMeaning.LastOf(s), outputs)
    && !DriverMeaning.BringsRefused(Setting(j), DriverMeaning.LastOf(s))
  }

  /** A resource is provisioned exactly when the driver last reported it ready, and its outputs can be kept. */
  lemma ProvisionedIff(j: Job, r: Result<Provision, ExecFailure>, s: State, provision: Provision)
    requires IsExecution(j, r, Some(s))
    ensures r == Ok(provision) <==> IsReady(j, s, provision.outputs) && IsKeepable(j, s, provision)
  {
    hide IsRunOf, Verdict, Latest, NewerCookie, LeftCookie, DriverMeaning.BringsRefused, DriverMeaning.IsReadyWith,
      MutationFailure, WithNewer;
    DriverMeaning.PutIff(Setting(j), s, Verdict(Setting(j), Put, s.trace), provision.outputs);
  }

  /** Outputs that cannot be kept leave the outcome uncertain, unless they are invalid and nothing changed. */
  lemma UnkeptMeans(j: Job, r: Result<Provision, ExecFailure>, s: State, outputs: Driver.Outputs)
    requires IsExecution(j, r, Some(s)) && IsReady(j, s, outputs)
    ensures j.invalid(outputs).Some? ==> r.Err? && (r.error.Permanent? || r.error.Uncertain?)
    ensures j.invalid(outputs).Some? ==>
      (r.error.Permanent? <==> j.plan == Ok(NoEffects) && forall k :: !LeftCookie(j, s, k))
    ensures j.invalid(outputs).None? && j.unstored(outputs).Some? ==> r.Err? && r.error.Uncertain?
    ensures j.invalid(outputs).None? && s.cookie.Some? && j.seal(s.cookie.value).None? ==> r.Err? && r.error.Uncertain?
  {
    hide IsRunOf, Verdict, Latest, NewerCookie, LeftCookie, DriverMeaning.BringsRefused, DriverMeaning.IsReadyWith,
      MutationFailure, WithNewer;
    NoNewerIff(j, s);
    DriverMeaning.PutIff(Setting(j), s, Verdict(Setting(j), Put, s.trace), outputs);
  }

  /** Accepts a `put` without a cookie, then fails every poll transiently. */
  const FLAKY: Behaviour := Behaviour(
    1, false,
    _ => Reply(Ok(Driver.PutInProgress(0, None)), 0),
    _ => Reply(Ok(Driver.Deleted), 0),
    (_, _) => Reply(Err(Driver.Transient("", None)), 0),
    _ => Reply(Ok(Driver.Absent(None)), 0))

  const FLAKY_TRACE: seq<Event> := [
    Call(Put, None), PutReply(Ok(Driver.PutInProgress(0, None))),
    Call(Get, None), GetReply(Err(Driver.Transient("", None)))]

  lemma FlakyTrace(c: Setup)
    requires c == Setup(FLAKY, MAX_TIMEOUT, None)
    ensures Latest(c, FLAKY_TRACE) == None && IsCarried(c, FLAKY_TRACE) && IsAnswered(c, FLAKY_TRACE)
    ensures Calls(FLAKY_TRACE) == [Put] + Gets(1)
  {
    var t := FLAKY_TRACE;
    assert t == [] + [t[0]] + [t[1]] + [t[2]] + [t[3]];
    DriverRun.StartIsCarried(c);
    Extend(c, [], t[0]);
    Extend(c, [] + [t[0]], t[1]);
    Extend(c, [] + [t[0]] + [t[1]], t[2]);
    Extend(c, [] + [t[0]] + [t[1]] + [t[2]], t[3]);
    assert c.b.get(0, None).result == t[3].get;
    assert forall i :: 0 <= i < |t| ==> IsAnsweredAt(c, t, i);
  }

  /** With such a driver the attempt counts as one that changed nothing, although the `put` was accepted. */
  lemma AcceptedPutCanBeRetried(j: Job, r: Result<Provision, ExecFailure>)
    requires j.b == FLAKY && j.cookie.None? && j.timeout == MAX_TIMEOUT
    requires IsResult(j, State(None, SECOND, FLAKY_TRACE, 1), r)
    ensures IsRunOf(Setting(j), Put, State(None, SECOND, FLAKY_TRACE, 1), Err(Driver.Transient("", None)))
    ensures r.Err? && r.error.Retryable?
  {
    hide Calls, Latest, IsCarried, IsAnswered, Gets;
    FlakyTrace(Setting(j));
  }
}
