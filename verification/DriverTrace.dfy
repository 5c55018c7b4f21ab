/** What the calls of one driver run may look like, and what its result must be. */
module DriverTrace {
  import opened Basics
  import opened Driver

  // Durations are in nanoseconds.
  const SECOND: nat := 1_000_000_000
  const MIN_POLL: nat := SECOND
  const FINAL_POLL_MARGIN: nat := 30 * SECOND
  const CANCEL_GRACE: nat := 60 * SECOND
  const MAX_TIMEOUT: nat := 24 * 3600 * SECOND

  /** An answer, and how long it takes. */
  datatype Reply<T> = Reply(result: Result<T, DriverError>, takes: nat)

  /** Whatever a driver may do: its answers depend on the cookie and, for polls, on how many came before. */
  datatype Behaviour = Behaviour(
    version: nat,
    canCancel: bool,
    put: Option<Cookie> -> Reply<PutOutcome>,
    delete: Option<Cookie> -> Reply<DeleteOutcome>,
    get: (nat, Option<Cookie>) -> Reply<Observation>,
    cancel: Option<Cookie> -> Reply<Observation>)

  datatype Kind = Put | Delete | Get | Cancel

  datatype Event =
    | Call(kind: Kind, carried: Option<Cookie>)
    | PutReply(put: Result<PutOutcome, DriverError>)
    | DeleteReply(delete: Result<DeleteOutcome, DriverError>)
    | GetReply(get: Result<Observation, DriverError>)
    | CancelReply(cancel: Result<Observation, DriverError>)

  /** A run that starts at time 0 with cookie `initial`. */
  datatype Setup = Setup(b: Behaviour, timeout: nat, initial: Option<Cookie>)

  datatype State = State(cookie: Option<Cookie>, now: nat, trace: seq<Event>, polls: nat)

  function Min(a: nat, b: nat): nat {
    if a <= b then a else b
  }

  function Max(a: nat, b: nat): nat {
    if a <= b then b else a
  }

  /** The last moment at which a pause may start. */
  function Last(c: Setup): nat {
    c.timeout - Min(c.timeout / 20, FINAL_POLL_MARGIN)
  }

  /** The time before the last moment, in whole seconds, rounded up. */
  function MaxPolls(c: Setup): nat {
    (Last(c) + SECOND - 1) / SECOND
  }

  // ---- Cookies ----

  function ObservedCookie(o: Observation): Option<Cookie> {
    if o.Failed? then o.error.Split().1 else o.cookie
  }

  function ObservationCookie(r: Result<Observation, DriverError>): Option<Cookie> {
    if r.Ok? then ObservedCookie(r.value) else r.error.Split().1
  }

  /** The cookie a driver's answer brings. */
  function CookieIn(e: Event): Option<Cookie> {
    match e
    case Call(_, _) => None
    case PutReply(r) => if r.Ok? then r.value.cookie else r.error.Split().1
    case DeleteReply(r) =>
      if r.Err? then r.error.Split().1 else if r.value.Deleted? then None else r.value.cookie
    case GetReply(r) => ObservationCookie(r)
    case CancelReply(r) => ObservationCookie(r)
  }

  predicate Refuses(c: Setup, k: Option<Cookie>) {
    k.Some? && !Acceptable(c.b.version, k.value)
  }

  /** The last acceptable cookie of the run, or the one it started with. */
  ghost function Latest(c: Setup, trace: seq<Event>): Option<Cookie> {
    if trace == [] then c.initial
    else
      var k := CookieIn(trace[|trace| - 1]);
      if k.Some? && !Refuses(c, k) then k else Latest(c, trace[..|trace| - 1])
  }

  /** A run never ends with a cookie that cannot be checkpointed, unless it started with it. */
  lemma {:induction false} LatestIsAcceptable(c: Setup, trace: seq<Event>)
    ensures Latest(c, trace) == c.initial || (Latest(c, trace).Some? && !Refuses(c, Latest(c, trace)))
  {
    if trace != [] {
      LatestIsAcceptable(c, trace[..|trace| - 1]);
    }
  }

  /** Every call carries the last acceptable cookie before it. */
  ghost predicate IsCarried(c: Setup, trace: seq<Event>) {
    forall i :: 0 <= i < |trace| && trace[i].Call? ==> trace[i].carried == Latest(c, trace[..i])
  }

  // ---- The order of calls ----

  ghost function Calls(trace: seq<Event>): seq<Kind> {
    if trace == [] then []
    else
      var e := trace[|trace| - 1];
      Calls(trace[..|trace| - 1]) + if e.Call? then [e.kind] else []
  }

  ghost function Gets(n: nat): seq<Kind> {
    seq(n, _ => Get)
  }

  /** One mutation, or none when there is no time, then polls, then at most one cancellation. */
  ghost predicate IsShaped(canCancel: bool, m: Kind, calls: seq<Kind>, polls: nat) {
    || calls == [m] + Gets(polls)
    || (canCancel && calls == [m] + Gets(polls) + [Cancel])
    || (polls == 0 && calls == [])
    || (polls == 0 && canCancel && calls == [Cancel])
  }

  /** `reply` is what the driver answers to `call`, the last of `n` calls, of which the first is the mutation. */
  ghost predicate IsAnswer(c: Setup, n: nat, call: Event, reply: Event) {
    call.Call? &&
    match reply
    case Call(_, _) => false
    case PutReply(r) => call.kind == Put && r == c.b.put(call.carried).result
    case DeleteReply(r) => call.kind == Delete && r == c.b.delete(call.carried).result
    case GetReply(r) => call.kind == Get && n >= 2 && r == c.b.get(n - 2, call.carried).result
    case CancelReply(r) => call.kind == Cancel && r == c.b.cancel(call.carried).result
  }

  /** Every answer follows the call it answers. */
  ghost predicate IsAnswered(c: Setup, trace: seq<Event>) {
    forall i :: 0 <= i < |trace| ==> IsAnsweredAt(c, trace, i)
  }

  ghost predicate IsAnsweredAt(c: Setup, trace: seq<Event>, i: nat)
    requires i < |trace|
  {
    trace[i].Call? || (i > 0 && IsAnswer(c, |Calls(trace[..i])|, trace[i - 1], trace[i]))
  }

  // ---- Results ----

  const REFUSED := "the cookie cannot be kept"
  const UNCONFIRMED := "the driver did not confirm that the operation stopped"
  const GONE := "an operation was in progress, but there is no resource"

  /** The driver says that nothing runs any more. */
  predicate HasStopped(r: Result<Observation, DriverError>) {
    r.Ok? && (r.value.Absent? || r.value.Failed?)
  }

  function OfObservation(c: Setup, m: Kind, o: Observation): Result<Outputs, DriverError> {
    match o
    case Ready(outputs, _) => if m == Put then Ok(outputs) else Err(Timeout(c.timeout))
    case InProgress(_, _) => Err(Timeout(c.timeout))
    case Failed(e) => Err(e.Split().0)
    case Absent(_) => if m == Put then Err(Uncertain(GONE)) else Ok(map[])
    case Unknown(reason, _) => Err(Uncertain(reason))
  }

  /** What an answer means when it is the last, and its cookie is kept. */
  function OfLast(c: Setup, m: Kind, e: Event): Result<Outputs, DriverError> {
    match e
    case Call(k, _) => Err(if k == Cancel then Uncertain(UNCONFIRMED) else Timeout(c.timeout))
    case PutReply(Ok(PutReady(outputs, _))) => Ok(outputs)
    case PutReply(Ok(PutInProgress(_, _))) => Err(Timeout(c.timeout))
    case PutReply(Err(e)) => Err(e.Split().0)
    case DeleteReply(Ok(Deleted)) => Ok(map[])
    case DeleteReply(Ok(DeleteInProgress(_, _))) => Err(Timeout(c.timeout))
    case DeleteReply(Err(e)) => Err(e.Split().0)
    case GetReply(Ok(o)) => OfObservation(c, m, o)
    case GetReply(Err(e)) => Err(e.Split().0)
    case CancelReply(r) => Err(if HasStopped(r) then Timeout(c.timeout) else Uncertain(UNCONFIRMED))
  }

  /** What is gone keeps no cookie. */
  predicate IsGone(m: Kind, e: Event) {
    m == Delete && e.GetReply? && e.get.Ok? && e.get.value.Absent?
  }

  /** The result that a run's events call for. */
  ghost function Verdict(c: Setup, m: Kind, trace: seq<Event>): Result<Outputs, DriverError> {
    if trace == [] then Err(Timeout(c.timeout))
    else
      var e := trace[|trace| - 1];
      if Refuses(c, CookieIn(e)) && !IsGone(m, e) then Err(Uncertain(REFUSED)) else OfLast(c, m, e)
  }

  /** A result never carries a cookie: it is kept apart. */
  lemma VerdictIsBare(c: Setup, m: Kind, trace: seq<Event>)
    ensures Verdict(c, m, trace).Err? ==> !Verdict(c, m, trace).error.WithCookie?
  {
    if trace != [] {
      match trace[|trace| - 1]
      case PutReply(Err(e)) => SplitIsBare(e);
      case DeleteReply(Err(e)) => SplitIsBare(e);
      case GetReply(Ok(Failed(e))) => SplitIsBare(e);
      case GetReply(Err(e)) => SplitIsBare(e);
      case _ =>
    }
  }

  // ---- A whole run ----

  /** The last answer leaves the operation in progress. */
  predicate IsWaiting(m: Kind, e: Event) {
    || (e.PutReply? && m == Put && e.put.Ok? && e.put.value.PutInProgress?)
    || (e.DeleteReply? && m == Delete && e.delete.Ok? && e.delete.value.DeleteInProgress?)
    || (e.GetReply? && e.get.Ok? && (e.get.value.InProgress? || (m == Delete && e.get.value.Ready?)))
  }

  ghost predicate IsUnfinished(c: Setup, m: Kind, trace: seq<Event>) {
    trace == [] ||
    var e := trace[|trace| - 1];
    (e.Call? && e.kind != Cancel) || (IsWaiting(m, e) && !Refuses(c, CookieIn(e)))
  }

  ghost predicate IsCancelled(trace: seq<Event>) {
    trace != [] &&
    var e := trace[|trace| - 1];
    e.CancelReply? || (e.Call? && e.kind == Cancel)
  }

  /** A run gives up only when its time is over; a driver that can cancel is asked to, and given time to answer. */
  ghost predicate IsPatient(c: Setup, m: Kind, s: State) {
    && (IsUnfinished(c, m, s.trace) ==> s.now >= Last(c) && !c.b.canCancel)
    && (IsCancelled(s.trace) ==> s.now >= Last(c))
    && (IsCancelled(s.trace) && s.trace[|s.trace| - 1].Call? ==>
      c.b.cancel(s.trace[|s.trace| - 1].carried).takes > CANCEL_GRACE)
  }

  ghost predicate IsRunOf(c: Setup, m: Kind, s: State, r: Result<Outputs, DriverError>) {
    && IsShaped(c.b.canCancel, m, Calls(s.trace), s.polls)
    && s.polls <= MaxPolls(c)
    && s.now <= c.timeout + CANCEL_GRACE && IsPatient(c, m, s)
    && IsCarried(c, s.trace) && IsAnswered(c, s.trace)
    && r == Verdict(c, m, s.trace)
    && ((s.trace != [] && IsGone(m, s.trace[|s.trace| - 1])) || s.cookie == Latest(c, s.trace))
  }

  // ---- Extending a trace ----

  lemma Extend(c: Setup, trace: seq<Event>, e: Event)
    requires IsCarried(c, trace) && (e.Call? ==> e.carried == Latest(c, trace))
    ensures IsCarried(c, trace + [e])
    ensures Calls(trace + [e]) == Calls(trace) + if e.Call? then [e.kind] else []
    ensures Latest(c, trace + [e]) ==
      if CookieIn(e).Some? && !Refuses(c, CookieIn(e)) then CookieIn(e) else Latest(c, trace)
  {
    hide Refuses, CookieIn, IsAnswer;
    var all := trace + [e];
    assert all[..|all| - 1] == trace;
    forall i | 0 <= i < |all| && all[i].Call? ensures all[i].carried == Latest(c, all[..i]) {
      if i < |trace| {
        assert all[..i] == trace[..i];
      }
    }
  }

  lemma ExtendAnswered(c: Setup, trace: seq<Event>, e: Event)
    requires IsAnswered(c, trace) && (e.Call? || (trace != [] && IsAnswer(c, |Calls(trace)|, trace[|trace| - 1], e)))
    ensures IsAnswered(c, trace + [e])
  {
    hide IsAnswer;
    var all := trace + [e];
    forall i | 0 <= i < |all| ensures IsAnsweredAt(c, all, i) {
      if i < |trace| {
        assert IsAnsweredAt(c, trace, i);
        assert all[..i] == trace[..i];
      } else {
        assert all[..i] == trace;
      }
    }
  }

  // ---- Between calls ----

  /** Polls are a second apart, and none follows the last moment. */
  ghost predicate IsPaced(c: Setup, s: State) {
    && (s.polls * SECOND <= s.now || s.now >= Last(c))
    && (s.polls > 0 ==> (s.polls - 1) * SECOND < Last(c))
  }

  /** Waiting to poll again. */
  ghost predicate Inv(c: Setup, m: Kind, s: State) {
    && Calls(s.trace) == [m] + Gets(s.polls)
    && IsCarried(c, s.trace) && IsAnswered(c, s.trace) && s.cookie == Latest(c, s.trace)
    && s.now <= c.timeout && IsPaced(c, s)
    && s.trace != [] && IsWaiting(m, s.trace[|s.trace| - 1]) && !Refuses(c, CookieIn(s.trace[|s.trace| - 1]))
  }

  lemma PollsAreBounded(c: Setup, s: State)
    requires IsPaced(c, s)
    ensures s.polls <= MaxPolls(c)
  {
  }
}
