/** Calling drivers within deadlines: `crates/drivers/src/run.rs`. */
module DriverRun {
  import opened Basics
  import opened Driver
  import opened DriverTrace

  // ---- Giving up ----

  /** The calls and answers of a cancellation. */
  function CancelEvents(c: Setup, k: Option<Cookie>): seq<Event> {
    if !c.b.canCancel then []
    else if c.b.cancel(k).takes <= CANCEL_GRACE then [Call(Cancel, k), CancelReply(c.b.cancel(k).result)]
    else [Call(Cancel, k)]
  }

  function CancelTakes(c: Setup, k: Option<Cookie>): nat {
    if c.b.canCancel then Min(c.b.cancel(k).takes, CANCEL_GRACE) else 0
  }

  /** The error for a run that timed out, with the cookie its cancellation brought. */
  function CancelError(c: Setup, k: Option<Cookie>): DriverError {
    if !c.b.canCancel then Timeout(c.timeout)
    else if c.b.cancel(k).takes > CANCEL_GRACE then Uncertain(UNCONFIRMED)
    else
      var r := c.b.cancel(k).result;
      (if HasStopped(r) then Timeout(c.timeout) else Uncertain(UNCONFIRMED)).Attach(ObservationCookie(r))
  }

  function AbsorbedCookie(c: Setup, k: Option<Cookie>, e: DriverError): Option<Cookie> {
    if e.WithCookie? && !Refuses(c, Some(e.cookie)) then Some(e.cookie) else k
  }

  function AbsorbedError(c: Setup, e: DriverError): DriverError {
    if !e.WithCookie? then e
    else if Refuses(c, Some(e.cookie)) then Uncertain(REFUSED)
    else e.Split().0
  }

  // ---- Before and after a call ----

  /** Nothing was called yet. */
  ghost predicate IsStart(c: Setup, s: State) {
    s == State(c.initial, 0, [], 0)
  }

  /** A pause ended in time for another poll. */
  ghost predicate IsPoised(c: Setup, m: Kind, s: State) {
    && Calls(s.trace) == [m] + Gets(s.polls)
    && IsCarried(c, s.trace) && IsAnswered(c, s.trace) && s.cookie == Latest(c, s.trace) && s.now <= c.timeout
    && ((s.polls + 1) * SECOND <= s.now || s.now >= Last(c)) && s.polls * SECOND < Last(c)
    && s.trace != [] && IsWaiting(m, s.trace[|s.trace| - 1]) && !Refuses(c, CookieIn(s.trace[|s.trace| - 1]))
  }

  ghost predicate CanCall(c: Setup, m: Kind, s: State, kind: Kind) {
    (kind == m && (m == Put || m == Delete) && IsStart(c, s)) || (kind == Get && IsPoised(c, m, s))
  }

  function Called(s: State, kind: Kind): State {
    s.(trace := s.trace + [Call(kind, s.cookie)], polls := if kind == Get then s.polls + 1 else s.polls)
  }

  /** What holds while a call runs. */
  ghost predicate IsCalling(c: Setup, m: Kind, s: State) {
    && Calls(s.trace) == [m] + Gets(s.polls)
    && IsCarried(c, s.trace) && IsAnswered(c, s.trace) && s.cookie == Latest(c, s.trace)
    && s.now <= c.timeout && IsPaced(c, s)
  }

  lemma MoreGets(n: nat)
    ensures Gets(n + 1) == Gets(n) + [Get]
    ensures Gets(0) == []
  {
  }

  lemma CallGoesOn(c: Setup, m: Kind, s: State, kind: Kind)
    requires CanCall(c, m, s, kind)
    ensures IsCalling(c, m, Called(s, kind)) && |Calls(Called(s, kind).trace)| == |Calls(s.trace)| + 1
  {
    hide Refuses, IsWaiting, Last, Gets, IsAnswer;
    if kind == Get {
      Extend(c, s.trace, Call(Get, s.cookie));
      ExtendAnswered(c, s.trace, Call(Get, s.cookie));
      MoreGets(s.polls);
      assert [m] + Gets(s.polls) + [Get] == [m] + (Gets(s.polls) + [Get]);
    } else {
      StartIsCarried(c);
      Extend(c, [], Call(kind, s.cookie));
      MoreGets(0);
      assert [m] + Gets(0) == [m] == Calls([]) + [kind];
    }
  }

  lemma PoisedCalls(c: Setup, m: Kind, s: State)
    requires IsPoised(c, m, s)
    ensures |Calls(s.trace)| == s.polls + 1
  {
    hide Calls;
  }

  lemma StartIsCarried(c: Setup)
    ensures IsCarried(c, []) && Latest(c, []) == c.initial && Calls([]) == []
  {
  }

  /** The state once an answer came, and its cookie was kept if it can be. */
  function Answered(c: Setup, s: State, e: Event, takes: nat): State {
    s.(now := s.now + takes, trace := s.trace + [e],
       cookie := if CookieIn(e).Some? && !Refuses(c, CookieIn(e)) then CookieIn(e) else s.cookie)
  }

  /** `e` answers the call that runs. */
  ghost predicate HasAnswer(c: Setup, s: State, e: Event) {
    !e.Call? && s.trace != [] && IsAnswer(c, |Calls(s.trace)|, s.trace[|s.trace| - 1], e)
  }

  lemma AnswerKeepsRecord(c: Setup, m: Kind, s: State, e: Event, takes: nat)
    requires IsCalling(c, m, s) && HasAnswer(c, s, e) && s.now + takes <= c.timeout
    ensures IsCalling(c, m, Answered(c, s, e, takes))
  {
    hide CookieIn, Refuses, Last, Gets, IsAnswer;
    Extend(c, s.trace, e);
    ExtendAnswered(c, s.trace, e);
    assert Calls(s.trace) + [] == Calls(s.trace);
  }

  /** A run may end with any answer that leaves nothing in progress. */
  lemma AnswerEnds(c: Setup, m: Kind, s: State, e: Event, takes: nat)
    requires IsCalling(c, m, s) && HasAnswer(c, s, e) && !e.CancelReply? && s.now + takes <= c.timeout
    ensures var t := Answered(c, s, e, takes);
      (IsWaiting(m, e) && !Refuses(c, CookieIn(e))) || IsRunOf(c, m, t, Verdict(c, m, t.trace))
  {
    hide CookieIn, Refuses, IsPaced, Verdict, Gets, IsCarried, IsAnswered, IsWaiting;
    AnswerKeepsRecord(c, m, s, e, takes);
    PollsAreBounded(c, Answered(c, s, e, takes));
  }

  /** The answer was not one that ends the run. */
  lemma AnswerWaits(c: Setup, m: Kind, s: State, e: Event, takes: nat)
    requires IsCalling(c, m, s) && HasAnswer(c, s, e) && IsWaiting(m, e) && !Refuses(c, CookieIn(e)) &&
      s.now + takes <= c.timeout
    ensures Inv(c, m, Answered(c, s, e, takes))
  {
    hide CookieIn, Refuses, IsPaced, Gets, Latest, IsCarried, IsAnswered, Calls, HasAnswer;
    AnswerKeepsRecord(c, m, s, e, takes);
  }

  /** What `s` calls for, should time run out now. */
  ghost predicate TimesOut(c: Setup, m: Kind, trace: seq<Event>) {
    Verdict(c, m, trace) == Err(Timeout(c.timeout)) && (trace != [] ==> !IsGone(m, trace[|trace| - 1]))
  }

  /** A run that can be given up. */
  ghost predicate CanStop(c: Setup, m: Kind, s: State) {
    && (Calls(s.trace) == [m] + Gets(s.polls) || (Calls(s.trace) == [] && s.polls == 0))
    && IsCarried(c, s.trace) && IsAnswered(c, s.trace) && s.cookie == Latest(c, s.trace)
    && Last(c) <= s.now <= c.timeout && s.polls <= MaxPolls(c) && TimesOut(c, m, s.trace)
    && !IsCancelled(s.trace)
  }

  function Stopped(c: Setup, s: State): State {
    State(AbsorbedCookie(c, s.cookie, CancelError(c, s.cookie)), s.now + CancelTakes(c, s.cookie),
          s.trace + CancelEvents(c, s.cookie), s.polls)
  }

  lemma CancelCarries(c: Setup, s: State)
    requires c.b.canCancel && IsCarried(c, s.trace) && IsAnswered(c, s.trace) && s.cookie == Latest(c, s.trace)
    ensures IsCarried(c, s.trace + CancelEvents(c, s.cookie)) && IsAnswered(c, s.trace + CancelEvents(c, s.cookie))
    ensures Calls(s.trace + CancelEvents(c, s.cookie)) == Calls(s.trace) + [Cancel]
    ensures Latest(c, s.trace + CancelEvents(c, s.cookie)) == AbsorbedCookie(c, s.cookie, CancelError(c, s.cookie))
  {
    hide ObservationCookie, HasStopped, Refuses, IsCarried, Calls, Latest;
    var k := s.cookie;
    var called := s.trace + [Call(Cancel, k)];
    Extend(c, s.trace, Call(Cancel, k));
    ExtendAnswered(c, s.trace, Call(Cancel, k));
    if c.b.cancel(k).takes <= CANCEL_GRACE {
      var e := CancelReply(c.b.cancel(k).result);
      Extend(c, called, e);
      ExtendAnswered(c, called, e);
      assert s.trace + CancelEvents(c, k) == called + [e];
      assert Calls(s.trace) + [Cancel] + [] == Calls(s.trace) + [Cancel];
    }
  }

  lemma CancelJudged(c: Setup, m: Kind, s: State)
    requires c.b.canCancel
    ensures Verdict(c, m, s.trace + CancelEvents(c, s.cookie)) == Err(AbsorbedError(c, CancelError(c, s.cookie)))
    ensures !IsGone(m, (s.trace + CancelEvents(c, s.cookie))[|s.trace + CancelEvents(c, s.cookie)| - 1])
  {
    hide ObservationCookie;
    var k := s.cookie;
    var all := s.trace + CancelEvents(c, k);
    assert all[|all| - 1] == CancelEvents(c, k)[|CancelEvents(c, k)| - 1];
    if c.b.cancel(k).takes <= CANCEL_GRACE {
      var r := c.b.cancel(k).result;
      var e := if HasStopped(r) then Timeout(c.timeout) else Uncertain(UNCONFIRMED);
      assert CancelError(c, k) == e.Attach(ObservationCookie(r)) && e.Split() == (e, None);
      SplitUndoesAttach(e, ObservationCookie(r));
    }
  }

  /** Giving up ends the run as its events call for. */
  lemma StopEnds(c: Setup, m: Kind, s: State)
    requires CanStop(c, m, s)
    ensures IsRunOf(c, m, Stopped(c, s), Err(AbsorbedError(c, CancelError(c, s.cookie))))
  {
    hide Verdict, IsCarried, IsAnswered, Calls, Latest, Gets, MaxPolls, IsGone, Refuses;
    if c.b.canCancel {
      hide CancelEvents, CancelError;
      CancelCarries(c, s);
      CancelJudged(c, m, s);
      CancelNonEmpty(c, s);
    } else {
      assert s.trace + [] == s.trace;
    }
  }

  lemma CancelNonEmpty(c: Setup, s: State)
    requires c.b.canCancel
    ensures s.trace + CancelEvents(c, s.cookie) != []
  {
  }

  lemma CallCanStop(c: Setup, m: Kind, s: State, now: nat)
    requires IsCalling(c, m, s) && now == c.timeout
    requires s.trace != [] && s.trace[|s.trace| - 1].Call? && s.trace[|s.trace| - 1].kind != Cancel
    ensures CanStop(c, m, s.(now := now))
  {
    hide IsCarried, IsAnswered, Calls, Latest, Gets, MaxPolls, IsPaced;
    PollsAreBounded(c, s);
  }

  lemma StartCanStop(c: Setup, m: Kind, s: State)
    requires IsStart(c, s) && c.timeout == 0
    ensures CanStop(c, m, s)
  {
  }

  lemma WaitingTimesOut(c: Setup, m: Kind, trace: seq<Event>)
    requires trace != [] && IsWaiting(m, trace[|trace| - 1]) && !Refuses(c, CookieIn(trace[|trace| - 1]))
    ensures TimesOut(c, m, trace) && !IsCancelled(trace)
  {
  }

  lemma WaitingCanStop(c: Setup, m: Kind, s: State)
    requires (Inv(c, m, s) || (IsPoised(c, m, s) && s.now <= c.timeout)) && s.now >= Last(c)
    ensures CanStop(c, m, s)
  {
    hide IsCarried, IsAnswered, Calls, Latest, Gets, TimesOut, IsWaiting, Refuses, CookieIn, IsCancelled;
    WaitingTimesOut(c, m, s.trace);
  }

  class Run {
    const c: Setup
    var cookie: Option<Cookie>
    var now: nat
    var polls: nat
    ghost var trace: seq<Event>

    ghost function Value(): State
      reads this
    {
      State(cookie, now, trace, polls)
    }

    /** `Run::new` */
    constructor (b: Behaviour, initial: Option<Cookie>, timeout: nat)
      ensures c == Setup(b, Min(timeout, 86_400_000_000_000), initial) && IsStart(c, Value())
    {
      c := Setup(b, Min(timeout, MAX_TIMEOUT), initial);
      cookie, now, polls, trace := initial, 0, 0, [];
    }

    /** Records a cookie the driver returned, or says that it cannot be kept. */
    method Keep(k: Option<Cookie>) returns (e: Option<DriverError>)
      modifies this`cookie
      ensures e == if Refuses(c, k) then Some(Uncertain(REFUSED)) else None
      ensures cookie == if k.Some? && !Refuses(c, k) then k else old(cookie)
    {
      if k.None? {
        return None;
      }
      if !Acceptable(c.b.version, k.value) {
        return Some(Uncertain(REFUSED));
      }
      cookie := k;
      return None;
    }

    /** Records the cookie a failed call returned, and passes on the failure without it. */
    method Absorb<T>(r: Result<T, DriverError>) returns (t: Result<T, DriverError>)
      modifies this`cookie
      ensures r.Ok? ==> t == r && cookie == old(cookie)
      ensures r.Err? ==> t == Err(AbsorbedError(c, r.error)) && cookie == AbsorbedCookie(c, old(cookie), r.error)
    {
      if r.Err? && r.error.WithCookie? {
        var (error, k) := r.error.Split();
        var e := Keep(k);
        return Err(if e.Some? then e.value else error);
      }
      return r;
    }

    /** The error for a timed-out operation, after asking the driver to cancel it. */
    method TimedOut() returns (e: DriverError)
      modifies this`now, this`trace
      ensures e == CancelError(c, cookie)
      ensures now == old(now) + CancelTakes(c, cookie) && trace == old(trace) + CancelEvents(c, cookie)
    {
      if !c.b.canCancel {
        return Timeout(c.timeout);
      }
      trace := trace + [Call(Cancel, cookie)];
      var reply := c.b.cancel(cookie);
      if reply.takes > CANCEL_GRACE {
        now := now + CANCEL_GRACE;
        return Uncertain(UNCONFIRMED);
      }
      now := now + reply.takes;
      trace := trace + [CancelReply(reply.result)];
      var stopped := HasStopped(reply.result);
      var k := ObservationCookie(reply.result);
      e := if stopped then Timeout(c.timeout) else Uncertain(UNCONFIRMED);
      e := e.Attach(k);
    }

    /** One call: its answer if that comes in time, and otherwise the end of the run. */
    method Bounded<T>(ghost m: Kind, kind: Kind, reply: Reply<T>, ghost e: Event) returns (r: Result<T, DriverError>)
      requires CanCall(c, m, Value(), kind) && !e.Call? && IsAnswer(c, |Calls(trace)| + 1, Call(kind, cookie), e)
      modifies this
      ensures cookie == old(cookie)
      ensures IsInTime(c, old(now), reply) ==>
        r == reply.result && IsCalling(c, m, Called(old(Value()), kind)) && HasAnswer(c, Called(old(Value()), kind), e)
      ensures IsInTime(c, old(now), reply) ==>
        Value() == Called(old(Value()), kind).(now := old(now) + reply.takes,
          trace := Called(old(Value()), kind).trace + [e])
      ensures !IsInTime(c, old(now), reply) ==> r == Err(CancelError(c, cookie))
      ensures !IsInTime(c, old(now), reply) ==> IsTimedOut(c, m, Value())
    {
      hide IsRunOf, CanStop, IsCalling, IsPoised, CancelEvents, CancelError, CancelTakes, Verdict, IsAnswer, Calls;
      ghost var s := Value();
      CanCallInTime(c, m, s, kind);
      if now >= c.timeout {
        EarlyCanStop(c, m, s, kind);
        StopEnds(c, m, s);
        var error := TimedOut();
        return Err(error);
      }
      CallGoesOn(c, m, s, kind);
      trace := trace + [Call(kind, cookie)];
      polls := if kind == Get then polls + 1 else polls;
      if reply.takes <= c.timeout - now {
        now := now + reply.takes;
        trace := trace + [e];
        return reply.result;
      }
      CallCanStop(c, m, Value(), c.timeout);
      now := c.timeout;
      StopEnds(c, m, Value());
      var error := TimedOut();
      return Err(error);
    }

    /** Waits before the next poll; once there is no time for one, the operation has timed out. */
    method Pause(ghost m: Kind, wait: nat) returns (e: Option<DriverError>)
      requires Inv(c, m, Value())
      modifies this
      ensures cookie == old(cookie) && polls == old(polls)
      ensures e.Some? <==> old(now) >= c.timeout - Min(c.timeout / 20, 30_000_000_000)
      ensures e.None? ==> IsPoised(c, m, Value())
      ensures e.None? ==>
        now == Min(old(now) + Max(wait, 1_000_000_000), c.timeout - Min(c.timeout / 20, 30_000_000_000))
      ensures e.Some? ==> e == Some(CancelError(c, cookie)) && IsTimedOut(c, m, Value())
    {
      hide IsRunOf, CanStop, CancelEvents, CancelError, CancelTakes, Verdict, IsCarried, IsAnswered, Calls, Latest,
        Gets, IsWaiting, CookieIn, Refuses;
      var last := c.timeout - Min(c.timeout / 20, FINAL_POLL_MARGIN);
      if now >= last {
        WaitingCanStop(c, m, Value());
        StopEnds(c, m, Value());
        var error := TimedOut();
        return Some(error);
      }
      now := Min(now + Max(wait, MIN_POLL), last);
      return None;
    }

    /** Pauses, then observes the resource. */
    method Poll(ghost m: Kind, wait: nat) returns (r: Result<Observation, DriverError>, ghost s: State,
        ghost takes: nat)
      requires Inv(c, m, Value())
      modifies this
      ensures r.Err? ==> IsRunOf(c, m, Value(), Err(r.error))
      ensures r.Ok? ==>
        IsCalling(c, m, s) && HasAnswer(c, s, GetReply(r)) && s.now + takes <= c.timeout && s.polls == old(polls) + 1
      ensures r.Ok? ==> Value() == s.(now := s.now + takes, trace := s.trace + [GetReply(r)])
    {
      hide IsRunOf, IsCalling, IsPoised, Inv, HasAnswer, CancelEvents, CancelError, CancelTakes, Verdict,
        AbsorbedError, AbsorbedCookie;
      takes := 0;
      var late := Pause(m, wait);
      s := Value();
      if late.Some? {
        r := Absorb(Err(late.value));
        return;
      }
      PoisedCalls(c, m, s);
      var reply := c.b.get(polls, cookie);
      ghost var e := GetReply(reply.result);
      var before := now;
      var observed := Bounded(m, Get, reply, e);
      if IsInTime(c, before, reply) {
        s, takes := Called(s, Get), reply.takes;
        if observed.Err? {
          AnswerEnds(c, m, s, e, takes);
          AbsorbedIsAnswered(c, m, s, e, takes, observed.error);
        }
      }
      r := Absorb(observed);
    }

    /** `converge` */
    method Converge() returns (r: Result<Outputs, DriverError>)
      requires IsStart(c, Value())
      modifies this
      ensures IsRunOf(c, Put, Value(), r)
    {
      hide IsRunOf, IsCalling, IsPoised, Inv, HasAnswer, IsStart, CancelEvents, CancelError, CancelTakes, Verdict,
        AbsorbedError, AbsorbedCookie;
      var reply := c.b.put(cookie);
      ghost var s, e := Called(Value(), Put), PutReply(reply.result);
      var before := now;
      var put := Bounded(Put, Put, reply, e);
      if IsInTime(c, before, reply) {
        if put.Err? {
          AnswerEnds(c, Put, s, e, reply.takes);
          AbsorbedIsAnswered(c, Put, s, e, reply.takes, put.error);
        }
      }
      put := Absorb(put);
      if put.Err? {
        return Err(put.error);
      }
      AnswerEnds(c, Put, s, e, reply.takes);
      var kept := Keep(put.value.cookie);
      PutMeans(c, s.trace, put.value);
      if kept.Some? {
        return Err(kept.value);
      }
      if put.value.PutReady? {
        return Ok(put.value.outputs);
      }
      AnswerWaits(c, Put, s, e, reply.takes);
      var wait := put.value.pollAfter;
      r := ConvergeFrom(wait);
    }

    /** The polling loop of `converge`. */
    method ConvergeFrom(first: nat) returns (r: Result<Outputs, DriverError>)
      requires Inv(c, Put, Value())
      modifies this
      ensures IsRunOf(c, Put, Value(), r)
    {
      hide IsRunOf, IsCalling, IsPoised, Inv, HasAnswer, Verdict, AbsorbedError, AbsorbedCookie, MaxPolls;
      var wait: nat := first;
      while true
        invariant Inv(c, Put, Value())
        decreases MaxPolls(c) - polls
      {
        InvIsBounded(c, Put, Value());
        var o, s, takes := Poll(Put, wait);
        if o.Err? {
          return Err(o.error);
        }
        ghost var e := GetReply(o);
        AnswerEnds(c, Put, s, e, takes);
        ObservationMeans(c, Put, s.trace, o.value);
        if o.value.Failed? {
          AbsorbedIsAnswered(c, Put, s, e, takes, o.value.error);
          r := Absorb(Err(o.value.error));
          return;
        }
        var kept := Keep(o.value.cookie);
        if kept.Some? {
          return Err(kept.value);
        }
        match o.value {
          case Ready(outputs, _) => return Ok(outputs);
          case Absent(_) => return Err(Uncertain(GONE));
          case Unknown(reason, _) => return Err(Uncertain(reason));
          case InProgress(pollAfter, _) =>
            AnswerWaits(c, Put, s, e, takes);
            InvIsBounded(c, Put, Value());
            wait := pollAfter;
        }
      }
    }

    /** `remove` */
    method Remove() returns (r: Result<Outputs, DriverError>)
      requires IsStart(c, Value())
      modifies this
      ensures IsRunOf(c, Delete, Value(), r)
    {
      hide IsRunOf, IsCalling, IsPoised, Inv, HasAnswer, IsStart, CancelEvents, CancelError, CancelTakes, Verdict,
        AbsorbedError, AbsorbedCookie;
      var reply := c.b.delete(cookie);
      ghost var s, e := Called(Value(), Delete), DeleteReply(reply.result);
      var before := now;
      var delete := Bounded(Delete, Delete, reply, e);
      if IsInTime(c, before, reply) {
        if delete.Err? {
          AnswerEnds(c, Delete, s, e, reply.takes);
          AbsorbedIsAnswered(c, Delete, s, e, reply.takes, delete.error);
        }
      }
      delete := Absorb(delete);
      if delete.Err? {
        return Err(delete.error);
      }
      AnswerEnds(c, Delete, s, e, reply.takes);
      DeleteMeans(c, s.trace, delete.value);
      if delete.value.Deleted? {
        return Ok(map[]);
      }
      var kept := Keep(delete.value.cookie);
      if kept.Some? {
        return Err(kept.value);
      }
      AnswerWaits(c, Delete, s, e, reply.takes);
      r := RemoveFrom(delete.value.pollAfter);
    }

    /** The polling loop of `remove`. */
    method RemoveFrom(first: nat) returns (r: Result<Outputs, DriverError>)
      requires Inv(c, Delete, Value())
      modifies this
      ensures IsRunOf(c, Delete, Value(), r)
    {
      hide IsRunOf, IsCalling, IsPoised, Inv, HasAnswer, Verdict, AbsorbedError, AbsorbedCookie, MaxPolls;
      var wait: nat := first;
      while true
        invariant Inv(c, Delete, Value())
        decreases MaxPolls(c) - polls
      {
        InvIsBounded(c, Delete, Value());
        var o, s, takes := Poll(Delete, wait);
        if o.Err? {
          return Err(o.error);
        }
        ghost var e := GetReply(o);
        AnswerEnds(c, Delete, s, e, takes);
        ObservationMeans(c, Delete, s.trace, o.value);
        if o.value.Absent? {
          GoneEnds(c, Delete, Value(), Answered(c, s, e, takes), Ok(map[]));
          return Ok(map[]);
        }
        if o.value.Failed? {
          AbsorbedIsAnswered(c, Delete, s, e, takes, o.value.error);
          r := Absorb(Err(o.value.error));
          return;
        }
        var kept := Keep(o.value.cookie);
        if kept.Some? {
          return Err(kept.value);
        }
        if o.value.Unknown? {
          return Err(Uncertain(o.value.reason));
        }
        AnswerWaits(c, Delete, s, e, takes);
        InvIsBounded(c, Delete, Value());
        wait := if o.value.Ready? then MIN_POLL else o.value.pollAfter;
      }
    }
  }

  lemma InvIsBounded(c: Setup, m: Kind, s: State)
    requires Inv(c, m, s)
    ensures s.polls <= MaxPolls(c)
  {
    hide IsCarried, IsAnswered, Calls, Latest, IsPaced, MaxPolls;
    PollsAreBounded(c, s);
  }

  /** Absorbing an error answer is keeping its cookie, and its verdict. */
  lemma AbsorbedIsAnswered(c: Setup, m: Kind, s: State, e: Event, takes: nat, error: DriverError)
    requires || e == PutReply(Err(error)) || e == DeleteReply(Err(error))
             || e == GetReply(Err(error)) || e == GetReply(Ok(Failed(error)))
    ensures Answered(c, s, e, takes).cookie == AbsorbedCookie(c, s.cookie, error)
    ensures Verdict(c, m, s.trace + [e]) == Err(AbsorbedError(c, error))
  {
    SplitIsBare(error);
  }

  lemma PutMeans(c: Setup, trace: seq<Event>, o: PutOutcome)
    ensures Refuses(c, o.cookie) ==> Verdict(c, Put, trace + [PutReply(Ok(o))]) == Err(Uncertain(REFUSED))
    ensures !Refuses(c, o.cookie) && o.PutReady? ==> Verdict(c, Put, trace + [PutReply(Ok(o))]) == Ok(o.outputs)
  {
  }

  lemma DeleteMeans(c: Setup, trace: seq<Event>, o: DeleteOutcome)
    ensures o.Deleted? ==> Verdict(c, Delete, trace + [DeleteReply(Ok(o))]) == Ok(map[])
    ensures !o.Deleted? && Refuses(c, o.cookie) ==>
      Verdict(c, Delete, trace + [DeleteReply(Ok(o))]) == Err(Uncertain(REFUSED))
  {
  }

  lemma ObservationMeans(c: Setup, m: Kind, trace: seq<Event>, o: Observation)
    ensures var v := Verdict(c, m, trace + [GetReply(Ok(o))]);
      if m == Delete && o.Absent? then v == Ok(map[])
      else if Refuses(c, ObservedCookie(o)) then v == Err(Uncertain(REFUSED))
      else v == OfObservation(c, m, o)
  {
  }

  /** What is gone keeps no cookie, so the run ends whatever the cookie is. */
  lemma GoneEnds(c: Setup, m: Kind, s: State, t: State, r: Result<Outputs, DriverError>)
    requires IsRunOf(c, m, t, r) && t.trace != [] && IsGone(m, t.trace[|t.trace| - 1])
    requires s == t.(cookie := s.cookie)
    ensures IsRunOf(c, m, s, r)
  {
  }

  predicate IsInTime<T>(c: Setup, now: nat, reply: Reply<T>) {
    now < c.timeout && reply.takes <= c.timeout - now
  }

  /** The run is over once the cancellation's cookie is absorbed. */
  ghost predicate IsTimedOut(c: Setup, m: Kind, s: State) {
    var e := CancelError(c, s.cookie);
    IsRunOf(c, m, s.(cookie := AbsorbedCookie(c, s.cookie, e)), Err(AbsorbedError(c, e)))
  }

  lemma CanCallInTime(c: Setup, m: Kind, s: State, kind: Kind)
    requires CanCall(c, m, s, kind)
    ensures s.now <= c.timeout && kind != Cancel
  {
  }

  lemma EarlyCanStop(c: Setup, m: Kind, s: State, kind: Kind)
    requires CanCall(c, m, s, kind) && s.now >= c.timeout
    ensures CanStop(c, m, s)
  {
    hide CanStop, IsPoised;
    if IsStart(c, s) && kind == m {
      StartCanStop(c, m, s);
    } else {
      CanCallInTime(c, m, s, kind);
      WaitingCanStop(c, m, s);
    }
  }

  /** How a `put` or `delete` settled, with the latest cookie. */
  datatype Settled = Settled(result: Result<Outputs, DriverError>, cookie: Option<Cookie>)

  /** Converges a resource, with any driver. */
  method Converge(b: Behaviour, initial: Option<Cookie>, timeout: nat) returns (r: Settled, ghost s: State)
    ensures IsRunOf(Setup(b, Min(timeout, MAX_TIMEOUT), initial), Put, s, r.result)
    ensures s.now <= timeout + 60_000_000_000 && s.now <= 86_460_000_000_000
    ensures r.cookie == s.cookie == Latest(Setup(b, Min(timeout, MAX_TIMEOUT), initial), s.trace)
    ensures r.result.Err? ==> !r.result.error.WithCookie?
    ensures r.cookie == initial || (r.cookie.Some? && Acceptable(b.version, r.cookie.value))
  {
    var run := new Run(b, initial, timeout);
    var result := run.Converge();
    s := run.Value();
    r := Settled(result, run.cookie);
    VerdictIsBare(run.c, Put, s.trace);
    LatestIsAcceptable(run.c, s.trace);
  }

  /** Removes a resource, with any driver. */
  method Remove(b: Behaviour, initial: Option<Cookie>, timeout: nat) returns (r: Settled, ghost s: State)
    ensures IsRunOf(Setup(b, Min(timeout, MAX_TIMEOUT), initial), Delete, s, r.result)
    ensures s.now <= timeout + 60_000_000_000 && s.now <= 86_460_000_000_000
    ensures r.cookie == s.cookie
    ensures r.result.Err? ==> r.cookie == Latest(Setup(b, Min(timeout, MAX_TIMEOUT), initial), s.trace)
    ensures r.result.Err? ==> !r.result.error.WithCookie?
    ensures r.result.Err? ==> r.cookie == initial || (r.cookie.Some? && Acceptable(b.version, r.cookie.value))
  {
    var run := new Run(b, initial, timeout);
    var result := run.Remove();
    s := run.Value();
    r := Settled(result, run.cookie);
    VerdictIsBare(run.c, Delete, s.trace);
    LatestIsAcceptable(run.c, s.trace);
  }

  // ---- What a run means ----

  /** A mutation comes first and only once, a cancellation last and only once, and polls between. */
  lemma CallsInOrder(c: Setup, m: Kind, s: State, r: Result<Outputs, DriverError>, i: nat)
    requires IsRunOf(c, m, s, r) && (m == Put || m == Delete) && i < |Calls(s.trace)|
    ensures Calls(s.trace)[i] == m ==> i == 0
    ensures Calls(s.trace)[i] == Cancel ==> i == |Calls(s.trace)| - 1 && c.b.canCancel
    ensures Calls(s.trace)[i] == m || Calls(s.trace)[i] == Get || Calls(s.trace)[i] == Cancel
  {
  }

  lemma {:induction false} CallIsListed(trace: seq<Event>, i: nat)
    requires i < |trace| && trace[i].Call?
    ensures trace[i].kind in Calls(trace)
  {
    if i < |trace| - 1 {
      CallIsListed(trace[..|trace| - 1], i);
    }
  }

  /** The last answer is to a call that such a run makes. */
  lemma LastAnswer(c: Setup, m: Kind, s: State, r: Result<Outputs, DriverError>)
    requires IsRunOf(c, m, s, r) && (m == Put || m == Delete) && s.trace != []
    ensures s.trace[|s.trace| - 1].PutReply? ==> m == Put
    ensures s.trace[|s.trace| - 1].DeleteReply? ==> m == Delete
  {
    hide Calls, Latest, IsCarried, Verdict;
    var last := |s.trace| - 1;
    assert IsAnsweredAt(c, s.trace, last);
    if !s.trace[last].Call? {
      var call := s.trace[|s.trace| - 2];
      assert IsAnswer(c, |Calls(s.trace[..last])|, call, s.trace[|s.trace| - 1]);
      CallIsListed(s.trace, |s.trace| - 2);
      var i :| 0 <= i < |Calls(s.trace)| && Calls(s.trace)[i] == call.kind;
      CallsInOrder(c, m, s, r, i);
    }
  }

  /** A run succeeds only with outputs the driver last reported as ready. */
  lemma SuccessWasReported(c: Setup, s: State, outputs: Outputs)
    requires IsRunOf(c, Put, s, Ok(outputs))
    ensures s.trace != []
    ensures var e := s.trace[|s.trace| - 1];
      || (e.PutReply? && e.put.Ok? && e.put.value.PutReady? && e.put.value.outputs == outputs)
      || (e.GetReply? && e.get.Ok? && e.get.value.Ready? && e.get.value.outputs == outputs)
    ensures s.cookie == Latest(c, s.trace)
  {
    hide IsShaped, IsCarried, IsAnswered, Calls;
    LastAnswer(c, Put, s, Ok(outputs));
  }

  /** A deletion succeeds only once the driver reported that the resource is gone. */
  lemma DeletionWasReported(c: Setup, s: State, outputs: Outputs)
    requires IsRunOf(c, Delete, s, Ok(outputs))
    ensures s.trace != []
    ensures var e := s.trace[|s.trace| - 1];
      (e.DeleteReply? && e.delete == Ok(Deleted)) || (e.GetReply? && e.get.Ok? && e.get.value.Absent?)
  {
    hide IsShaped, IsCarried, IsAnswered, Calls;
    LastAnswer(c, Delete, s, Ok(outputs));
  }

  /** A cookie that cannot be kept makes the outcome uncertain. */
  lemma RefusedIsUncertain(c: Setup, s: State, r: Result<Outputs, DriverError>)
    requires IsRunOf(c, Put, s, r) && s.trace != [] && Refuses(c, CookieIn(s.trace[|s.trace| - 1]))
    ensures r == Err(Uncertain(REFUSED))
  {
    hide IsShaped, IsCarried, Calls, Latest;
  }
}
