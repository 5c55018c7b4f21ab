/** What the result of a driver run says about the driver's last answer. */
module DriverMeaning {
  import opened Basics
  import opened Driver
  import opened DriverTrace
  import opened DriverRun

  /** The failure an answer reports, as an error or as what was observed. */
  function Reported(e: Event): Option<DriverError> {
    match e
    case PutReply(Err(error)) => Some(error)
    case DeleteReply(Err(error)) => Some(error)
    case GetReply(Err(error)) => Some(error)
    case GetReply(Ok(Failed(error))) => Some(error)
    case _ => None
  }

  /** The cookie of a failure is the outermost. */
  ghost predicate Holds(error: DriverError, k: Cookie) {
    error.WithCookie? && error.cookie == k
  }

  ghost predicate Shows(o: Observation, k: Cookie) {
    || (o.Absent? && o.cookie == Some(k))
    || (o.InProgress? && o.cookie == Some(k))
    || (o.Ready? && o.cookie == Some(k))
    || (o.Unknown? && o.cookie == Some(k))
    || (o.Failed? && Holds(o.error, k))
  }

  /** An answer brings a cookie. */
  ghost predicate Brings(e: Event, k: Cookie) {
    || (e.PutReply? && e.put.Ok? && e.put.value.cookie == Some(k))
    || (e.PutReply? && e.put.Err? && Holds(e.put.error, k))
    || (e.DeleteReply? && e.delete.Ok? && e.delete.value.DeleteInProgress? && e.delete.value.cookie == Some(k))
    || (e.DeleteReply? && e.delete.Err? && Holds(e.delete.error, k))
    || (e.GetReply? && e.get.Ok? && Shows(e.get.value, k))
    || (e.GetReply? && e.get.Err? && Holds(e.get.error, k))
    || (e.CancelReply? && e.cancel.Ok? && Shows(e.cancel.value, k))
    || (e.CancelReply? && e.cancel.Err? && Holds(e.cancel.error, k))
  }

  lemma BringsIff(e: Event, k: Cookie)
    ensures CookieIn(e) == Some(k) <==> Brings(e, k)
  {
  }

  /** The answer brings a cookie that is too large, or in another version than the driver declares. */
  ghost predicate BringsRefused(c: Setup, e: Event) {
    exists k :: Brings(e, k) && !(|k.data| <= 10_240 && k.version == c.b.version)
  }

  lemma RefusedIff(c: Setup, e: Event)
    ensures Refuses(c, CookieIn(e)) <==> BringsRefused(c, e)
  {
    hide CookieIn, Brings;
    if Refuses(c, CookieIn(e)) {
      BringsIff(e, CookieIn(e).value);
    }
    if k :| Brings(e, k) && !(|k.data| <= 10_240 && k.version == c.b.version) {
      BringsIff(e, k);
    }
  }

  /** The innermost failure, without any cookie. */
  function Bare(error: DriverError): DriverError {
    if error.WithCookie? then Bare(error.error) else error
  }

  lemma {:induction false} SplitGivesBare(error: DriverError)
    ensures error.Split().0 == Bare(error) && !Bare(error).WithCookie?
    ensures error.IsRetryable() <==> Bare(error).Transient?
  {
    if error.WithCookie? {
      SplitGivesBare(error.error);
    }
  }

  ghost function LastOf(s: State): Event
    requires s.trace != []
  {
    s.trace[|s.trace| - 1]
  }

  ghost predicate IsMutation(m: Kind) {
    m == Put || m == Delete
  }

  /** The run ended with the failure that the driver reported last. */
  lemma ReportedIsPassedOn(c: Setup, m: Kind, s: State, r: Result<Outputs, DriverError>)
    requires IsRunOf(c, m, s, r) && s.trace != [] && Reported(LastOf(s)).Some?
    ensures BringsRefused(c, LastOf(s)) ==> r.Err? && r.error.Uncertain?
    ensures !BringsRefused(c, LastOf(s)) ==> r == Err(Bare(Reported(LastOf(s)).value))
  {
    hide BringsRefused, CookieIn, Refuses, IsShaped, IsCarried, IsAnswered, IsPatient, Latest;
    RefusedIff(c, LastOf(s));
    SplitGivesBare(Reported(LastOf(s)).value);
  }

  /** Any other result is a success, a timeout or an uncertainty. */
  lemma OthersAreKnown(c: Setup, m: Kind, s: State, r: Result<Outputs, DriverError>)
    requires IsRunOf(c, m, s, r) && (s.trace == [] || Reported(LastOf(s)).None?)
    ensures r.Ok? || r == Err(Timeout(c.timeout)) || r.error.Uncertain?
  {
    hide CookieIn, Refuses, IsShaped, IsCarried, IsAnswered, IsPatient, Latest;
  }

  /** A run may be retried exactly when the driver last reported a transient failure, with no cookie or a good one. */
  lemma RetryableIff(c: Setup, m: Kind, s: State, r: Result<Outputs, DriverError>)
    requires IsRunOf(c, m, s, r)
    ensures (r.Err? && r.error.IsRetryable()) <==>
      && s.trace != [] && Reported(LastOf(s)).Some? && Reported(LastOf(s)).value.IsRetryable()
      && !BringsRefused(c, LastOf(s))
  {
    hide BringsRefused, IsRunOf;
    if s.trace == [] || Reported(LastOf(s)).None? {
      OthersAreKnown(c, m, s, r);
    } else {
      ReportedIsPassedOn(c, m, s, r);
      SplitGivesBare(Reported(LastOf(s)).value);
    }
  }

  /** A resource whose state the driver does not know is not taken for a failure that can be retried. */
  lemma UnknownIsUncertain(c: Setup, m: Kind, s: State, r: Result<Outputs, DriverError>)
    requires IsRunOf(c, m, s, r) && s.trace != []
    requires LastOf(s).GetReply? && LastOf(s).get.Ok? && LastOf(s).get.value.Unknown?
    ensures r.Err? && r.error.Uncertain?
    ensures !BringsRefused(c, LastOf(s)) ==> r == Err(Uncertain(LastOf(s).get.value.reason))
  {
    hide BringsRefused, CookieIn, Refuses, IsShaped, IsCarried, IsAnswered, IsPatient, Latest;
    RefusedIff(c, LastOf(s));
  }

  /** A resource that is missing while it is put is uncertain, and one that is missing while it is removed is gone. */
  lemma AbsentMeans(c: Setup, m: Kind, s: State, r: Result<Outputs, DriverError>)
    requires IsRunOf(c, m, s, r) && IsMutation(m) && s.trace != []
    requires LastOf(s).GetReply? && LastOf(s).get.Ok? && LastOf(s).get.value.Absent?
    ensures m == Put ==> r.Err? && r.error.Uncertain?
    ensures m == Delete ==> r == Ok(map[])
  {
    hide CookieIn, Refuses, IsShaped, IsCarried, IsAnswered, IsPatient, Latest;
  }

  /** The driver confirmed that the operation does not run any more. */
  ghost predicate Confirms(e: Event) {
    e.CancelReply? && e.cancel.Ok? && (e.cancel.value.Absent? || e.cancel.value.Failed?)
  }

  /** A cancelled run is a plain timeout exactly when the driver confirmed that it stopped, and uncertain otherwise. */
  lemma CancelledMeans(c: Setup, m: Kind, s: State, r: Result<Outputs, DriverError>)
    requires IsRunOf(c, m, s, r) && IsCancelled(s.trace)
    ensures r.Err? && (r.error.Uncertain? || r.error == Timeout(c.timeout))
    ensures r.error.Timeout? <==> Confirms(LastOf(s)) && !BringsRefused(c, LastOf(s))
    ensures LastOf(s).Call? ==> c.b.cancel(LastOf(s).carried).takes > 60_000_000_000
  {
    hide BringsRefused, CookieIn, Refuses, IsShaped, IsCarried, IsAnswered, Latest;
    RefusedIff(c, LastOf(s));
  }

  /** The driver said that the resource is ready, with these outputs. */
  ghost predicate IsReadyWith(e: Event, outputs: Outputs) {
    || (e.PutReply? && e.put.Ok? && e.put.value.PutReady? && e.put.value.outputs == outputs)
    || (e.GetReply? && e.get.Ok? && e.get.value.Ready? && e.get.value.outputs == outputs)
  }

  /** A resource is put exactly when the driver last reported it ready, with no cookie or a good one. */
  lemma PutIff(c: Setup, s: State, r: Result<Outputs, DriverError>, outputs: Outputs)
    requires IsRunOf(c, Put, s, r)
    ensures r == Ok(outputs) <==>
      s.trace != [] && IsReadyWith(LastOf(s), outputs) && !BringsRefused(c, LastOf(s))
  {
    hide BringsRefused, CookieIn, Refuses, IsShaped, IsCarried, IsAnswered, IsPatient, Latest, IsRunOf;
    if s.trace != [] {
      RefusedIff(c, LastOf(s));
      LastAnswer(c, Put, s, r);
      VerdictIs(c, Put, s, r);
    } else {
      VerdictIs(c, Put, s, r);
    }
  }

  lemma VerdictIs(c: Setup, m: Kind, s: State, r: Result<Outputs, DriverError>)
    requires IsRunOf(c, m, s, r)
    ensures r == Verdict(c, m, s.trace)
  {
    hide IsShaped, IsCarried, IsAnswered, IsPatient, Latest, Verdict;
  }

  ghost predicate IsGoneBy(e: Event) {
    e == DeleteReply(Ok(Deleted)) || (e.GetReply? && e.get.Ok? && e.get.value.Absent?)
  }

  /** A resource is gone exactly when the driver last reported it deleted, or absent. */
  lemma DeletedIff(c: Setup, s: State, r: Result<Outputs, DriverError>)
    requires IsRunOf(c, Delete, s, r)
    ensures r.Ok? <==> s.trace != [] && IsGoneBy(LastOf(s))
  {
    hide CookieIn, Refuses, IsShaped, IsCarried, IsAnswered, IsPatient, Latest, IsRunOf;
    VerdictIs(c, Delete, s, r);
    if s.trace != [] {
      LastAnswer(c, Delete, s, r);
      DeletedBringsNone(c);
    }
  }

  lemma DeletedBringsNone(c: Setup)
    ensures !Refuses(c, CookieIn(DeleteReply(Ok(Deleted))))
  {
  }

  /**
    * A run without a result from the driver had its time: it lasts until there is no time for another poll, and
    * a driver that can cancel was asked to.
    */
  lemma TimeoutIsLate(c: Setup, m: Kind, s: State, r: Result<Outputs, DriverError>)
    requires IsRunOf(c, m, s, r) && r == Err(Timeout(c.timeout)) && IsMutation(m)
    requires s.trace != [] ==> Reported(LastOf(s)).None?
    ensures c.timeout <= s.now + Min(c.timeout / 20, 30_000_000_000)
    ensures c.b.canCancel ==> s.trace != [] && LastOf(s).CancelReply?
  {
    hide CookieIn, Refuses, IsShaped, IsCarried, IsAnswered, Latest, IsRunOf;
    VerdictIs(c, m, s, r);
    PatientIs(c, m, s, r);
    if s.trace != [] {
      LastAnswer(c, m, s, r);
    }
  }

  lemma PatientIs(c: Setup, m: Kind, s: State, r: Result<Outputs, DriverError>)
    requires IsRunOf(c, m, s, r)
    ensures IsPatient(c, m, s)
  {
    hide IsShaped, IsCarried, IsAnswered, IsPatient, Latest, Verdict;
  }

  /** Whatever the driver does, a run is over a minute after its timeout, after at most one poll each second. */
  lemma RunIsShort(c: Setup, m: Kind, s: State, r: Result<Outputs, DriverError>)
    requires IsRunOf(c, m, s, r)
    ensures s.now <= c.timeout + 60_000_000_000
    ensures s.polls * 1_000_000_000 < c.timeout + 1_000_000_000
  {
    hide IsShaped, IsCarried, IsAnswered, IsPatient, Latest, Verdict;
  }

  // ---- The cookie ----

  ghost predicate IsKept(c: Setup, e: Event, k: Cookie) {
    Brings(e, k) && |k.data| <= 10_240 && k.version == c.b.version
  }

  lemma KeptIff(c: Setup, e: Event)
    ensures CookieIn(e).Some? && !Refuses(c, CookieIn(e)) <==> exists k :: IsKept(c, e, k)
  {
    hide Brings, CookieIn;
    if CookieIn(e).Some? && !Refuses(c, CookieIn(e)) {
      BringsIff(e, CookieIn(e).value);
      assert IsKept(c, e, CookieIn(e).value);
    }
    if k :| IsKept(c, e, k) {
      BringsIff(e, k);
    }
  }

  /** No answer in the trace brings a cookie that is kept. */
  ghost predicate NoneIsKept(c: Setup, trace: seq<Event>) {
    forall i, k :: 0 <= i < |trace| ==> !IsKept(c, trace[i], k)
  }

  /** A run ends with the last good cookie that the driver returned, or with the one it began with. */
  lemma {:induction false} LatestIs(c: Setup, trace: seq<Event>, i: nat, k: Cookie)
    requires i < |trace| && IsKept(c, trace[i], k) && NoneIsKept(c, trace[i + 1..])
    ensures Latest(c, trace) == Some(k)
  {
    hide Brings, CookieIn;
    var rest, e := trace[..|trace| - 1], trace[|trace| - 1];
    BringsIff(e, k);
    if i < |rest| {
      assert trace[i + 1..][|trace| - i - 2] == e;
      KeptIff(c, e);
      assert rest[i + 1..] == trace[i + 1..][..|trace| - i - 2];
      LatestIs(c, rest, i, k);
    }
  }

  lemma {:induction false} LatestIsInitial(c: Setup, trace: seq<Event>)
    requires NoneIsKept(c, trace)
    ensures Latest(c, trace) == c.initial
  {
    hide Brings, CookieIn;
    if trace != [] {
      var e := trace[|trace| - 1];
      KeptIff(c, e);
      LatestIsInitial(c, trace[..|trace| - 1]);
    }
  }
}
