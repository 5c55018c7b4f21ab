/** Driver calls, cookies and failures: `crates/drivers/src/lib.rs`. */
module Driver {
  import opened Basics

  type Byte = x: int | 0 <= x < 256

  /** An opaque, versioned state blob, passed from one call to the next. */
  datatype Cookie = Cookie(version: nat, data: seq<Byte>)

  const MAX_COOKIE_BYTES: nat := 10 * 1024

  /** The values a provisioned resource produced, by name. */
  type Outputs = map<string, string>

  datatype DriverError =
    | Invalid(message: string)
    | Conflict(message: string)
    | Transient(message: string, retryAfter: Option<nat>)
    | Timeout(after: nat)
    | Uncertain(message: string)
    | Unsupported(message: string)
    | WithCookie(error: DriverError, cookie: Cookie)
  {
    /** Whether the same operation may be retried automatically. */
    predicate IsRetryable() {
      match this
      case Transient(_, _) => true
      case WithCookie(e, _) => e.IsRetryable()
      case _ => false
    }

    /** The error with `c` attached, when there is one. */
    function Attach(c: Option<Cookie>): DriverError {
      match (this, c)
      case (WithCookie(e, _), Some(k)) => WithCookie(e, k)
      case (e, Some(k)) => WithCookie(e, k)
      case (e, None) => e
    }

    /** The error without a cookie, and the cookie it carried. */
    function Split(): (DriverError, Option<Cookie>) {
      match this
      case WithCookie(e, c) => (e.Split().0, Some(c))
      case e => (e, None)
    }
  }

  datatype PutOutcome =
    | PutReady(outputs: Outputs, cookie: Option<Cookie>)
    | PutInProgress(pollAfter: nat, cookie: Option<Cookie>)

  datatype DeleteOutcome =
    | Deleted
    | DeleteInProgress(pollAfter: nat, cookie: Option<Cookie>)

  datatype Observation =
    | Absent(cookie: Option<Cookie>)
    | InProgress(pollAfter: nat, cookie: Option<Cookie>)
    | Ready(outputs: Outputs, cookie: Option<Cookie>)
    | Failed(error: DriverError)
    | Unknown(reason: string, cookie: Option<Cookie>)

  /** A cookie that can be checkpointed: small enough, and in the version the driver declares. */
  predicate Acceptable(version: nat, c: Cookie) {
    |c.data| <= MAX_COOKIE_BYTES && c.version == version
  }

  /** Splitting takes off every cookie, and keeps the outermost, which is the newest. */
  lemma {:induction false} SplitIsBare(e: DriverError)
    ensures !e.Split().0.WithCookie?
    ensures e.Split().1.Some? <==> e.WithCookie?
    ensures e.Split().0.IsRetryable() <==> e.IsRetryable()
    ensures e.Split().0.Split() == (e.Split().0, None)
  {
    if e.WithCookie? {
      SplitIsBare(e.error);
    }
  }

  /** Attaching a cookie and splitting give back the error and that cookie. */
  lemma {:induction false} SplitUndoesAttach(e: DriverError, c: Option<Cookie>)
    ensures e.Attach(c).Split() == (e.Split().0, if c.Some? then c else e.Split().1)
    ensures e.Attach(c).IsRetryable() <==> e.IsRetryable()
  {
    SplitIsBare(e);
  }
}
