/** The provider-neutral processing unit: a desired and a processed sequence, and one fenced lease. */
module ProcessingUnits {
  import opened Prelude

  /** One row of `processing_units`. The four lease columns are separately nullable, as in the table. */
  datatype Row = Row(
    desired: nat, processed: nat, followUp: bool,
    leaseToken: Option<Id>, leaseOwner: Option<Id>, leaseTarget: Option<nat>, leaseExpires: Option<Time>,
    attempts: nat, retryAt: Option<Time>, failure: Option<string>)

  datatype Error = InvalidLeaseDuration | StaleLease | TargetMismatch | RetryNotInFuture | UnsafeMetadata

  /** What acquisition returns when the caller got the lease. */
  datatype Grant = Grant(token: Id, target: nat, attempt: nat)

  /** The table's check constraints on the frontier, the follow-up flag and the lease. */
  predicate Checks(r: Row) {
    && r.processed <= r.desired
    && r.followUp == (r.desired > r.processed)
    && (|| (r.leaseToken.None? && r.leaseOwner.None? && r.leaseTarget.None? && r.leaseExpires.None?)
        || (r.leaseToken.Some? && r.leaseOwner.Some? && r.leaseTarget.Some? && r.leaseExpires.Some?))
    && (r.leaseTarget.Some? ==> r.processed < r.leaseTarget.value <= r.desired)
  }

  /** The update trigger: neither frontier moves back, attempts advance one at a time. */
  predicate GuardAllows(before: Row, after: Row) {
    && before.desired <= after.desired
    && before.processed <= after.processed
    && before.attempts <= after.attempts <= before.attempts + 1
  }

  function Unleased(r: Row): Row {
    r.(leaseToken := None, leaseOwner := None, leaseTarget := None, leaseExpires := None)
  }

  /** Null comparisons do not hold, so a missing expiry counts as not held. */
  predicate LeaseLive(r: Row, now: Time) {
    r.leaseToken.Some? && r.leaseExpires.Some? && r.leaseExpires.value > now
  }

  /** The token is the current one and has not expired at `now`. */
  predicate Holds(r: Row, token: Id, now: Time) {
    r.leaseToken == Some(token) && LeaseLive(r, now)
  }

  predicate Due(r: Row, now: Time) {
    && r.followUp
    && (r.retryAt.Some? ==> r.retryAt.value <= now)
    && !LeaseLive(r, now)
  }

  function Acquire(r: Row, worker: Id, seconds: int, now: Time, token: Id): Result<(Row, Option<Grant>), Error> {
    if seconds < 1 || seconds > 3600 then Err(InvalidLeaseDuration)
    else if !Due(r, now) then Ok((r, None))
    else
      Ok((r.(leaseToken := Some(token), leaseOwner := Some(worker), leaseTarget := Some(r.desired),
             leaseExpires := Some(now + seconds), attempts := r.attempts + 1, retryAt := None, failure := None),
          Some(Grant(token, r.desired, r.attempts + 1))))
  }

  function Renew(r: Row, token: Id, seconds: int, now: Time): Result<Row, Error> {
    if seconds < 1 || seconds > 3600 then Err(InvalidLeaseDuration)
    else if !Holds(r, token, now) then Err(StaleLease)
    else Ok(r.(leaseExpires := Some(now + seconds)))
  }

  function Complete(r: Row, token: Id, processed: nat, now: Time): Result<Row, Error> {
    if !Holds(r, token, now) then Err(StaleLease)
    else if r.leaseTarget != Some(processed) then Err(TargetMismatch)
    else Ok(Unleased(r).(processed := processed, followUp := r.desired > processed, retryAt := None, failure := None))
  }

  function Retry(r: Row, token: Id, retryAt: Time, failure: Option<string>, sanitized: bool, now: Time): Result<Row, Error> {
    if retryAt <= now then Err(RetryNotInFuture)
    else if !sanitized then Err(UnsafeMetadata)
    else if !Holds(r, token, now) then Err(StaleLease)
    else Ok(Unleased(r).(retryAt := Some(retryAt), failure := Some(failure.GetOr("UNCLASSIFIED_FAILURE"))))
  }
}
