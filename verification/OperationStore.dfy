/** The operation functions as the database runs them: updates of the operation row and of its attempt rows. */
module OperationStore {
  import opened Prelude
  import opened Operations

  class Store {
    var op: Operation
    var attempts: map<nat, Attempt>
    var nextId: Id

    function Rows(): Ledger
      reads this
    {
      Ledger(op, attempts, nextId)
    }

    ghost predicate Valid()
      reads this
    {
      Inv(Rows())
    }

    constructor (maxAttempts: nat)
      requires 1 <= maxAttempts <= 100
      ensures Rows() == Create(maxAttempts) && Valid()
    {
      op := Operation(Pending, 0, maxAttempts, None, None, None, None, None, None, None);
      attempts, nextId := map[], 0;
    }

    /** Updates the current attempt if it is still open; both triggers allow every update made here. */
    method CloseAttempt(outcome: AttemptOutcome, failureCode: Option<string>, now: Time)
      modifies this`attempts
      ensures attempts == Closed(old(Rows()), outcome, failureCode, now)
      ensures forall n :: n in old(attempts) ==> n in attempts && AttemptKeeps(old(attempts)[n], attempts[n])
    {
      var n := op.attemptCount;
      if n in attempts && attempts[n].finishedAt.None? {
        var closed := attempts[n].(finishedAt := Some(now), outcome := Some(outcome), failureCode := failureCode);
        assert AttemptGuardAllows(attempts[n], closed);
        attempts := attempts[n := closed];
      }
    }

    method UpdateOperation(updated: Operation)
      requires GuardAllows(op, updated) && Checks(updated)
      modifies this`op
      ensures op == updated
    {
      op := updated;
    }

    method Acquire(worker: Id, seconds: int, now: Time) returns (r: Result<Option<Id>, Error>)
      requires Valid()
      modifies this
      ensures Valid()
      ensures match Operations.Acquire(old(Rows()), worker, seconds, now)
              case Ok(o) => r == Ok(o.1) && Rows() == o.0
              case Err(e) => r == Err(e) && Rows() == old(Rows())
    {
      StepKeepsInv(Rows(), DoAcquire(worker, seconds, now));
      var row := op;
      if seconds < 1 || seconds > 3600 { return Err(InvalidLeaseDuration); }
      if row.state.Succeeded? || row.state.Failed? || row.state.Cancelled? { return Ok(None); }
      if row.state.CancellationRequested? {
        if row.leaseExpires.value > now { return Ok(None); }
        CloseAttempt(AttemptCancelled, None, now);
        UpdateOperation(row.(state := Cancelled, leaseToken := None, leaseOwner := None, leaseExpires := None, terminalAt := Some(now)));
        return Ok(None);
      }
      if row.state.Running? && row.leaseExpires.value > now { return Ok(None); }
      if row.state.RetryWait? && row.nextAttemptAt.value > now { return Ok(None); }
      if row.state.Running? { CloseAttempt(LeaseExpired, None, now); }
      if row.attemptCount >= row.maxAttempts {
        UpdateOperation(row.(state := Failed, leaseToken := None, leaseOwner := None, leaseExpires := None,
                             nextAttemptAt := None, failureCode := Some("ATTEMPTS_EXHAUSTED"), terminalAt := Some(now)));
        return Ok(None);
      }
      var token, n := nextId, row.attemptCount + 1;
      nextId := nextId + 1;
      UpdateOperation(row.(state := Running, attemptCount := n, nextAttemptAt := None, leaseToken := Some(token),
                           leaseOwner := Some(worker), leaseExpires := Some(now + seconds),
                           startedAt := if row.startedAt.Some? then row.startedAt else Some(now), failureCode := None));
      assert n !in attempts;
      attempts := attempts[n := Attempt(worker, token, now, now + seconds, None, None, None)];
      r := Ok(Some(token));
    }

    method Renew(token: Id, seconds: int, now: Time) returns (r: Result<Time, Error>)
      requires Valid()
      modifies this
      ensures Valid()
      ensures match Operations.Renew(old(Rows()), token, seconds, now)
              case Ok(l) => r == Ok(now + seconds) && Rows() == l
              case Err(e) => r == Err(e) && Rows() == old(Rows())
    {
      StepKeepsInv(Rows(), DoRenew(token, seconds, now));
      if seconds < 1 || seconds > 3600 { return Err(InvalidLeaseDuration); }
      if !Leased(op.state) || op.leaseToken != Some(token) || op.leaseExpires.value <= now { return Err(StaleLease); }
      var until, n := now + seconds, op.attemptCount;
      assert AttemptInv(Rows(), n);
      var renewed := attempts[n].(leaseExpires := until);
      if !AttemptGuardAllows(attempts[n], renewed) { return Err(LeaseShrinks); }
      UpdateOperation(op.(leaseExpires := Some(until)));
      attempts := attempts[n := renewed];
      r := Ok(until);
    }

    method Finish(token: Id, resolution: Resolution, failureCode: Option<string>, sanitized: bool,
                  nextAttemptAt: Option<Time>, now: Time) returns (r: Result<State, Error>)
      requires Valid()
      modifies this
      ensures Valid()
      ensures match Operations.Finish(old(Rows()), token, resolution, failureCode, sanitized, nextAttemptAt, now)
              case Ok(l) => r == Ok(l.op.state) && Rows() == l
              case Err(e) => r == Err(e) && Rows() == old(Rows())
    {
      StepKeepsInv(Rows(), DoFinish(token, resolution, failureCode, sanitized, nextAttemptAt, now));
      if !sanitized { return Err(UnsafeMetadata); }
      if !Leased(op.state) || op.leaseToken != Some(token) || op.leaseExpires.value <= now { return Err(StaleLease); }
      if op.state.CancellationRequested? && !resolution.Cancel? { return Err(CancellationRequired); }
      if op.state.Running? && resolution.Cancel? { return Err(NoCancellationRequested); }
      var final, outcome;
      if resolution.Succeed? {
        final, outcome := Succeeded, AttemptSucceeded;
      } else if resolution.Cancel? {
        final, outcome := Cancelled, AttemptCancelled;
      } else if resolution.Retry? && op.attemptCount < op.maxAttempts {
        if nextAttemptAt.None? || nextAttemptAt.value < now { return Err(RetryNotInFuture); }
        final, outcome := RetryWait, RetryScheduled;
      } else {
        final, outcome := Failed, AttemptFailed;
      }
      var failing := final.RetryWait? || final.Failed?;
      CloseAttempt(outcome, if failing then failureCode else None, now);
      UpdateOperation(op.(
        state := final, leaseToken := None, leaseOwner := None, leaseExpires := None,
        nextAttemptAt := if final.RetryWait? then nextAttemptAt else None,
        failureCode := if failing then Some(failureCode.GetOr("UNCLASSIFIED_FAILURE")) else None,
        terminalAt := if Terminal(final) then Some(now) else None));
      r := Ok(final);
    }

    method RequestCancellation(now: Time) returns (r: Result<State, Error>)
      requires Valid()
      modifies this
      ensures Valid()
      ensures match Operations.RequestCancellation(old(Rows()), now)
              case Ok(l) => r == Ok(l.op.state) && Rows() == l
              case Err(e) => r == Err(e) && Rows() == old(Rows())
    {
      StepKeepsInv(Rows(), DoCancel(now));
      if Terminal(op.state) { return Err(TerminalOperation); }
      if op.state.CancellationRequested? { return Ok(CancellationRequested); }
      if op.state.Pending? || op.state.RetryWait? {
        UpdateOperation(op.(state := Cancelled, nextAttemptAt := None, terminalAt := Some(now)));
        return Ok(Cancelled);
      }
      UpdateOperation(op.(state := CancellationRequested));
      r := Ok(CancellationRequested);
    }
  }
}
