/** What leasing, renewing, finishing and cancelling an operation grant and write, read off the columns. */
module OperationLaws {
  import opened Prelude
  import opened Operations

  /** The operation may be leased at `now`: it has not begun, its retry is due, or its last lease has run out. */
  predicate Free(o: Operation, now: Time) {
    || o.state == Pending
    || (o.state == RetryWait && o.nextAttemptAt.Some? && o.nextAttemptAt.value <= now)
    || (o.state == Running && o.leaseExpires.Some? && o.leaseExpires.value <= now)
  }

  /** A cancellation was asked for and the lease has run out, so that nobody is left to confirm it. */
  predicate Abandoned(o: Operation, now: Time) {
    o.state == CancellationRequested && o.leaseExpires.Some? && o.leaseExpires.value <= now
  }

  /** The current attempt is closed as `outcome`, and every other attempt as it was. */
  ghost predicate ClosesCurrent(l: Ledger, m: Ledger, outcome: AttemptOutcome, failureCode: Option<string>, now: Time) {
    var n := l.op.attemptCount;
    && n in l.attempts && n in m.attempts
    && m.attempts[n] == l.attempts[n].(finishedAt := Some(now), outcome := Some(outcome), failureCode := failureCode)
    && (forall i :: i in l.attempts && i != n ==> i in m.attempts && m.attempts[i] == l.attempts[i])
  }

  predicate Unleased(o: Operation) {
    o.leaseToken == None && o.leaseOwner == None && o.leaseExpires == None
  }

  /**
   * A lease is granted exactly when the operation is free and has an attempt left. A live lease, a waiting retry and a
   * settled operation refuse every caller; the last expiry fails the operation, an abandoned cancellation completes it.
   */
  lemma GrantsExactlyWhen(l: Ledger, worker: Id, seconds: int, now: Time)
    requires Inv(l) && 1 <= seconds <= 3600
    ensures Acquire(l, worker, seconds, now).Ok?
    ensures
      var (m, token) := Acquire(l, worker, seconds, now).value;
      var left := l.op.attemptCount < l.op.maxAttempts;
      && (token.Some? <==> Free(l.op, now) && left)
      && (token.Some? ==> Granted(l, m, worker, token.value, now, seconds))
      && (Free(l.op, now) && !left ==>
            && m.op.state == Failed && m.op.failureCode == Some("ATTEMPTS_EXHAUSTED") && m.op.terminalAt == Some(now) && Unleased(m.op)
            && m.op.attemptCount == l.op.attemptCount && ClosesCurrent(l, m, LeaseExpired, None, now))
      && (Abandoned(l.op, now) ==>
            && m.op.state == Cancelled && m.op.terminalAt == Some(now) && Unleased(m.op) && ClosesCurrent(l, m, AttemptCancelled, None, now))
      && (!Free(l.op, now) && !Abandoned(l.op, now) ==> m == l)
  {
    assert l.op.attemptCount > 0 ==> AttemptInv(l, l.op.attemptCount);
  }

  ghost predicate Granted(l: Ledger, m: Ledger, worker: Id, token: Id, now: Time, seconds: int) {
    var n := l.op.attemptCount;
    && m.op.state == Running && m.op.attemptCount == n + 1 && m.op.nextAttemptAt == None && m.op.failureCode == None
    && m.op.leaseToken == Some(token) && m.op.leaseOwner == Some(worker) && m.op.leaseExpires == Some(now + seconds)
    && m.op.startedAt == (if l.op.startedAt == None then Some(now) else l.op.startedAt) && m.op.terminalAt == None
    && l.nextId <= token < m.nextId && n + 1 in m.attempts
    && m.attempts[n + 1] == Attempt(worker, token, now, now + seconds, None, None, None)
    && (l.op.state == Running ==> ClosesCurrent(l, m, LeaseExpired, None, now))
    && (l.op.state != Running ==> forall i :: i in l.attempts ==> i in m.attempts && m.attempts[i] == l.attempts[i])
  }

  /** The operation is leased under `token` until `expires`. */
  predicate LeaseIs(l: Ledger, token: Id, owner: Id, expires: Time, attempt: nat) {
    && Leased(l.op.state) && l.op.leaseToken == Some(token) && l.op.leaseOwner == Some(owner) && l.op.leaseExpires == Some(expires)
    && l.op.attemptCount == attempt
  }

  /** No step presents the token, and every acquisition is tried before the lease runs out. */
  predicate Undisputed(steps: seq<Step>, token: Id, expires: Time) {
    forall i :: 0 <= i < |steps| ==> !Presents(steps[i], token) && (steps[i].DoAcquire? ==> steps[i].now < expires)
  }

  /** Mutual exclusion: before a lease runs out nothing that others do takes it or starts another attempt. */
  lemma {:induction false} LiveLeaseSurvives(l: Ledger, steps: seq<Step>, token: Id, owner: Id, expires: Time, attempt: nat)
    requires Inv(l) && LeaseIs(l, token, owner, expires, attempt) && Undisputed(steps, token, expires)
    ensures LeaseIs(Run(l, steps), token, owner, expires, attempt)
    decreases |steps|
  {
    if steps == [] { return; }
    StepKeepsInv(l, steps[0]);
    assert LeaseIs(Apply(l, steps[0]), token, owner, expires, attempt);
    hide Inv, Apply, LeaseIs;
    assert forall i :: 0 <= i < |steps[1..]| ==> steps[1..][i] == steps[i + 1];
    LiveLeaseSurvives(Apply(l, steps[0]), steps[1..], token, owner, expires, attempt);
  }

  /** A retry is not begun early: before its time nothing but a cancellation changes a waiting operation. */
  lemma {:induction false} WaitingRetryStays(l: Ledger, steps: seq<Step>)
    requires Inv(l) && l.op.state == RetryWait
    requires forall i :: 0 <= i < |steps| ==> !steps[i].DoCancel? && (steps[i].DoAcquire? ==> steps[i].now < l.op.nextAttemptAt.value)
    ensures Run(l, steps) == l
    decreases |steps|
  {
    if steps == [] { return; }
    assert Apply(l, steps[0]) == l;
    hide Inv, Apply;
    assert forall i :: 0 <= i < |steps[1..]| ==> steps[1..][i] == steps[i + 1];
    WaitingRetryStays(l, steps[1..]);
  }

  predicate HeldAt(o: Operation, token: Id, now: Time) {
    (o.state == Running || o.state == CancellationRequested) && o.leaseToken == Some(token) && o.leaseExpires.Some? && now < o.leaseExpires.value
  }

  /** The state and outcome that a resolution leads to; a retry without attempts left is a failure. */
  function ResultOf(o: Operation, resolution: Resolution): (State, AttemptOutcome) {
    match resolution
    case Succeed => (Succeeded, AttemptSucceeded)
    case Cancel => (Cancelled, AttemptCancelled)
    case Fail => (Failed, AttemptFailed)
    case Retry => if o.attemptCount == o.maxAttempts then (Failed, AttemptFailed) else (RetryWait, RetryScheduled)
  }

  /**
   * Finishing succeeds exactly for the holder of a live lease, who cancels if and only if that was asked for, and who
   * gives a time that has not passed when another attempt is to come.
   */
  lemma FinishMeans(l: Ledger, token: Id, resolution: Resolution, failureCode: Option<string>, sanitized: bool,
                    nextAttemptAt: Option<Time>, now: Time)
    requires Inv(l)
    ensures
      var r := Finish(l, token, resolution, failureCode, sanitized, nextAttemptAt, now);
      var (state, outcome) := ResultOf(l.op, resolution);
      var failing := resolution == Fail || resolution == Retry;
      && (r.Ok? <==> sanitized && HeldAt(l.op, token, now) && (l.op.state == CancellationRequested <==> resolution == Cancel)
                     && (state == RetryWait ==> nextAttemptAt.Some? && nextAttemptAt.value >= now))
      && (r.Ok? ==>
            && r.value.op.state == state && Unleased(r.value.op) && r.value.op.attemptCount == l.op.attemptCount
            && r.value.op.nextAttemptAt == (if state == RetryWait then nextAttemptAt else None)
            && r.value.op.terminalAt == (if state == RetryWait then None else Some(now))
            && r.value.op.failureCode == (if !failing then None else if failureCode == None then Some("UNCLASSIFIED_FAILURE") else failureCode)
            && ClosesCurrent(l, r.value, outcome, if failing then failureCode else None, now))
  {
    assert l.op.attemptCount > 0 ==> AttemptInv(l, l.op.attemptCount);
  }

  /** Renewing succeeds exactly for the holder of a live lease who does not shorten it, and moves both expiries. */
  lemma RenewMeans(l: Ledger, token: Id, seconds: int, now: Time)
    requires Inv(l)
    ensures
      var r := Renew(l, token, seconds, now);
      && (r.Ok? <==> 1 <= seconds <= 3600 && HeldAt(l.op, token, now) && l.op.leaseExpires.value <= now + seconds)
      && (r.Ok? ==>
            var n := l.op.attemptCount;
            && n in l.attempts && r.value.op == l.op.(leaseExpires := Some(now + seconds))
            && r.value.attempts == l.attempts[n := l.attempts[n].(leaseExpires := now + seconds)] && r.value.nextId == l.nextId)
  {
    assert l.op.attemptCount > 0 ==> AttemptInv(l, l.op.attemptCount);
  }

  /** A cancellation stops an operation that is not leased at once; it only asks the holder of a lease. */
  lemma CancellationMeans(l: Ledger, now: Time)
    ensures
      var r := RequestCancellation(l, now);
      var settled := l.op.state == Succeeded || l.op.state == Failed || l.op.state == Cancelled;
      && (r.Err? <==> settled)
      && (l.op.state == Running ==> r == Ok(l.(op := l.op.(state := CancellationRequested))))
      && (l.op.state == CancellationRequested ==> r == Ok(l))
      && (l.op.state == Pending || l.op.state == RetryWait ==>
            r == Ok(l.(op := l.op.(state := Cancelled, nextAttemptAt := None, terminalAt := Some(now)))))
  {
  }
}
