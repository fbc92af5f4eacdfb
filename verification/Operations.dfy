/** Durable operations: leases with attempts, retries, cancellation, and the ledger of attempts. */
module Operations {
  import opened Prelude

  datatype State = Pending | Running | RetryWait | CancellationRequested | Succeeded | Failed | Cancelled
  datatype Resolution = Succeed | Retry | Fail | Cancel
  datatype AttemptOutcome = AttemptSucceeded | RetryScheduled | AttemptFailed | AttemptCancelled | LeaseExpired

  datatype Operation = Operation(
    state: State, attemptCount: nat, maxAttempts: nat, nextAttemptAt: Option<Time>,
    leaseToken: Option<Id>, leaseOwner: Option<Id>, leaseExpires: Option<Time>,
    failureCode: Option<string>, startedAt: Option<Time>, terminalAt: Option<Time>)

  datatype Attempt = Attempt(
    worker: Id, token: Id, acquiredAt: Time, leaseExpires: Time,
    finishedAt: Option<Time>, outcome: Option<AttemptOutcome>, failureCode: Option<string>)

  /** The operation row and its attempt rows, keyed by attempt number. */
  datatype Ledger = Ledger(op: Operation, attempts: map<nat, Attempt>, nextId: Id)

  datatype Error =
    | InvalidLeaseDuration | StaleLease | LeaseShrinks | UnsafeMetadata
    | CancellationRequired | NoCancellationRequested | RetryNotInFuture | TerminalOperation

  function Create(maxAttempts: nat): Ledger {
    Ledger(Operation(Pending, 0, maxAttempts, None, None, None, None, None, None, None), map[], 0)
  }

  predicate Terminal(s: State) { s.Succeeded? || s.Failed? || s.Cancelled? }
  predicate Leased(s: State) { s.Running? || s.CancellationRequested? }

  predicate Holds(o: Operation, token: Id, now: Time) {
    Leased(o.state) && o.leaseToken == Some(token) && o.leaseExpires.Some? && o.leaseExpires.value > now
  }

  function Released(o: Operation, state: State, now: Time): Operation {
    o.(state := state, leaseToken := None, leaseOwner := None, leaseExpires := None,
       terminalAt := if Terminal(state) then Some(now) else None)
  }

  /** Closes the current attempt, if it is still open. */
  function Closed(l: Ledger, outcome: AttemptOutcome, failureCode: Option<string>, now: Time): map<nat, Attempt> {
    var n := l.op.attemptCount;
    if n in l.attempts && l.attempts[n].finishedAt.None?
    then l.attempts[n := l.attempts[n].(finishedAt := Some(now), outcome := Some(outcome), failureCode := failureCode)]
    else l.attempts
  }

  /** The second component is the token, when the lease was granted. */
  function Acquire(l: Ledger, worker: Id, seconds: int, now: Time): Result<(Ledger, Option<Id>), Error> {
    var o := l.op;
    if seconds < 1 || seconds > 3600 then Err(InvalidLeaseDuration)
    else if Terminal(o.state) then Ok((l, None))
    else if Leased(o.state) && o.leaseExpires.Some? && o.leaseExpires.value > now then Ok((l, None))
    else if o.state.CancellationRequested? then
      Ok((l.(op := Released(o, Cancelled, now), attempts := Closed(l, AttemptCancelled, None, now)), None))
    else if o.state.RetryWait? && o.nextAttemptAt.Some? && o.nextAttemptAt.value > now then Ok((l, None))
    else
      var attempts := if o.state.Running? then Closed(l, LeaseExpired, None, now) else l.attempts;
      if o.attemptCount >= o.maxAttempts then
        Ok((l.(op := Released(o, Failed, now).(nextAttemptAt := None, failureCode := Some("ATTEMPTS_EXHAUSTED")),
               attempts := attempts), None))
      else
        var n := o.attemptCount + 1;
        Ok((Ledger(
              o.(state := Running, attemptCount := n, nextAttemptAt := None, leaseToken := Some(l.nextId),
                 leaseOwner := Some(worker), leaseExpires := Some(now + seconds),
                 startedAt := if o.startedAt.Some? then o.startedAt else Some(now), failureCode := None),
              attempts[n := Attempt(worker, l.nextId, now, now + seconds, None, None, None)],
              l.nextId + 1),
            Some(l.nextId)))
  }

  /** The attempt row's update trigger refuses an earlier expiry, and so aborts the renewal. */
  function Renew(l: Ledger, token: Id, seconds: int, now: Time): Result<Ledger, Error> {
    var n := l.op.attemptCount;
    if seconds < 1 || seconds > 3600 then Err(InvalidLeaseDuration)
    else if !Holds(l.op, token, now) then Err(StaleLease)
    else if n in l.attempts && l.attempts[n].finishedAt.None? then
      if now + seconds < l.attempts[n].leaseExpires then Err(LeaseShrinks)
      else Ok(l.(op := l.op.(leaseExpires := Some(now + seconds)),
                 attempts := l.attempts[n := l.attempts[n].(leaseExpires := now + seconds)]))
    else Ok(l.(op := l.op.(leaseExpires := Some(now + seconds))))
  }

  function Finish(l: Ledger, token: Id, resolution: Resolution, failureCode: Option<string>, sanitized: bool,
                  nextAttemptAt: Option<Time>, now: Time): Result<Ledger, Error>
  {
    var o := l.op;
    if !sanitized then Err(UnsafeMetadata)
    else if !Holds(o, token, now) then Err(StaleLease)
    else if o.state.CancellationRequested? && !resolution.Cancel? then Err(CancellationRequired)
    else if o.state.Running? && resolution.Cancel? then Err(NoCancellationRequested)
    else if resolution.Succeed? then
      Ok(l.(op := Released(o, Succeeded, now).(nextAttemptAt := None, failureCode := None),
            attempts := Closed(l, AttemptSucceeded, None, now)))
    else if resolution.Cancel? then
      Ok(l.(op := Released(o, Cancelled, now).(nextAttemptAt := None, failureCode := None),
            attempts := Closed(l, AttemptCancelled, None, now)))
    else if resolution.Retry? && o.attemptCount < o.maxAttempts then
      if nextAttemptAt.None? || nextAttemptAt.value < now then Err(RetryNotInFuture)
      else Ok(l.(op := Released(o, RetryWait, now).(nextAttemptAt := nextAttemptAt,
                         failureCode := Some(failureCode.GetOr("UNCLASSIFIED_FAILURE"))),
                 attempts := Closed(l, RetryScheduled, failureCode, now)))
    else
      Ok(l.(op := Released(o, Failed, now).(nextAttemptAt := None, failureCode := Some(failureCode.GetOr("UNCLASSIFIED_FAILURE"))),
            attempts := Closed(l, AttemptFailed, failureCode, now)))
  }

  function RequestCancellation(l: Ledger, now: Time): Result<Ledger, Error> {
    var o := l.op;
    if Terminal(o.state) then Err(TerminalOperation)
    else if o.state.CancellationRequested? then Ok(l)
    else if o.state.Running? then Ok(l.(op := o.(state := CancellationRequested)))
    else Ok(l.(op := o.(state := Cancelled, nextAttemptAt := None, terminalAt := Some(now))))
  }

  // ----- constraints, triggers and the invariant -----

  /** The check constraints of the operations table. */
  predicate Checks(o: Operation) {
    && 1 <= o.maxAttempts <= 100 && o.attemptCount <= o.maxAttempts
    && (o.state.RetryWait? <==> o.nextAttemptAt.Some?)
    && (Leased(o.state) <==> o.leaseToken.Some? && o.leaseOwner.Some? && o.leaseExpires.Some?)
    && (Terminal(o.state) <==> o.terminalAt.Some?)
  }

  predicate LegalTransition(before: State, after: State) {
    || before == after
    || (before.Pending? && (after.Running? || after.Cancelled?))
    || (before.Running? && (after.Succeeded? || after.RetryWait? || after.Failed? || after.CancellationRequested?))
    || (before.RetryWait? && (after.Running? || after.Cancelled?))
    || (before.CancellationRequested? && after.Cancelled?)
  }

  /** The operations table's update trigger. */
  predicate GuardAllows(before: Operation, after: Operation) {
    && !Terminal(before.state)
    && before.maxAttempts == after.maxAttempts
    && LegalTransition(before.state, after.state)
    && before.attemptCount <= after.attemptCount <= before.attemptCount + 1
  }

  /** The attempts table's update trigger. */
  predicate AttemptGuardAllows(before: Attempt, after: Attempt) {
    && before.finishedAt.None?
    && before.worker == after.worker && before.token == after.token && before.acquiredAt == after.acquiredAt
    && before.leaseExpires <= after.leaseExpires
  }

  predicate AttemptKeeps(a: Attempt, b: Attempt) {
    a == b || AttemptGuardAllows(a, b)
  }

  /** Attempt `n`: its token is newer than its predecessor's, and it is open only if it is the current, leased one. */
  ghost predicate AttemptInv(l: Ledger, n: nat) {
    && n in l.attempts && l.attempts[n].token < l.nextId
    && (n > 1 ==> n - 1 in l.attempts && l.attempts[n - 1].token < l.attempts[n].token)
    && (l.attempts[n].finishedAt.Some? <==> l.attempts[n].outcome.Some?)
    && (l.attempts[n].finishedAt.None? <==> n == l.op.attemptCount && Leased(l.op.state))
  }

  predicate HoldsLeaseOf(o: Operation, a: Attempt) {
    o.leaseToken == Some(a.token) && o.leaseOwner == Some(a.worker) && o.leaseExpires == Some(a.leaseExpires)
  }

  ghost predicate Inv(l: Ledger) {
    var o := l.op;
    && Checks(o)
    && (forall n :: n in l.attempts <==> 1 <= n <= o.attemptCount)
    && (forall n :: 1 <= n <= o.attemptCount ==> AttemptInv(l, n))
    && (!Leased(o.state) ==> o.leaseToken.None? && o.leaseOwner.None? && o.leaseExpires.None?)
    && (Leased(o.state) ==> o.attemptCount > 0 && HoldsLeaseOf(o, l.attempts[o.attemptCount]))
    && (o.state.Pending? ==> o.attemptCount == 0)
    && (o.state.RetryWait? ==> 0 < o.attemptCount < o.maxAttempts)
  }

  datatype Step =
    | DoAcquire(worker: Id, seconds: int, now: Time)
    | DoRenew(token: Id, seconds: int, now: Time)
    | DoFinish(token: Id, resolution: Resolution, failureCode: Option<string>, sanitized: bool, nextAttemptAt: Option<Time>, now: Time)
    | DoCancel(now: Time)

  function Outcome(l: Ledger, step: Step): Result<Ledger, Error> {
    match step
    case DoAcquire(worker, seconds, now) =>
      (match Acquire(l, worker, seconds, now) case Ok(r) => Ok(r.0) case Err(e) => Err(e))
    case DoRenew(token, seconds, now) => Renew(l, token, seconds, now)
    case DoFinish(token, resolution, failureCode, sanitized, nextAttemptAt, now) =>
      Finish(l, token, resolution, failureCode, sanitized, nextAttemptAt, now)
    case DoCancel(now) => RequestCancellation(l, now)
  }

  function Apply(l: Ledger, step: Step): Ledger {
    match Outcome(l, step)
    case Ok(m) => m
    case Err(_) => l
  }

  function Run(l: Ledger, steps: seq<Step>): Ledger
    decreases |steps|
  {
    if steps == [] then l else Run(Apply(l, steps[0]), steps[1..])
  }

  lemma CreateInv(maxAttempts: nat)
    requires 1 <= maxAttempts <= 100
    ensures Inv(Create(maxAttempts))
  {}

  lemma StepKeepsInv(l: Ledger, step: Step)
    requires Inv(l)
    ensures Inv(Apply(l, step))
  {
    assert l.op.attemptCount > 0 ==> AttemptInv(l, l.op.attemptCount);
    match step
    case DoAcquire(_, _, _) => AcquireKeepsInv(l, step);
    case _ => AttemptsKeepInv(l, Apply(l, step));
  }

  lemma AcquireKeepsInv(l: Ledger, step: Step)
    requires Inv(l) && step.DoAcquire?
    ensures Inv(Apply(l, step))
  {
    var m := Apply(l, step);
    assert l.op.attemptCount > 0 ==> AttemptInv(l, l.op.attemptCount);
    if m.op.attemptCount == l.op.attemptCount {
      AttemptsKeepInv(l, m);
    } else {
      forall n | 1 <= n <= m.op.attemptCount ensures AttemptInv(m, n) {
        assert n <= l.op.attemptCount ==> AttemptInv(l, n);
        assert n > 1 ==> AttemptInv(l, n - 1);
      }
    }
  }

  /** Attempts other than the current one keep their invariant when only the current one is rewritten. */
  lemma AttemptsKeepInv(l: Ledger, m: Ledger)
    requires forall n :: n in l.attempts <==> 1 <= n <= l.op.attemptCount
    requires forall n :: 1 <= n <= l.op.attemptCount ==> AttemptInv(l, n)
    requires m.op.attemptCount == l.op.attemptCount && m.attempts.Keys == l.attempts.Keys && m.nextId == l.nextId
    requires forall n :: n in l.attempts && n < l.op.attemptCount ==> m.attempts[n] == l.attempts[n]
    requires var n := l.op.attemptCount; n in l.attempts ==>
      && m.attempts[n].token == l.attempts[n].token
      && (m.attempts[n].finishedAt.Some? <==> m.attempts[n].outcome.Some?)
      && (m.attempts[n].finishedAt.None? <==> Leased(m.op.state))
    ensures forall n :: 1 <= n <= m.op.attemptCount ==> AttemptInv(m, n)
  {
    forall n | 1 <= n <= m.op.attemptCount ensures AttemptInv(m, n) {
      assert AttemptInv(l, n);
      assert n > 1 ==> AttemptInv(l, n - 1);
    }
  }

  /** In every run the attempts are exactly 1..attempt_count, and only the leased operation's own attempt is open. */
  lemma {:induction false} RunKeepsInv(l: Ledger, steps: seq<Step>)
    requires Inv(l)
    ensures Inv(Run(l, steps))
    decreases |steps|
  {
    if steps != [] {
      StepKeepsInv(l, steps[0]);
      RunKeepsInv(Apply(l, steps[0]), steps[1..]);
    }
  }

  // ----- triggers -----

  /** No step of a reachable operation trips the operation trigger, and none but a renewal can trip the attempt trigger. */
  lemma GuardsNeverReject(l: Ledger, step: Step)
    requires Inv(l)
    ensures var m := Apply(l, step);
      && Checks(m.op)
      && (m.op != l.op ==> GuardAllows(l.op, m.op))
      && (forall n :: n in l.attempts ==> n in m.attempts && AttemptKeeps(l.attempts[n], m.attempts[n]))
  {
    StepKeepsInv(l, step);
    forall n | n in l.attempts && n in Apply(l, step).attempts && Apply(l, step).attempts[n] != l.attempts[n]
      ensures AttemptGuardAllows(l.attempts[n], Apply(l, step).attempts[n])
    {
      assert AttemptInv(l, n);
    }
  }

  /** A renewal by the holder commits exactly when it does not shorten the lease; a shorter one is refused by the trigger. */
  lemma RenewsExactlyWhen(l: Ledger, token: Id, seconds: int, now: Time)
    requires Inv(l) && 1 <= seconds <= 3600 && Holds(l.op, token, now)
    ensures Renew(l, token, seconds, now).Ok? <==> l.op.leaseExpires.value <= now + seconds
    ensures Renew(l, token, seconds, now).Err? ==> Renew(l, token, seconds, now).error == LeaseShrinks
  {
    assert AttemptInv(l, l.op.attemptCount);
  }

  /** A one-second renewal of an hour's lease, by its holder, is refused. */
  lemma ShortRenewalIsRefused(worker: Id)
    ensures var l := Acquire(Create(5), worker, 3600, 0).value.0;
            Holds(l.op, 0, 1) && Renew(l, 0, 1, 1) == Err(LeaseShrinks)
  {}

  // ----- history -----

  /** Attempts are never lost, closed attempts never change, and open ones only ever lengthen their lease or close. */
  ghost predicate Keeps(l: Ledger, m: Ledger) {
    && l.op.attemptCount <= m.op.attemptCount
    && forall n :: n in l.attempts ==> n in m.attempts && AttemptKeeps(l.attempts[n], m.attempts[n])
  }

  lemma {:induction false} RunKeepsHistory(l: Ledger, steps: seq<Step>)
    requires Inv(l)
    ensures Keeps(l, Run(l, steps))
    decreases |steps|
  {
    if steps != [] {
      var m, r := Apply(l, steps[0]), Run(l, steps);
      GuardsNeverReject(l, steps[0]);
      StepKeepsInv(l, steps[0]);
      RunKeepsHistory(m, steps[1..]);
      forall n | n in l.attempts ensures n in r.attempts && AttemptKeeps(l.attempts[n], r.attempts[n]) {
        assert n in m.attempts && AttemptKeeps(m.attempts[n], r.attempts[n]);
      }
    }
  }

  // ----- termination -----

  /** How many more changes, renewals apart, the operation can still undergo. */
  function Budget(o: Operation): int {
    match o.state
    case Pending => 2 * o.maxAttempts + 1
    case Running => 2 * (o.maxAttempts - o.attemptCount) + 2
    case RetryWait => 2 * (o.maxAttempts - o.attemptCount) + 1
    case CancellationRequested => 1
    case _ => 0
  }

  function Changes(l: Ledger, steps: seq<Step>): nat
    decreases |steps|
  {
    if steps == [] then 0
    else (if !steps[0].DoRenew? && Apply(l, steps[0]) != l then 1 else 0) + Changes(Apply(l, steps[0]), steps[1..])
  }

  lemma StepSpendsBudget(l: Ledger, step: Step)
    requires Inv(l)
    ensures Budget(Apply(l, step).op) <= Budget(l.op)
    ensures !step.DoRenew? && Apply(l, step) != l ==> Budget(Apply(l, step).op) < Budget(l.op)
  {}

  lemma {:induction false} ChangesWithinBudget(l: Ledger, steps: seq<Step>)
    requires Inv(l)
    ensures Changes(l, steps) + Budget(Run(l, steps).op) <= Budget(l.op)
    decreases |steps|
  {
    if steps != [] {
      StepSpendsBudget(l, steps[0]);
      StepKeepsInv(l, steps[0]);
      ChangesWithinBudget(Apply(l, steps[0]), steps[1..]);
    }
  }

  /** Whatever callers do, an operation changes at most twice per allowed attempt, and once more; then it is settled. */
  lemma OperationsSettle(maxAttempts: nat, steps: seq<Step>)
    requires 1 <= maxAttempts <= 100
    ensures Changes(Create(maxAttempts), steps) <= 2 * maxAttempts + 1
    ensures Changes(Create(maxAttempts), steps) == 2 * maxAttempts + 1 ==> Terminal(Run(Create(maxAttempts), steps).op.state)
  {
    ChangesWithinBudget(Create(maxAttempts), steps);
    RunKeepsInv(Create(maxAttempts), steps);
  }

  /** A terminal operation is immutable for ever. */
  lemma {:induction false} TerminalIsFinal(l: Ledger, steps: seq<Step>)
    requires Inv(l) && Terminal(l.op.state)
    ensures Run(l, steps) == l
    decreases |steps|
  {
    if steps != [] { TerminalIsFinal(l, steps[1..]); }
  }

  // ----- fencing -----

  predicate Fenced(l: Ledger, token: Id) {
    token < l.nextId && l.op.leaseToken != Some(token)
  }

  predicate Presents(step: Step, token: Id) {
    (step.DoRenew? && step.token == token) || (step.DoFinish? && step.token == token)
  }

  /** A token that is no longer current never renews or finishes anything again. */
  lemma {:induction false} FencedForever(l: Ledger, token: Id, between: seq<Step>, late: Step)
    requires Inv(l) && Fenced(l, token) && Presents(late, token)
    ensures Outcome(Run(l, between), late).Err?
    decreases |between|
  {
    if between != [] {
      StepKeepsInv(l, between[0]);
      FencedForever(Apply(l, between[0]), token, between[1..], late);
    }
  }
}
