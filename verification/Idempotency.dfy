/**
 * Idempotency claims of one workspace: a caller claims a key before it does its work and finishes the claim with the
 * result, so that repeating the request replays the result instead of the work. Rows are never deleted; a record id is
 * the row's position.
 */
module Idempotency {
  import opened Prelude

  datatype State = InProgress | Completed | FailedRetryable | FailedTerminal

  /** The unique scope of a claim. Project creation has no project yet. */
  datatype Key = Key(project: Option<Id>, actor: Id, action: string, hash: nat)

  datatype Row = Row(
    key: Key,
    fingerprint: nat,
    state: State,
    claimToken: Option<Id>,
    claimExpires: Option<Time>,
    attempts: nat,
    retryAt: Option<Time>,
    result: Option<Id>)

  datatype Table = Table(rows: seq<Row>, nextToken: Id)

  datatype Outcome =
    | Claimed(record: Id, token: Id)
    | RetryClaimed(record: Id, token: Id)
    | Conflict(record: Id)
    | Replay(record: Id, reference: Option<Id>)
    | TerminalFailure(record: Id)
    | Busy(record: Id)

  datatype Error = InvalidClaimDuration | ExpiryNotInFuture | ProjectRequired | StaleClaim | IncompleteResult | RetryNotInFuture

  datatype Resolution =
    | Succeed(reference: Option<Id>)
    | FailForNow(retryAt: Option<Time>)
    | FailForGood

  // ----- what the table itself rejects -----

  /** Only the creation of a project is claimed without one. */
  predicate ScopeAllowed(key: Key) {
    key.project.Some? || key.action == "PROJECT_CREATE"
  }

  /** The check constraints on the scope, the claim, the attempts, the retry time and the result of a row. */
  predicate Checks(r: Row) {
    && ScopeAllowed(r.key)
    && (r.state.InProgress? <==> r.claimToken.Some? && r.claimExpires.Some?)
    && r.attempts > 0
    && (r.state.FailedRetryable? <==> r.retryAt.Some?)
    && (r.state.Completed? <==> r.result.Some?)
  }

  predicate LegalTransition(before: State, after: State) {
    || before == after
    || (before.InProgress? && !after.InProgress?)
    || (before.FailedRetryable? && after.InProgress?)
  }

  /** The update trigger: terminal rows are frozen, the identity is fixed, attempts advance one at a time. */
  predicate GuardAllows(before: Row, after: Row) {
    && !before.state.Completed? && !before.state.FailedTerminal?
    && after.key == before.key && after.fingerprint == before.fingerprint
    && LegalTransition(before.state, after.state)
    && before.attempts <= after.attempts <= before.attempts + 1
  }

  // ----- the two transactions -----

  function Find(rows: seq<Row>, key: Key): (r: Option<nat>)
    ensures r.Some? ==> r.value < |rows| && rows[r.value].key == key
    ensures r.None? ==> forall i :: 0 <= i < |rows| ==> rows[i].key != key
  {
    if rows == [] then None
    else if rows[|rows| - 1].key == key then Some(|rows| - 1)
    else Find(rows[..|rows| - 1], key)
  }

  /** The row that a fresh claim inserts. */
  function Fresh(key: Key, fingerprint: nat, token: Id, until: Time): Row {
    Row(key, fingerprint, InProgress, Some(token), Some(until), 1, None, None)
  }

  /** The row that a repeated claim writes over `r`. */
  function Reclaimed(r: Row, token: Id, until: Time): Row {
    r.(state := InProgress, claimToken := Some(token), claimExpires := Some(until), attempts := r.attempts + 1, retryAt := None)
  }

  /** Why an existing row with the same fingerprint cannot be claimed now, if it cannot. */
  function Refusal(r: Row, record: Id, now: Time): Option<Outcome> {
    match r.state
    case Completed => Some(Replay(record, r.result))
    case FailedTerminal => Some(TerminalFailure(record))
    case InProgress => if r.claimExpires.Some? && r.claimExpires.value > now then Some(Busy(record)) else None
    case FailedRetryable => if r.retryAt.Some? && r.retryAt.value > now then Some(Busy(record)) else None
  }

  function Claim(t: Table, key: Key, fingerprint: nat, seconds: int, expiresAt: Time, now: Time)
    : Result<(Table, Outcome), Error>
  {
    if seconds < 1 || seconds > 3600 then Err(InvalidClaimDuration)
    else if expiresAt <= now then Err(ExpiryNotInFuture)
    else match Find(t.rows, key)
      case None =>
        if !ScopeAllowed(key) then Err(ProjectRequired)
        else Ok((Table(t.rows + [Fresh(key, fingerprint, t.nextToken, now + seconds)], t.nextToken + 1),
                 Claimed(|t.rows|, t.nextToken)))
      case Some(i) =>
        if t.rows[i].fingerprint != fingerprint then Ok((t, Conflict(i)))
        else match Refusal(t.rows[i], i, now)
          case Some(outcome) => Ok((t, outcome))
          case None =>
            Ok((Table(t.rows[i := Reclaimed(t.rows[i], t.nextToken, now + seconds)], t.nextToken + 1),
                RetryClaimed(i, t.nextToken)))
  }

  /** Whether `token` is the live claim on `record`. */
  predicate Holds(t: Table, record: Id, token: Id, now: Time) {
    && record < |t.rows| && t.rows[record].state.InProgress?
    && t.rows[record].claimToken == Some(token)
    && (t.rows[record].claimExpires.Some? ==> t.rows[record].claimExpires.value > now)
  }

  function Resolved(r: Row, resolution: Resolution): Row {
    var released := r.(claimToken := None, claimExpires := None);
    match resolution
    case Succeed(reference) => released.(state := Completed, result := reference)
    case FailForNow(retryAt) => released.(state := FailedRetryable, retryAt := retryAt)
    case FailForGood => released.(state := FailedTerminal)
  }

  function Finish(t: Table, record: Id, token: Id, resolution: Resolution, now: Time): Result<Table, Error> {
    if !Holds(t, record, token, now) then Err(StaleClaim)
    else if resolution.Succeed? && resolution.reference.None? then Err(IncompleteResult)
    else if resolution.FailForNow? && (resolution.retryAt.None? || resolution.retryAt.value < now) then Err(RetryNotInFuture)
    else Ok(t.(rows := t.rows[record := Resolved(t.rows[record], resolution)]))
  }

  // ----- the invariant of every reachable table -----

  ghost predicate RowInv(t: Table, i: nat)
    requires i < |t.rows|
  {
    && Checks(t.rows[i])
    && (t.rows[i].claimToken.Some? ==> t.rows[i].claimToken.value < t.nextToken && t.rows[i].state.InProgress?)
  }

  ghost predicate KeysUnique(t: Table) {
    forall i, j :: 0 <= i < j < |t.rows| ==> t.rows[i].key != t.rows[j].key
  }

  ghost predicate TokensUnique(t: Table) {
    forall i, j :: 0 <= i < j < |t.rows| && t.rows[i].claimToken.Some? ==> t.rows[i].claimToken != t.rows[j].claimToken
  }

  ghost predicate Inv(t: Table) {
    && (forall i :: 0 <= i < |t.rows| ==> RowInv(t, i))
    && KeysUnique(t) && TokensUnique(t)
  }

  // ----- runs -----

  datatype Step =
    | DoClaim(key: Key, fingerprint: nat, seconds: int, expiresAt: Time, now: Time)
    | DoFinish(record: Id, token: Id, resolution: Resolution, now: Time)

  function Apply(t: Table, step: Step): Table {
    match step
    case DoClaim(key, fingerprint, seconds, expiresAt, now) =>
      (match Claim(t, key, fingerprint, seconds, expiresAt, now)
       case Ok((after, _)) => after
       case Err(_) => t)
    case DoFinish(record, token, resolution, now) =>
      (match Finish(t, record, token, resolution, now)
       case Ok(after) => after
       case Err(_) => t)
  }

  function Run(t: Table, steps: seq<Step>): Table
    decreases |steps|
  {
    if steps == [] then t else Run(Apply(t, steps[0]), steps[1..])
  }

  lemma ClaimKeepsInv(t: Table, key: Key, fingerprint: nat, seconds: int, expiresAt: Time, now: Time)
    requires Inv(t)
    ensures Inv(Apply(t, DoClaim(key, fingerprint, seconds, expiresAt, now)))
  {
    var u := Apply(t, DoClaim(key, fingerprint, seconds, expiresAt, now));
    forall i | 0 <= i < |u.rows| ensures RowInv(u, i) {
      assert i < |t.rows| ==> RowInv(t, i);
    }
    forall i, j | 0 <= i < j < |u.rows| && u.rows[i].claimToken.Some? ensures u.rows[i].claimToken != u.rows[j].claimToken {
      assert i < |t.rows| ==> RowInv(t, i);
      assert j < |t.rows| ==> RowInv(t, j);
    }
  }

  lemma FinishKeepsInv(t: Table, record: Id, token: Id, resolution: Resolution, now: Time)
    requires Inv(t)
    ensures Inv(Apply(t, DoFinish(record, token, resolution, now)))
  {
    var u := Apply(t, DoFinish(record, token, resolution, now));
    forall i | 0 <= i < |u.rows| ensures RowInv(u, i) {
      assert RowInv(t, i);
    }
  }

  lemma StepKeepsInv(t: Table, step: Step)
    requires Inv(t)
    ensures Inv(Apply(t, step))
  {
    hide Inv, Apply;
    match step
    case DoClaim(k, f, s, e, n) => ClaimKeepsInv(t, k, f, s, e, n);
    case DoFinish(r, k, res, n) => FinishKeepsInv(t, r, k, res, n);
  }

  lemma {:induction false} RunKeepsInv(t: Table, steps: seq<Step>)
    requires Inv(t)
    ensures Inv(Run(t, steps))
    decreases |steps|
  {
    hide Inv, Apply;
    if steps != [] {
      StepKeepsInv(t, steps[0]);
      RunKeepsInv(Apply(t, steps[0]), steps[1..]);
    }
  }
}
