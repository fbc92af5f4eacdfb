/** The idempotency table as the database functions update it. */
module IdempotencyStore {
  import opened Prelude
  import I = Idempotency

  class Store {
    var rows: seq<I.Row>
    var nextToken: Id

    ghost function Table(): I.Table
      reads this
    {
      I.Table(rows, nextToken)
    }

    constructor ()
      ensures Table() == I.Table([], 0) && I.Inv(Table())
    {
      rows, nextToken := [], 0;
    }

    /** The lookup by the unique scope. */
    method FindKey(key: I.Key) returns (found: Option<nat>)
      requires I.Inv(Table())
      ensures found == I.Find(rows, key)
    {
      var i := |rows|;
      while i > 0
        invariant 0 <= i <= |rows|
        invariant I.Find(rows, key) == I.Find(rows[..i], key)
      {
        assert rows[..i][..i - 1] == rows[..i - 1];
        if rows[i - 1].key == key { return Some(i - 1); }
        i := i - 1;
      }
      found := None;
    }

    method Claim(key: I.Key, fingerprint: nat, seconds: int, expiresAt: Time, now: Time)
      returns (r: Result<I.Outcome, I.Error>)
      requires I.Inv(Table())
      modifies this
      ensures I.Inv(Table())
      ensures match I.Claim(old(Table()), key, fingerprint, seconds, expiresAt, now)
              case Ok((t, outcome)) => r == Ok(outcome) && Table() == t
              case Err(e) => r == Err(e) && Table() == old(Table())
    {
      I.ClaimKeepsInv(Table(), key, fingerprint, seconds, expiresAt, now);
      if seconds < 1 || seconds > 3600 { return Err(I.InvalidClaimDuration); }
      if expiresAt <= now { return Err(I.ExpiryNotInFuture); }
      var found := FindKey(key);
      var token := nextToken;
      if found.None? {
        if key.project.None? && key.action != "PROJECT_CREATE" { return Err(I.ProjectRequired); }
        rows := rows + [I.Row(key, fingerprint, I.InProgress, Some(token), Some(now + seconds), 1, None, None)];
        nextToken := nextToken + 1;
        return Ok(I.Claimed(|rows| - 1, token));
      }
      var i := found.value;
      var row := rows[i];
      assert I.RowInv(Table(), i);
      if row.fingerprint != fingerprint { return Ok(I.Conflict(i)); }
      if row.state.Completed? { return Ok(I.Replay(i, row.result)); }
      if row.state.FailedTerminal? { return Ok(I.TerminalFailure(i)); }
      if row.state.InProgress? && row.claimExpires.value > now { return Ok(I.Busy(i)); }
      if row.state.FailedRetryable? && row.retryAt.value > now { return Ok(I.Busy(i)); }
      rows := rows[i := row.(state := I.InProgress, claimToken := Some(token), claimExpires := Some(now + seconds),
                             attempts := row.attempts + 1, retryAt := None)];
      nextToken := nextToken + 1;
      r := Ok(I.RetryClaimed(i, token));
    }

    method Finish(record: Id, token: Id, resolution: I.Resolution, now: Time) returns (r: Result<(), I.Error>)
      requires I.Inv(Table())
      modifies this
      ensures I.Inv(Table())
      ensures match I.Finish(old(Table()), record, token, resolution, now)
              case Ok(t) => r == Ok(()) && Table() == t
              case Err(e) => r == Err(e) && Table() == old(Table())
    {
      I.FinishKeepsInv(Table(), record, token, resolution, now);
      if record >= |rows| { return Err(I.StaleClaim); }
      var row := rows[record];
      assert I.RowInv(Table(), record);
      if !row.state.InProgress? || row.claimToken != Some(token) || row.claimExpires.value <= now {
        return Err(I.StaleClaim);
      }
      match resolution {
      case Succeed(reference) =>
        if reference.None? { return Err(I.IncompleteResult); }
        row := row.(state := I.Completed, claimToken := None, claimExpires := None, result := reference);
      case FailForNow(retryAt) =>
        if retryAt.None? || retryAt.value < now { return Err(I.RetryNotInFuture); }
        row := row.(state := I.FailedRetryable, claimToken := None, claimExpires := None, retryAt := retryAt);
      case FailForGood =>
        row := row.(state := I.FailedTerminal, claimToken := None, claimExpires := None);
      }
      rows := rows[record := row];
      r := Ok(());
    }
  }
}
