/** What a claim answers and what finishing it leaves, read off the columns of the row. */
module IdempotencyLaws {
  import opened Prelude
  import opened Idempotency
  import opened IdempotencyTheorems

  /** Somebody is at work under a claim that has not run out, or a retry is not due yet. */
  predicate BusyAt(r: Row, now: Time) {
    || (r.state == InProgress && r.claimExpires.Some? && now < r.claimExpires.value)
    || (r.state == FailedRetryable && r.retryAt.Some? && now < r.retryAt.value)
  }

  /** What a claim on an existing record answers: only a claim that ran out or a retry that is due is granted again. */
  lemma ClaimMeans(t: Table, i: nat, fingerprint: nat, seconds: int, expiresAt: Time, now: Time)
    requires Inv(t) && i < |t.rows| && 1 <= seconds <= 3600 && now < expiresAt
    ensures
      var r := Claim(t, t.rows[i].key, fingerprint, seconds, expiresAt, now);
      var row := t.rows[i];
      && r.Ok?
      && (fingerprint != row.fingerprint ==> r.value == (t, Conflict(i)))
      && (fingerprint == row.fingerprint ==>
            && (row.state == Completed ==> r.value == (t, Replay(i, row.result)))
            && (row.state == FailedTerminal ==> r.value == (t, TerminalFailure(i)))
            && (BusyAt(row, now) ==> r.value == (t, Busy(i)))
            && (!row.state.Completed? && !row.state.FailedTerminal? && !BusyAt(row, now) ==>
                  && r.value.1 == RetryClaimed(i, t.nextToken) && r.value.0.nextToken == t.nextToken + 1
                  && r.value.0.rows == t.rows[i := Row(row.key, fingerprint, InProgress, Some(t.nextToken), Some(now + seconds),
                                                       row.attempts + 1, None, row.result)]))
  {
    FindUnique(t, i);
    assert RowInv(t, i);
    hide Inv, Find;
  }

  /** A new key is claimed at once, and only the creation of a project without naming one. */
  lemma FirstClaimMeans(t: Table, key: Key, fingerprint: nat, seconds: int, expiresAt: Time, now: Time)
    requires (forall i :: 0 <= i < |t.rows| ==> t.rows[i].key != key)
    ensures
      var r := Claim(t, key, fingerprint, seconds, expiresAt, now);
      && (r.Ok? <==> 1 <= seconds <= 3600 && now < expiresAt && (key.project == None ==> key.action == "PROJECT_CREATE"))
      && (r.Ok? ==>
            && r.value.1 == Claimed(|t.rows|, t.nextToken) && r.value.0.nextToken == t.nextToken + 1
            && r.value.0.rows == t.rows + [Row(key, fingerprint, InProgress, Some(t.nextToken), Some(now + seconds), 1, None, None)])
  {
    var found := Find(t.rows, key);
  }

  /** The row is claimed under `token` until `expires`. */
  predicate ClaimIs(t: Table, i: nat, token: Id, expires: Time) {
    i < |t.rows| && t.rows[i].state == InProgress && t.rows[i].claimToken == Some(token) && t.rows[i].claimExpires == Some(expires)
  }

  /** No step finishes with the token, and every claim on the row's key is tried before the claim runs out. */
  predicate Undisputed(steps: seq<Step>, key: Key, token: Id, expires: Time) {
    forall i :: 0 <= i < |steps| ==>
      (steps[i].DoFinish? ==> steps[i].token != token) && (steps[i].DoClaim? && steps[i].key == key ==> steps[i].now < expires)
  }

  /** Mutual exclusion: before a claim runs out nothing that others do changes its row. */
  lemma {:induction false} LiveClaimSurvives(t: Table, i: nat, steps: seq<Step>, token: Id, expires: Time)
    requires Inv(t) && ClaimIs(t, i, token, expires) && Undisputed(steps, t.rows[i].key, token, expires)
    ensures i < |Run(t, steps).rows| && Run(t, steps).rows[i] == t.rows[i]
    decreases |steps|
  {
    if steps == [] { return; }
    StepKeepsInv(t, steps[0]);
    ClaimSurvivesStep(t, i, steps[0], token, expires);
    hide Inv, Apply;
    assert forall j :: 0 <= j < |steps[1..]| ==> steps[1..][j] == steps[j + 1];
    LiveClaimSurvives(Apply(t, steps[0]), i, steps[1..], token, expires);
  }

  lemma ClaimSurvivesStep(t: Table, i: nat, step: Step, token: Id, expires: Time)
    requires Inv(t) && ClaimIs(t, i, token, expires)
    requires (step.DoFinish? ==> step.token != token) && (step.DoClaim? && step.key == t.rows[i].key ==> step.now < expires)
    ensures i < |Apply(t, step).rows| && Apply(t, step).rows[i] == t.rows[i]
  {
    FindUnique(t, i);
    hide Inv;
  }

  /** Finishing succeeds exactly for the holder of a live claim whose resolution is complete, and closes that row alone. */
  lemma FinishMeans(t: Table, record: Id, token: Id, resolution: Resolution, now: Time)
    requires Inv(t)
    ensures
      var r := Finish(t, record, token, resolution, now);
      && (r.Ok? <==>
            && record < |t.rows| && t.rows[record].state == InProgress && t.rows[record].claimToken == Some(token)
            && t.rows[record].claimExpires.Some? && now < t.rows[record].claimExpires.value
            && (resolution.Succeed? ==> resolution.reference.Some?)
            && (resolution.FailForNow? ==> resolution.retryAt.Some? && now <= resolution.retryAt.value))
      && (r.Ok? ==>
            var row := t.rows[record];
            r.value == t.(rows := t.rows[record := Row(row.key, row.fingerprint,
              if resolution.Succeed? then Completed else if resolution.FailForNow? then FailedRetryable else FailedTerminal,
              None, None, row.attempts,
              if resolution.FailForNow? then resolution.retryAt else None,
              if resolution.Succeed? then resolution.reference else None)]))
  {
    if record < |t.rows| { assert RowInv(t, record); }
    hide Inv;
  }
}
