/** What idempotency claims promise over whole runs. */
module IdempotencyTheorems {
  import opened Prelude
  import opened Idempotency

  // ----- the guards never reject -----

  /** Every row a claim writes passes the constraints, the unique scope and the update trigger. */
  lemma ClaimsPassGuards(t: Table, key: Key, fingerprint: nat, seconds: int, expiresAt: Time, now: Time)
    requires Inv(t) && Claim(t, key, fingerprint, seconds, expiresAt, now).Ok?
    ensures var (u, outcome) := Claim(t, key, fingerprint, seconds, expiresAt, now).value;
      match outcome
      case Claimed(i, _) =>
        i == |t.rows| && u.rows == t.rows + [u.rows[i]] && Checks(u.rows[i]) && (forall r | r in t.rows :: r.key != u.rows[i].key)
      case RetryClaimed(i, _) =>
        i < |t.rows| && u.rows == t.rows[i := u.rows[i]] && Checks(u.rows[i]) && GuardAllows(t.rows[i], u.rows[i])
      case _ => u == t
  {
    var (u, outcome) := Claim(t, key, fingerprint, seconds, expiresAt, now).value;
    if outcome.RetryClaimed? {
      assert RowInv(t, outcome.record);
    }
  }

  lemma FinishesPassGuards(t: Table, record: Id, token: Id, resolution: Resolution, now: Time)
    requires Inv(t) && Finish(t, record, token, resolution, now).Ok?
    ensures var u := Finish(t, record, token, resolution, now).value;
      record < |t.rows| && u.rows == t.rows[record := u.rows[record]]
      && Checks(u.rows[record]) && GuardAllows(t.rows[record], u.rows[record])
  {
    assert RowInv(t, record);
  }

  // ----- what later tables keep -----

  /** Rows stay in place with their key and fingerprint, attempts do not shrink, and terminal rows are frozen. */
  ghost predicate Extends(t: Table, u: Table) {
    && |t.rows| <= |u.rows| && t.nextToken <= u.nextToken
    && (forall i :: 0 <= i < |t.rows| ==> RowExtends(t.rows[i], u.rows[i]))
  }

  predicate RowExtends(r: Row, s: Row) {
    && s.key == r.key && s.fingerprint == r.fingerprint && r.attempts <= s.attempts
    && (r.state.Completed? || r.state.FailedTerminal? ==> s == r)
  }

  lemma StepExtends(t: Table, step: Step)
    requires Inv(t)
    ensures Extends(t, Apply(t, step))
  {
    if step.DoFinish? && Finish(t, step.record, step.token, step.resolution, step.now).Ok? {
      FinishesPassGuards(t, step.record, step.token, step.resolution, step.now);
    }
  }

  lemma {:induction false} RunExtends(t: Table, steps: seq<Step>)
    requires Inv(t)
    ensures Extends(t, Run(t, steps)) && Inv(Run(t, steps))
    decreases |steps|
  {
    hide Inv, Apply;
    RunKeepsInv(t, steps);
    if steps != [] {
      var u := Apply(t, steps[0]);
      StepExtends(t, steps[0]);
      StepKeepsInv(t, steps[0]);
      RunExtends(u, steps[1..]);
      assert forall i :: 0 <= i < |t.rows| ==> RowExtends(t.rows[i], u.rows[i]) && RowExtends(u.rows[i], Run(t, steps).rows[i]);
    }
  }

  lemma FindUnique(t: Table, i: nat)
    requires KeysUnique(t) && i < |t.rows|
    ensures Find(t.rows, t.rows[i].key) == Some(i)
  {
  }

  /**
   * Once a request has completed, every later repetition replays its result and every other request under the same key
   * conflicts; neither changes anything.
   */
  lemma CompletedReplaysForever(t: Table, i: nat, steps: seq<Step>, fingerprint: nat, seconds: int, expiresAt: Time, now: Time)
    requires Inv(t) && i < |t.rows| && t.rows[i].state.Completed?
    requires 1 <= seconds <= 3600 && now < expiresAt
    ensures var u := Run(t, steps);
      Claim(u, t.rows[i].key, fingerprint, seconds, expiresAt, now)
        == Ok((u, if fingerprint == t.rows[i].fingerprint then Replay(i, t.rows[i].result) else Conflict(i)))
  {
    RunExtends(t, steps);
    var u := Run(t, steps);
    assert RowExtends(t.rows[i], u.rows[i]);
    FindUnique(u, i);
  }

  // ----- fencing -----

  /** `token` was handed out and no row carries it any more. */
  ghost predicate Dead(t: Table, token: Id) {
    token < t.nextToken && forall i :: 0 <= i < |t.rows| ==> t.rows[i].claimToken != Some(token)
  }

  /** Finishing a claim, or claiming the record again, kills the token that held it. */
  lemma TokensDie(t: Table, i: nat, step: Step)
    requires Inv(t) && i < |t.rows| && t.rows[i].claimToken.Some?
    requires i < |Apply(t, step).rows| && Apply(t, step).rows[i] != t.rows[i]
    ensures Dead(Apply(t, step), t.rows[i].claimToken.value)
  {
    var u, token := Apply(t, step), t.rows[i].claimToken.value;
    assert RowInv(t, i);
    forall j | 0 <= j < |u.rows| ensures u.rows[j].claimToken != Some(token) {
      assert j < |t.rows| && j < i ==> t.rows[j].claimToken != t.rows[i].claimToken;
      assert j < |t.rows| && i < j ==> t.rows[i].claimToken != t.rows[j].claimToken;
    }
  }

  /** A dead token never finishes anything again, whatever happens. */
  lemma {:induction false} DeadForever(t: Table, token: Id, steps: seq<Step>, record: Id, resolution: Resolution, now: Time)
    requires Inv(t) && Dead(t, token)
    ensures Finish(Run(t, steps), record, token, resolution, now) == Err(StaleClaim)
    decreases |steps|
  {
    if steps != [] {
      var u := Apply(t, steps[0]);
      StepKeepsInv(t, steps[0]);
      assert Dead(u, token);
      hide Inv, Apply, Dead;
      DeadForever(u, token, steps[1..], record, resolution, now);
    }
  }

  // ----- conservation -----

  function Granted(r: Result<(Table, Outcome), Error>): nat {
    if r.Ok? && (r.value.1.Claimed? || r.value.1.RetryClaimed?) then 1 else 0
  }

  /** How many claims on `key` a run grants. */
  function Grants(t: Table, steps: seq<Step>, key: Key): nat
    decreases |steps|
  {
    if steps == [] then 0
    else
      var s := steps[0];
      (if s.DoClaim? && s.key == key then Granted(Claim(t, key, s.fingerprint, s.seconds, s.expiresAt, s.now)) else 0)
      + Grants(Apply(t, s), steps[1..], key)
  }

  function AttemptsOf(t: Table, key: Key): nat {
    match Find(t.rows, key)
    case None => 0
    case Some(i) => t.rows[i].attempts
  }

  lemma FindAfterAppend(rows: seq<Row>, r: Row, key: Key)
    ensures Find(rows + [r], key) == if r.key == key then Some(|rows|) else Find(rows, key)
  {
    assert (rows + [r])[..|rows|] == rows;
  }

  /** An update in place counts where it was. */
  lemma FindAfterUpdate(t: Table, i: nat, r: Row, key: Key)
    requires KeysUnique(t) && i < |t.rows| && r.key == t.rows[i].key
    ensures Find(t.rows[i := r], key) == Find(t.rows, key)
  {
    var u := t.(rows := t.rows[i := r]);
    var found := Find(t.rows, key);
    if found.Some? {
      assert u.rows[found.value].key == key;
      FindUnique(u, found.value);
    }
  }

  lemma ClaimCountsAttempts(t: Table, s: Step, key: Key)
    requires Inv(t) && s.DoClaim?
    ensures AttemptsOf(Apply(t, s), key) == AttemptsOf(t, key)
      + if s.key == key then Granted(Claim(t, key, s.fingerprint, s.seconds, s.expiresAt, s.now)) else 0
  {
    var u := Apply(t, s);
    assert KeysUnique(t);
    hide Inv;
    var found := Find(t.rows, s.key);
    if found.None? && u != t {
      FindAfterAppend(t.rows, u.rows[|t.rows|], key);
    } else if found.Some? && u != t {
      FindAfterUpdate(t, found.value, u.rows[found.value], key);
      if key != s.key && Find(t.rows, key).Some? { assert Find(t.rows, key).value != found.value; }
    }
  }

  lemma FinishCountsAttempts(t: Table, s: Step, key: Key)
    requires Inv(t) && s.DoFinish?
    ensures AttemptsOf(Apply(t, s), key) == AttemptsOf(t, key)
  {
    var u := Apply(t, s);
    assert KeysUnique(t);
    hide Inv;
    if u != t {
      FindAfterUpdate(t, s.record, u.rows[s.record], key);
    }
  }

  lemma StepCountsAttempts(t: Table, s: Step, key: Key)
    requires Inv(t)
    ensures AttemptsOf(Apply(t, s), key) == AttemptsOf(t, key)
      + if s.DoClaim? && s.key == key then Granted(Claim(t, key, s.fingerprint, s.seconds, s.expiresAt, s.now)) else 0
  {
    hide Inv, Apply, Claim, Granted;
    if s.DoClaim? { ClaimCountsAttempts(t, s, key); } else { FinishCountsAttempts(t, s, key); }
  }

  /** The attempt count of a record is the number of claims granted on its key. */
  lemma {:induction false} AttemptsCountGrants(t: Table, steps: seq<Step>, key: Key)
    requires Inv(t)
    ensures AttemptsOf(Run(t, steps), key) == AttemptsOf(t, key) + Grants(t, steps, key)
    decreases |steps|
  {
    if steps != [] {
      var u := Apply(t, steps[0]);
      StepKeepsInv(t, steps[0]);
      hide Inv, Apply, AttemptsOf, Granted;
      StepCountsAttempts(t, steps[0], key);
      AttemptsCountGrants(u, steps[1..], key);
    }
  }

  /** How many times a run completes a record. */
  function Completions(t: Table, steps: seq<Step>, record: Id): nat
    decreases |steps|
  {
    if steps == [] then 0
    else
      var s := steps[0];
      (if s.DoFinish? && s.record == record && s.resolution.Succeed?
          && Finish(t, record, s.token, s.resolution, s.now).Ok? then 1 else 0)
      + Completions(Apply(t, s), steps[1..], record)
  }

  /** Exactly once: over any run a record completes as often as it goes from not completed to completed, at most once. */
  lemma {:induction false} CompletesAtMostOnce(t: Table, steps: seq<Step>, record: Id)
    requires Inv(t)
    ensures Completions(t, steps, record)
      == (if IsCompleted(Run(t, steps), record) then 1 else 0) - (if IsCompleted(t, record) then 1 else 0)
    decreases |steps|
  {
    if steps != [] {
      var u := Apply(t, steps[0]);
      StepKeepsInv(t, steps[0]);
      StepExtends(t, steps[0]);
      assert record < |t.rows| ==> RowExtends(t.rows[record], u.rows[record]);
      hide Inv;
      CompletesAtMostOnce(u, steps[1..], record);
    }
  }

  predicate IsCompleted(t: Table, record: Id) {
    record < |t.rows| && t.rows[record].state.Completed?
  }
}
