/** Runs of the ingestion protocol: any interleaving of its transactions, by any callers, at any clock readings. */
module IngestionRuns {
  import opened Prelude
  import opened Ingestion

  datatype Step =
    | DoSchedule(active: bool, revision: Option<string>, isDefaultRef: bool, observedAt: Time)
    | DoAcquire(active: bool, worker: Id, seconds: int, now: Time)
    | DoRenew(token: Id, seconds: int, now: Time)
    | DoRecord(active: bool, observationId: Id, worker: Id, token: Id, draft: Draft, now: Time)
    | DoComplete(active: bool, observationId: Id, worker: Id, token: Id, summary: Summary, now: Time, later: Time)
    | DoRetry(token: Id, retryAt: Time, failure: Option<string>, sanitized: bool, now: Time)

  /** The unit after a transaction that succeeded; a raised exception leaves it as it was. */
  ghost function Outcome(u: Unit, step: Step): Result<Unit, Error>
    requires Inv(u)
  {
    match step
    case DoSchedule(active, revision, isDefaultRef, observedAt) =>
      (match Schedule(u, active, revision, isDefaultRef, observedAt) case Ok(r) => Ok(r.0) case Err(e) => Err(e))
    case DoAcquire(active, worker, seconds, now) =>
      (match Acquire(u, active, worker, seconds, now) case Ok(r) => Ok(r.0) case Err(e) => Err(e))
    case DoRenew(token, seconds, now) => Renew(u, token, seconds, now)
    case DoRecord(active, observationId, worker, token, draft, now) =>
      (match Record(u, active, observationId, worker, token, draft, now) case Ok(r) => Ok(r.0) case Err(e) => Err(e))
    case DoComplete(active, observationId, worker, token, summary, now, later) =>
      (match Complete(u, active, observationId, worker, token, summary, now, later) case Ok(r) => Ok(r.0) case Err(e) => Err(e))
    case DoRetry(token, retryAt, failure, sanitized, now) => Retry(u, token, retryAt, failure, sanitized, now)
  }

  ghost function Apply(u: Unit, step: Step): (r: Unit)
    requires Inv(u)
    ensures Inv(r)
  {
    StepKeepsInv(u, step);
    match Outcome(u, step)
    case Ok(v) => v
    case Err(_) => u
  }

  ghost function Run(u: Unit, steps: seq<Step>): (r: Unit)
    requires Inv(u)
    ensures Inv(r)
    decreases |steps|
  {
    if steps == [] then u else Run(Apply(u, steps[0]), steps[1..])
  }

  // ----- every transaction keeps the invariant -----

  lemma EmptyInv()
    ensures Inv(EMPTY)
  {
    forall o: Id ensures |References(EMPTY, o)| <= MAXIMUM_REFERENCES {
      assert References(EMPTY, o) == {};
    }
  }

  lemma StepKeepsInv(u: Unit, step: Step)
    requires Inv(u)
    ensures Outcome(u, step).Ok? ==> Inv(Outcome(u, step).value)
  {
    match step
    case DoSchedule(active, revision, isDefaultRef, observedAt) => ScheduleKeepsInv(u, active, revision, isDefaultRef, observedAt);
    case DoAcquire(active, worker, seconds, now) => AcquireKeepsInv(u, active, worker, seconds, now);
    case DoRenew(token, seconds, now) => RowChangeKeepsInv(u, Outcome(u, step));
    case DoRecord(active, observationId, worker, token, draft, now) => RecordKeepsInv(u, active, observationId, worker, token, draft, now);
    case DoComplete(active, observationId, worker, token, summary, now, later) =>
      CompleteKeepsInv(u, active, observationId, worker, token, summary, now, later);
    case DoRetry(token, retryAt, failure, sanitized, now) => RowChangeKeepsInv(u, Outcome(u, step));
  }

  /** A step that only rewrites the lease columns of the processing row, and may draw identifiers. */
  lemma RowChangeKeepsInv(u: Unit, r: Result<Unit, Error>)
    requires Inv(u)
    requires r.Ok? ==> r.value.processing.Some? && u.nextId <= r.value.nextId
                       && r.value == u.(processing := r.value.processing, nextId := r.value.nextId)
    requires r.Ok? ==> ProcessingInv(r.value)
    ensures r.Ok? ==> Inv(r.value)
  {
    if r.Ok? {
      RowsCarryOver(u, r.value);
      forall o: Id ensures References(r.value, o) == References(u, o) {}
    }
  }

  /** Rows already written keep their invariants under any step that only adds rows to the tables. */
  lemma RowsCarryOver(u: Unit, v: Unit)
    requires Inv(u) && u.nextId <= v.nextId
    requires forall k :: k in u.observations ==> k in v.observations && v.observations[k] == u.observations[k]
    requires v.dispositions == u.dispositions && v.ingested == u.ingested
    ensures DispositionInv(v)
    ensures forall k :: 1 <= k <= Observed(u) ==> IdsGrow(v, k)
    ensures forall i :: i in u.evidence && i in v.evidence && v.evidence[i] == u.evidence[i] ==> EvidenceRowInv(v, i)
  {
    forall k | 1 <= k <= IngestedThrough(v) ensures DispositionRowInv(v, k) { assert DispositionRowInv(u, k); }
    forall k | 1 <= k <= Observed(u) ensures IdsGrow(v, k) { assert IdsGrow(u, k); }
    forall i | i in u.evidence && i in v.evidence && v.evidence[i] == u.evidence[i] ensures EvidenceRowInv(v, i) {
      assert EvidenceRowInv(u, i);
    }
  }

  lemma ScheduleKeepsInv(u: Unit, active: bool, revision: Option<string>, isDefaultRef: bool, observedAt: Time)
    requires Inv(u)
    ensures var r := Schedule(u, active, revision, isDefaultRef, observedAt); r.Ok? ==> Inv(r.value.0)
  {
    var r := Schedule(u, active, revision, isDefaultRef, observedAt);
    if r.Ok? && r.value.1.created {
      var v := r.value.0;
      RowsCarryOver(u, v);
      assert Observed(u) > 0 ==> IdsGrow(u, Observed(u));
      assert IdsGrow(v, Observed(v));
      forall o: Id ensures References(v, o) == References(u, o) {}
    }
  }

  lemma AcquireKeepsInv(u: Unit, active: bool, worker: Id, seconds: int, now: Time)
    requires Inv(u)
    ensures var r := Acquire(u, active, worker, seconds, now); r.Ok? ==> Inv(r.value.0)
  {
    var r := Acquire(u, active, worker, seconds, now);
    if r.Ok? && r.value.1.Some? {
      RowChangeKeepsInv(u, Ok(r.value.0));
    }
  }

  lemma RecordKeepsInv(u: Unit, active: bool, observationId: Id, worker: Id, token: Id, draft: Draft, now: Time)
    requires Inv(u)
    ensures var r := Record(u, active, observationId, worker, token, draft, now); r.Ok? ==> Inv(r.value.0)
  {
    var r := Record(u, active, observationId, worker, token, draft, now);
    if r.Ok? && r.value.0 != u {
      InsertKeepsInv(u, r.value.0.evidence[u.nextId].sequence, observationId, draft);
    }
  }

  lemma InsertKeepsInv(u: Unit, k: nat, observationId: Id, draft: Draft)
    requires Inv(u)
    requires Identifies(u, k, observationId) && u.observations[k].revision == Some(draft.revision)
    requires k > IngestedThrough(u) && WellShaped(draft)
    requires forall i :: i in u.evidence ==> RowKey(u.evidence[i]) != KeyOf(observationId, draft)
    requires |References(u, observationId)| < MAXIMUM_REFERENCES
    ensures Inv(u.(evidence := u.evidence[u.nextId := Evidence(k, observationId, draft)], nextId := u.nextId + 1))
  {
    var v := u.(evidence := u.evidence[u.nextId := Evidence(k, observationId, draft)], nextId := u.nextId + 1);
    assert u.nextId !in u.evidence by { assert u.nextId in u.evidence ==> EvidenceRowInv(u, u.nextId); }
    RowsCarryOver(u, v);
    assert EvidenceInv(v) by { assert EvidenceRowInv(v, u.nextId); }
    InsertKeepsKeysUnique(u, v, k, observationId, draft);
    InsertKeepsBound(u, v, k, observationId, draft);
  }

  lemma InsertKeepsKeysUnique(u: Unit, v: Unit, k: nat, observationId: Id, draft: Draft)
    requires KeysUnique(u) && v.evidence == u.evidence[u.nextId := Evidence(k, observationId, draft)]
    requires forall i :: i in u.evidence ==> RowKey(u.evidence[i]) != KeyOf(observationId, draft)
    ensures KeysUnique(v)
  {}

  lemma InsertKeepsBound(u: Unit, v: Unit, k: nat, observationId: Id, draft: Draft)
    requires ReferencesBounded(u) && u.nextId !in u.evidence
    requires v.evidence == u.evidence[u.nextId := Evidence(k, observationId, draft)]
    requires |References(u, observationId)| < MAXIMUM_REFERENCES
    ensures ReferencesBounded(v)
  {
    assert References(v, observationId) == References(u, observationId) + {u.nextId};
    forall o: Id | o != observationId ensures References(v, o) == References(u, o) {}
  }

  lemma CompleteKeepsInv(u: Unit, active: bool, observationId: Id, worker: Id, token: Id, summary: Summary,
                         now: Time, later: Time)
    requires Inv(u)
    ensures var r := Complete(u, active, observationId, worker, token, summary, now, later); r.Ok? ==> Inv(r.value.0)
  {
    var r := Complete(u, active, observationId, worker, token, summary, now, later);
    if r.Ok? {
      var v, t := r.value.0, r.value.0.ingested.value;
      CompletedDispositions(u, v, t, worker, token);
      forall k | 1 <= k <= Observed(v) ensures IdsGrow(v, k) { assert IdsGrow(u, k); }
      forall o: Id ensures |References(v, o)| <= MAXIMUM_REFERENCES {
        SubsetSize(References(v, o), References(u, o));
      }
      forall i | i in v.evidence ensures EvidenceRowInv(v, i) { assert EvidenceRowInv(u, i); }
    }
  }

  lemma CompletedDispositions(u: Unit, v: Unit, t: nat, worker: Id, token: Id)
    requires Inv(u) && IngestedThrough(u) < t <= Observed(u)
    requires v.observations == u.observations && v.ingested == Some(t) && v.observed == u.observed
    requires v.dispositions == DispositionsAfter(u, t, worker, token)
    ensures FrontierInv(v) && DispositionInv(v)
  {
    forall k | 1 <= k <= t ensures DispositionRowInv(v, k) {
      if k <= IngestedThrough(u) { assert DispositionRowInv(u, k); }
    }
  }

  lemma SubsetSize<T>(a: set<T>, b: set<T>)
    requires a <= b
    ensures |a| <= |b|
  {
    assert b == a + (b - a);
  }
}
