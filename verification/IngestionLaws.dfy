/** What each ingestion transaction grants, writes and leaves alone, read off the columns of the rows. */
module IngestionLaws {
  import opened Prelude
  import opened Ingestion
  import opened IngestionRuns
  import opened IngestionTheorems
  import PU = ProcessingUnits

  /** The lease columns name a lease that has not run out. */
  predicate LeasedAt(u: Unit, now: Time) {
    u.processing.Some? && u.processing.value.leaseExpires.Some? && now < u.processing.value.leaseExpires.value
  }

  predicate WaitsAt(u: Unit, now: Time) {
    u.processing.Some? && u.processing.value.retryAt.Some? && now < u.processing.value.retryAt.value
  }

  /**
   * A lease is granted exactly when something newer than the processed sequence is desired, no other lease is live and
   * no retry is waiting, to a caller with a valid duration and an active connection. Otherwise nothing changes.
   */
  lemma GrantsExactlyWhen(u: Unit, active: bool, worker: Id, seconds: int, now: Time)
    requires Inv(u)
    ensures
      var r := Acquire(u, active, worker, seconds, now);
      var due := Observed(u) > IngestedThrough(u) && !LeasedAt(u, now) && !WaitsAt(u, now);
      && (r.Ok? && r.value.1.Some? <==> u.observed.Some? && 1 <= seconds <= 3600 && active && due)
      && (r.Err? <==> u.observed.Some? && (!(1 <= seconds <= 3600) || (due && !active)))
      && (r.Ok? && r.value.1.None? ==> r.value.0 == u)
  {
  }

  /** The lease that is granted: its columns, and a target that is the newest observation over the last one ingested. */
  lemma GrantedTarget(u: Unit, active: bool, worker: Id, seconds: int, now: Time)
    requires Inv(u)
    requires Acquire(u, active, worker, seconds, now).Ok? && Acquire(u, active, worker, seconds, now).value.1.Some?
    ensures
      var v, t := Acquire(u, active, worker, seconds, now).value.0, Acquire(u, active, worker, seconds, now).value.1.value;
      && t.sequence == Observed(u) && t.sequence in u.observations
      && t.observationId == u.observations[t.sequence].id && t.revision == u.observations[t.sequence].revision
      && (u.ingested.None? ==> t.base == None)
      && (u.ingested.Some? ==> u.ingested.value in u.observations && t.base == u.observations[u.ingested.value].revision)
      && t.token >= u.nextId && v.nextId > t.token
      && v.processing.Some? && v.processing.value.leaseToken == Some(t.token) && v.processing.value.leaseOwner == Some(worker)
      && v.processing.value.leaseTarget == Some(t.sequence) && v.processing.value.leaseExpires == Some(now + seconds)
      && v.processing.value.attempts == u.processing.value.attempts + 1 && v.processing.value.retryAt == None
      && v.observations == u.observations && v.dispositions == u.dispositions && v.evidence == u.evidence
      && v.observed == u.observed && v.ingested == u.ingested
  {
  }

  /** The lease columns of the unit are those of `token`, until `expires`. */
  predicate LeaseIs(u: Unit, token: Id, owner: Id, target: nat, expires: Time) {
    && u.processing.Some? && u.processing.value.leaseToken == Some(token) && u.processing.value.leaseOwner == Some(owner)
    && u.processing.value.leaseTarget == Some(target) && u.processing.value.leaseExpires == Some(expires)
  }

  /** No step presents the token, and every acquisition is tried before the lease runs out. */
  predicate Undisputed(steps: seq<Step>, token: Id, expires: Time) {
    forall i :: 0 <= i < |steps| ==> Presents(steps[i]) != Some(token) && (steps[i].DoAcquire? ==> steps[i].now < expires)
  }

  /** A live lease is not taken: whatever others do before it runs out, it keeps its owner, target and expiry. */
  lemma {:induction false} LiveLeaseSurvives(u: Unit, steps: seq<Step>, token: Id, owner: Id, target: nat, expires: Time)
    requires Inv(u) && LeaseIs(u, token, owner, target, expires) && Undisputed(steps, token, expires)
    ensures LeaseIs(Run(u, steps), token, owner, target, expires)
    decreases |steps|
  {
    if steps == [] { return; }
    LeaseSurvivesStep(u, steps[0], token, owner, target, expires);
    hide Inv, Apply, LeaseIs;
    assert forall i :: 0 <= i < |steps[1..]| ==> steps[1..][i] == steps[i + 1];
    LiveLeaseSurvives(Apply(u, steps[0]), steps[1..], token, owner, target, expires);
  }

  lemma LeaseSurvivesStep(u: Unit, step: Step, token: Id, owner: Id, target: nat, expires: Time)
    requires Inv(u) && LeaseIs(u, token, owner, target, expires)
    requires Presents(step) != Some(token) && (step.DoAcquire? ==> step.now < expires)
    ensures LeaseIs(Apply(u, step), token, owner, target, expires)
  {
    hide Inv;
  }

  /** Scheduling an active connection's sighting: a repetition of the newest observation, or a new one with what was seen. */
  lemma ScheduleMeans(u: Unit, active: bool, revision: Option<string>, isDefaultRef: bool, observedAt: Time)
    requires Inv(u)
    ensures
      var r := Schedule(u, active, revision, isDefaultRef, observedAt);
      var newest := Observed(u);
      var repeated := newest in u.observations && u.observations[newest].revision == revision
                      && u.observations[newest].isDefaultRef == isDefaultRef;
      && (r.Ok? <==> active)
      && (r.Ok? && repeated ==> r.value == (u, Scheduled(u.observations[newest].id, newest, false)))
      && (r.Ok? && !repeated ==>
            var (v, s) := r.value;
            && s.created && s.sequence == newest + 1 && Observed(v) == newest + 1
            && v.observations == u.observations[newest + 1 := Observation(s.observationId, revision, isDefaultRef, observedAt)]
            && v.evidence == u.evidence && v.dispositions == u.dispositions && IngestedThrough(v) == IngestedThrough(u)
            && v.processing.Some?
            && (u.processing.Some? ==> v.processing.value == u.processing.value.(desired := newest + 1, followUp := true)))
  {
  }

  /** The lease a caller must hold to record for, or complete, an observation. */
  predicate HeldFor(u: Unit, worker: Id, token: Id, sequence: nat, now: Time) {
    && LeasedAt(u, now) && u.processing.value.leaseToken == Some(token)
    && u.processing.value.leaseOwner == Some(worker) && u.processing.value.leaseTarget == Some(sequence)
  }

  predicate Known(u: Unit, observationId: Id, draft: Draft) {
    exists i :: i in u.evidence && RowKey(u.evidence[i]) == KeyOf(observationId, draft)
  }

  /** The columns that each kind of reference fills: a file its object, size and hash, a renamed one its old path too. */
  predicate FillsItsColumns(d: Draft) {
    && (d.previousPath.Some? <==> d.kind == RenamedFile)
    && (d.objectId.Some? <==> d.kind != Deletion) && (d.byteSize.Some? <==> d.kind != Deletion) && (d.contentHash.Some? <==> d.kind != Deletion)
    && (d.byteSize.Some? ==> d.byteSize.value <= 524288) && (d.contentHash.Some? ==> |d.contentHash.value| == 32)
  }

  /**
   * Recording succeeds exactly for the holder of a live lease on the reference's own observation and revision, either
   * again with the same reference, or for the first time within the limit and in shape. Then the reference is there, and
   * every other row as it was.
   */
  lemma RecordMeans(u: Unit, active: bool, k: nat, worker: Id, token: Id, draft: Draft, now: Time)
    requires Inv(u) && k in u.observations
    ensures
      var o := u.observations[k].id;
      var r := Record(u, active, o, worker, token, draft, now);
      && (r.Ok? ==> active && u.observations[k].revision == Some(draft.revision) && HeldFor(u, worker, token, k, now))
      && (active && u.observations[k].revision == Some(draft.revision) && HeldFor(u, worker, token, k, now) ==>
            if Known(u, o, draft) then r.Ok? <==> exists i :: i in u.evidence && u.evidence[i] == Evidence(k, o, draft)
            else r.Ok? <==> |References(u, o)| < 2000 && FillsItsColumns(draft))
      && (r.Ok? ==>
            var (v, i) := r.value;
            && i in v.evidence && v.evidence[i] == Evidence(k, o, draft) && v.processing == u.processing
            && v.observations == u.observations && v.dispositions == u.dispositions && v.observed == u.observed && v.ingested == u.ingested
            && (forall j :: j in u.evidence ==> j in v.evidence && v.evidence[j] == u.evidence[j])
            && (forall j :: j in v.evidence && j !in u.evidence ==> j == i))
  {
    var o := u.observations[k].id;
    assert Identifies(u, k, o);
    IdNamesOne(u, SequenceOf(u, o).value, k);
    NextIdIsFresh(u);
    forall i | i in u.evidence && u.evidence[i].observationId == o ensures u.evidence[i].sequence == k {
      assert EvidenceRowInv(u, i);
      IdNamesOne(u, u.evidence[i].sequence, k);
    }
    hide Inv;
  }

  /** What `target`'s completion writes for the observations it settles, by name. */
  predicate SettledBy(u: Unit, v: Unit, j: nat, target: nat, worker: Id, token: Id)
    requires j in u.observations && target in u.observations
  {
    && j in v.dispositions && v.dispositions[j].observationId == u.observations[j].id
    && v.dispositions[j].actor == worker && v.dispositions[j].token == token
    && (if j < target then v.dispositions[j].kind == Coalesced && v.dispositions[j].coveredBy == Some(u.observations[target].id)
        else v.dispositions[j].coveredBy == None
             && v.dispositions[j].kind == if u.observations[j].revision == None then RefDeleted else Ingested)
  }

  /**
   * Completing `k` succeeds exactly for the holder of a lease on it that is live at both readings of the clock, with a
   * summary within its bounds and a mode that fits. It settles everything up to `k`, drops the references of what it
   * skipped and no others, and gives the lease back.
   */
  lemma CompleteMeans(u: Unit, active: bool, k: nat, worker: Id, token: Id, summary: Summary, now: Time, later: Time)
    requires Inv(u) && k in u.observations
    ensures
      var r := Complete(u, active, u.observations[k].id, worker, token, summary, now, later);
      && (r.Ok? <==> active && HeldFor(u, worker, token, k, now) && LeasedAt(u, later)
                     && 0 <= summary.candidateCount <= 10000 && 0 <= summary.fetchedBytes <= 33554432 && summary.sanitized
                     && (summary.mode == DeletedRef <==> u.observations[k].revision == None))
      && (r.Ok? ==>
            var (v, followUp) := r.value;
            && (followUp <==> Observed(u) > k) && v.ingested == Some(k) && v.observations == u.observations && v.observed == u.observed
            && (forall j :: j in v.dispositions <==> 1 <= j <= k)
            && (forall j :: IngestedThrough(u) < j <= k ==> SettledBy(u, v, j, k, worker, token))
            && (forall j :: j in u.dispositions ==> v.dispositions[j] == u.dispositions[j])
            && (forall i :: i in v.evidence <==> i in u.evidence && !(IngestedThrough(u) < u.evidence[i].sequence < k))
            && (forall i :: i in v.evidence ==> v.evidence[i] == u.evidence[i])
            && v.processing.Some?
            && v.processing.value == u.processing.value.(processed := k, followUp := followUp, retryAt := None, failure := None,
                 leaseToken := None, leaseOwner := None, leaseTarget := None, leaseExpires := None))
  {
    CompletesExactlyWhen(u, active, k, worker, token, summary, now, later);
    IdNamesOne(u, SequenceOf(u, u.observations[k].id).GetOr(k), k);
    assert Identifies(u, k, u.observations[k].id);
    assert k > 0;
  }

  /** Retrying succeeds exactly for the holder of a live lease with a time to come; the lease is given back until then. */
  lemma RetryMeans(u: Unit, token: Id, retryAt: Time, failure: Option<string>, sanitized: bool, now: Time)
    requires Inv(u)
    ensures
      var r := Retry(u, token, retryAt, failure, sanitized, now);
      && (r.Ok? <==> retryAt > now && sanitized && LeasedAt(u, now) && u.processing.value.leaseToken == Some(token))
      && (r.Ok? ==> r.value == u.(processing := Some(u.processing.value.(
           retryAt := Some(retryAt), failure := Some(if failure.Some? then failure.value else "UNCLASSIFIED_FAILURE"),
           leaseToken := None, leaseOwner := None, leaseTarget := None, leaseExpires := None))))
  {
    hide Inv;
  }

  /** Renewing succeeds exactly for the holder of a live lease, and moves nothing but its expiry. */
  lemma RenewMeans(u: Unit, token: Id, seconds: int, now: Time)
    requires Inv(u)
    ensures
      var r := Renew(u, token, seconds, now);
      && (r.Ok? <==> 1 <= seconds <= 3600 && LeasedAt(u, now) && u.processing.value.leaseToken == Some(token))
      && (r.Ok? ==> r.value == u.(processing := Some(u.processing.value.(leaseExpires := Some(now + seconds)))))
  {
    hide Inv;
  }
}
