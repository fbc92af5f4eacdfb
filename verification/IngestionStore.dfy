/**
 * The ingestion transactions as the database runs them, statement by statement, over the rows of one frontier unit.
 * A raised exception returns `Err` before anything is written, as a rollback leaves it.
 */
module IngestionStore {
  import opened Prelude
  import opened Ingestion
  import IngestionRuns
  import IngestionTheorems
  import PU = ProcessingUnits

  class Store {
    var observations: map<nat, Observation>
    var observed: Option<nat>
    var desired: Option<nat>
    var ingested: Option<nat>
    var dispositions: map<nat, Disposition>
    var evidence: map<Id, Evidence>
    var processing: Option<PU.Row>
    var nextId: Id

    function Rows(): Unit
      reads this
    {
      Unit(observations, observed, desired, ingested, dispositions, evidence, processing, nextId)
    }

    ghost predicate Valid()
      reads this
    {
      Inv(Rows())
    }

    constructor ()
      ensures Rows() == EMPTY && Valid()
    {
      observations, dispositions, evidence := map[], map[], map[];
      observed, desired, ingested, processing := None, None, None, None;
      nextId := 0;
      new;
      IngestionRuns.EmptyInv();
    }

    method Schedule(active: bool, revision: Option<string>, isDefaultRef: bool, observedAt: Time)
      returns (r: Result<Scheduled, Error>)
      requires Valid()
      modifies this
      ensures Valid()
      ensures match Ingestion.Schedule(old(Rows()), active, revision, isDefaultRef, observedAt)
              case Ok(o) => r == Ok(o.1) && Rows() == o.0
              case Err(e) => r == Err(e) && Rows() == old(Rows())
    {
      IngestionRuns.ScheduleKeepsInv(Rows(), active, revision, isDefaultRef, observedAt);
      assert observed.Some? ==> observed.value in observations && observed.GetOr(0) + 1 > 0;
      hide Inv;
      if !active { return Err(SourceUnavailable); }
      if observed.Some? {
        var latest := observations[observed.value];
        if latest.revision == revision && latest.isDefaultRef == isDefaultRef {
          return Ok(Scheduled(latest.id, observed.value, false));
        }
      }
      var next := observed.GetOr(0) + 1;
      var id := nextId;
      nextId := nextId + 1;
      observations := observations[next := Observation(id, revision, isDefaultRef, observedAt)];
      observed, desired := Some(next), Some(next);
      if processing.None? {
        processing := Some(PU.Row(next, ingested.GetOr(0), true, None, None, None, None, 0, None, None));
      } else {
        processing := Some(processing.value.(desired := next, followUp := true));
      }
      r := Ok(Scheduled(id, next, true));
    }

    method Acquire(active: bool, worker: Id, seconds: int, now: Time) returns (r: Result<Option<Target>, Error>)
      requires Valid()
      modifies this
      ensures Valid()
      ensures match Ingestion.Acquire(old(Rows()), active, worker, seconds, now)
              case Ok(o) => r == Ok(o.1) && Rows() == o.0
              case Err(e) => r == Err(e) && Rows() == old(Rows())
    {
      IngestionRuns.AcquireKeepsInv(Rows(), active, worker, seconds, now);
      if processing.None? { return Ok(None); }
      var unit := processing.value;
      if seconds < 1 || seconds > 3600 { return Err(InvalidLeaseDuration); }
      if !unit.followUp
         || (unit.retryAt.Some? && unit.retryAt.value > now)
         || (unit.leaseToken.Some? && unit.leaseExpires.Some? && unit.leaseExpires.value > now)
      {
        return Ok(None);
      }
      var target := observations[unit.desired];
      var base: Option<string> := None;
      if ingested.Some? { base := observations[ingested.value].revision; }
      if !active { return Err(SourceUnavailable); }
      var token := nextId;
      nextId := nextId + 1;
      processing := Some(unit.(
        leaseToken := Some(token), leaseOwner := Some(worker), leaseTarget := Some(unit.desired),
        leaseExpires := Some(now + seconds), attempts := unit.attempts + 1, retryAt := None, failure := None));
      r := Ok(Some(Target(target.id, unit.desired, target.revision, base, token)));
    }

    method Renew(token: Id, seconds: int, now: Time) returns (r: Result<Time, Error>)
      requires Valid()
      modifies this
      ensures Valid()
      ensures match Ingestion.Renew(old(Rows()), token, seconds, now)
              case Ok(u) => r == Ok(now + seconds) && Rows() == u
              case Err(e) => r == Err(e) && Rows() == old(Rows())
    {
      IngestionRuns.StepKeepsInv(Rows(), IngestionRuns.DoRenew(token, seconds, now));
      if processing.None? { return Err(StaleLease); }
      if seconds < 1 || seconds > 3600 { return Err(InvalidLeaseDuration); }
      var unit := processing.value;
      if unit.leaseToken != Some(token) || unit.leaseExpires.None? || unit.leaseExpires.value <= now { return Err(StaleLease); }
      processing := Some(unit.(leaseExpires := Some(now + seconds)));
      r := Ok(now + seconds);
    }

    method Record(active: bool, observationId: Id, worker: Id, token: Id, draft: Draft, now: Time)
      returns (r: Result<Id, Error>)
      requires Valid()
      modifies this
      ensures Valid()
      ensures match Ingestion.Record(old(Rows()), active, observationId, worker, token, draft, now)
              case Ok(o) => r == Ok(o.1) && Rows() == o.0
              case Err(e) => r == Err(e) && Rows() == old(Rows())
    {
      IngestionRuns.RecordKeepsInv(Rows(), active, observationId, worker, token, draft, now);
      if !active { return Err(SourceUnavailable); }
      var sequence := FindSequence(observationId);
      if sequence.None? || observations[sequence.value].revision != Some(draft.revision) { return Err(ObservationInvalid); }
      if !LeaseMatches(Rows(), worker, token, sequence.value, now) { return Err(StaleLease); }
      if i :| i in evidence && RowKey(evidence[i]) == KeyOf(observationId, draft) {
        if evidence[i].draft.byteSize != draft.byteSize || evidence[i].draft.contentHash != draft.contentHash {
          return Err(EvidenceConflict);
        }
        return Ok(i);
      }
      if |References(Rows(), observationId)| >= MAXIMUM_REFERENCES { return Err(EvidenceLimit); }
      if !WellShaped(draft) { return Err(EvidenceShape); }
      r := Ok(nextId);
      evidence := evidence[nextId := Evidence(sequence.value, observationId, draft)];
      nextId := nextId + 1;
    }

    /** The sequence of the observation with this identifier; identifiers name at most one observation. */
    method FindSequence(observationId: Id) returns (r: Option<nat>)
      requires Valid()
      ensures r == SequenceOf(Rows(), observationId)
    {
      r := None;
      var k := 1;
      while k <= observed.GetOr(0) && r.None?
        invariant 1 <= k <= observed.GetOr(0) + 1
        invariant r.Some? ==> Identifies(Rows(), r.value, observationId)
        invariant r.None? ==> forall j: nat :: j < k ==> !Identifies(Rows(), j, observationId)
        decreases observed.GetOr(0) - k, r.None?
      {
        if observations[k].id == observationId { r := Some(k); } else { k := k + 1; }
      }
      if r.Some? { IngestionTheorems.IdNamesOne(Rows(), r.value, SequenceOf(Rows(), observationId).value); }
    }

    method Complete(active: bool, observationId: Id, worker: Id, token: Id, summary: Summary, now: Time, later: Time)
      returns (r: Result<bool, Error>)
      requires Valid()
      modifies this
      ensures Valid()
      ensures match Ingestion.Complete(old(Rows()), active, observationId, worker, token, summary, now, later)
              case Ok(o) => r == Ok(o.1) && Rows() == o.0
              case Err(e) => r == Err(e) && Rows() == old(Rows())
    {
      IngestionRuns.CompleteKeepsInv(Rows(), active, observationId, worker, token, summary, now, later);
      if !active { return Err(SourceUnavailable); }
      if !SummaryAccepted(summary) { return Err(SummaryInvalid); }
      var found := FindSequence(observationId);
      if found.None? || !LeaseMatches(Rows(), worker, token, found.value, now) { return Err(StaleLease); }
      var deleted := observations[found.value].revision.None?;
      if deleted && !summary.mode.DeletedRef? { return Err(DeletionModeRequired); }
      if !deleted && summary.mode.DeletedRef? { return Err(DeletionModeInvalid); }
      r := Settle(found.value, worker, token, later);
    }

    /** Deletes superseded evidence, inserts the dispositions, and moves both frontiers to the leased target. */
    method Settle(target: nat, worker: Id, token: Id, later: Time) returns (r: Result<bool, Error>)
      requires Valid() && processing.Some? && processing.value.leaseTarget == Some(target)
      modifies this
      ensures match PU.Complete(old(processing).value, token, target, later)
              case Ok(row) => r == Ok(row.followUp) && Rows() == Completed(old(Rows()), target, worker, token, row)
              case Err(e) => e == PU.StaleLease && r == Err(StaleLease) && Rows() == old(Rows())
    {
      var prior := ingested.GetOr(0);
      var kept := DeleteCoalesced(prior, target);
      var disposed := InsertDispositions(prior, target, worker, token);
      var gap := FrontierGap(disposed, prior, target);
      if gap {
        assert false;  // SOURCE_INGESTION_FRONTIER_GAP is never raised
      }
      var unit := processing.value;
      if unit.leaseToken != Some(token) || unit.leaseExpires.None? || unit.leaseExpires.value <= later {
        return Err(StaleLease);
      }
      if unit.leaseTarget != Some(target) {
        assert false;  // the leased target always matches
      }
      evidence, dispositions, ingested := kept, disposed, Some(target);
      processing := Some(unit.(
        processed := target, followUp := unit.desired > target, leaseToken := None, leaseOwner := None,
        leaseTarget := None, leaseExpires := None, retryAt := None, failure := None));
      r := Ok(unit.desired > target);
    }

    /** Drops the references of the observations about to be coalesced; the immutability guard sees no settled one. */
    method DeleteCoalesced(prior: nat, target: nat) returns (kept: map<Id, Evidence>)
      requires prior == IngestedThrough(Rows()) && forall k :: k in dispositions ==> k <= prior
      ensures kept == EvidenceAfter(Rows(), target)
      ensures forall i :: i in evidence && i !in kept ==> evidence[i].sequence !in dispositions
    {
      kept := map i | i in evidence && !(prior < evidence[i].sequence < target) :: evidence[i];
    }

    /** The counting check before the ingested frontier moves. */
    method FrontierGap(disposed: map<nat, Disposition>, prior: nat, target: nat) returns (gap: bool)
      requires prior <= target
      requires forall k :: prior < k <= target ==> k in observations && k in disposed
      ensures !gap
    {
      var observationCount := |set k | k in observations && prior < k <= target|;
      var dispositionCount := |set k | k in disposed && prior < k <= target|;
      RangeSize(observations.Keys, prior, target);
      RangeSize(disposed.Keys, prior, target);
      assert (set k | k in observations && prior < k <= target) == set k | k in observations.Keys && prior < k <= target;
      assert (set k | k in disposed && prior < k <= target) == set k | k in disposed.Keys && prior < k <= target;
      gap := observationCount != target - prior || dispositionCount != observationCount;
    }

    /** Inserts the coalesced rows and then the target's own, each only where no row exists yet. */
    method InsertDispositions(prior: nat, target: nat, worker: Id, token: Id) returns (disposed: map<nat, Disposition>)
      requires prior == IngestedThrough(Rows()) < target
      requires forall k :: prior < k <= target ==> k in observations && k !in dispositions
      ensures disposed == DispositionsAfter(Rows(), target, worker, token)
    {
      disposed := dispositions;
      var coveredBy := observations[target].id;
      for k := prior + 1 to target
        invariant forall j :: j in disposed <==> j in dispositions || prior < j < k
        invariant forall j :: j in dispositions ==> disposed[j] == dispositions[j]
        invariant forall j :: prior < j < k ==> disposed[j] == Disposed(Rows(), j, target, worker, token)
      {
        if k !in disposed {
          disposed := disposed[k := Disposition(Coalesced, observations[k].id, Some(coveredBy), worker, token)];
        }
      }
      if target !in disposed {
        disposed := disposed[target := Disposition(if observations[target].revision.None? then RefDeleted else Ingested,
                                                   observations[target].id, None, worker, token)];
      }
    }

    method Retry(token: Id, retryAt: Time, failure: Option<string>, sanitized: bool, now: Time) returns (r: Result<bool, Error>)
      requires Valid()
      modifies this
      ensures Valid()
      ensures match Ingestion.Retry(old(Rows()), token, retryAt, failure, sanitized, now)
              case Ok(u) => r == Ok(true) && Rows() == u
              case Err(e) => r == Err(e) && Rows() == old(Rows())
    {
      IngestionRuns.StepKeepsInv(Rows(), IngestionRuns.DoRetry(token, retryAt, failure, sanitized, now));
      if processing.None? { return Err(UnitNotFound); }
      if retryAt <= now { return Err(RetryNotInFuture); }
      if !sanitized { return Err(UnsafeMetadata); }
      var unit := processing.value;
      if unit.leaseToken != Some(token) || unit.leaseExpires.None? || unit.leaseExpires.value <= now { return Err(StaleLease); }
      processing := Some(unit.(
        leaseToken := None, leaseOwner := None, leaseTarget := None, leaseExpires := None, retryAt := Some(retryAt),
        failure := Some(failure.GetOr("UNCLASSIFIED_FAILURE"))));
      r := Ok(true);
    }
  }

  /** A set that contains a whole interval has as many members in it as the interval is long. */
  lemma {:induction false} RangeSize(s: set<nat>, lo: nat, hi: nat)
    requires lo <= hi && forall k :: lo < k <= hi ==> k in s
    ensures |set k | k in s && lo < k <= hi| == hi - lo
    decreases hi
  {
    var all := set k | k in s && lo < k <= hi;
    if lo < hi {
      RangeSize(s, lo, hi - 1);
      assert all == (set k | k in s && lo < k <= hi - 1) + {hi};
    } else {
      assert all == {};
    }
  }
}
