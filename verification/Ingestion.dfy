/** One frontier unit (a Source and a branch ref) and its ingestion transactions. */
module Ingestion {
  import opened Prelude
  import PU = ProcessingUnits

  /** `revision` is `None` where the table stores the sentinel revision `REF_DELETED`. */
  datatype Observation = Observation(id: Id, revision: Option<string>, isDefaultRef: bool, observedAt: Time)

  datatype Kind = Ingested | Coalesced | RefDeleted
  datatype Disposition = Disposition(kind: Kind, observationId: Id, coveredBy: Option<Id>, actor: Id, token: Id)

  datatype EvidenceKind = File | RenamedFile | Deletion
  datatype Draft = Draft(
    kind: EvidenceKind, revision: string, path: string, previousPath: Option<string>,
    objectId: Option<string>, locator: Option<string>, byteSize: Option<nat>, contentHash: Option<seq<int>>)
  datatype Evidence = Evidence(sequence: nat, observationId: Id, draft: Draft)

  datatype Mode = InitialTree | IncrementalCompare | BoundedTreeFallback | DeletedRef
  datatype Summary = Summary(mode: Mode, candidateCount: int, fetchedBytes: int, sanitized: bool)

  /** Every row that belongs to the unit. Observations and dispositions are keyed by observation sequence. */
  datatype Unit = Unit(
    observations: map<nat, Observation>,
    observed: Option<nat>, desired: Option<nat>, ingested: Option<nat>,
    dispositions: map<nat, Disposition>,
    evidence: map<Id, Evidence>,
    processing: Option<PU.Row>,
    nextId: Id)

  const EMPTY := Unit(map[], None, None, None, map[], map[], None, 0)

  datatype Error =
    | SourceUnavailable | UnitNotFound | ObservationInvalid | StaleLease
    | EvidenceConflict | EvidenceLimit | EvidenceShape
    | SummaryInvalid | DeletionModeRequired | DeletionModeInvalid | FrontierGap | TargetMismatch
    | InvalidLeaseDuration | RetryNotInFuture | UnsafeMetadata

  datatype Scheduled = Scheduled(observationId: Id, sequence: nat, created: bool)
  datatype Target = Target(observationId: Id, sequence: nat, revision: Option<string>, base: Option<string>, token: Id)

  const MAXIMUM_REFERENCES := 2000

  function Observed(u: Unit): nat { u.observed.GetOr(0) }
  function IngestedThrough(u: Unit): nat { u.ingested.GetOr(0) }

  function Lift<T>(e: PU.Error): Result<T, Error> {
    match e
    case InvalidLeaseDuration => Err(InvalidLeaseDuration)
    case StaleLease => Err(StaleLease)
    case TargetMismatch => Err(TargetMismatch)
    case RetryNotInFuture => Err(RetryNotInFuture)
    case UnsafeMetadata => Err(UnsafeMetadata)
  }

  predicate Identifies(u: Unit, sequence: nat, observationId: Id) {
    sequence in u.observations && u.observations[sequence].id == observationId
  }

  /** The columns of the natural unique constraint. */
  datatype NaturalKey = NaturalKey(
    observationId: Id, kind: EvidenceKind, revision: string, path: string,
    previousPath: Option<string>, objectId: Option<string>, locator: Option<string>)

  function KeyOf(observationId: Id, d: Draft): NaturalKey {
    NaturalKey(observationId, d.kind, d.revision, d.path, d.previousPath, d.objectId, d.locator)
  }

  function RowKey(e: Evidence): NaturalKey {
    KeyOf(e.observationId, e.draft)
  }

  function References(u: Unit, observationId: Id): set<Id> {
    set i | i in u.evidence && u.evidence[i].observationId == observationId
  }

  predicate WellShaped(d: Draft) {
    && (d.byteSize.Some? ==> d.byteSize.value <= 524288)
    && (d.contentHash.Some? ==> |d.contentHash.value| == 32)
    && match d.kind
       case Deletion => d.previousPath.None? && d.objectId.None? && d.byteSize.None? && d.contentHash.None?
       case File => d.previousPath.None? && d.objectId.Some? && d.byteSize.Some? && d.contentHash.Some?
       case RenamedFile => d.previousPath.Some? && d.objectId.Some? && d.byteSize.Some? && d.contentHash.Some?
  }

  // ----- the invariant -----

  ghost predicate ObservationInv(u: Unit) {
    && u.observed == u.desired
    && (u.observed.Some? ==> u.observed.value > 0)
    && (forall k :: k in u.observations <==> 1 <= k <= Observed(u))
    && (forall k :: 1 <= k <= Observed(u) ==> IdsGrow(u, k))
  }

  /** Observation identifiers follow the sequence, so an identifier names at most one observation. */
  ghost predicate IdsGrow(u: Unit, k: nat) {
    && k in u.observations && u.observations[k].id < u.nextId
    && (k > 1 ==> k - 1 in u.observations && u.observations[k - 1].id < u.observations[k].id)
  }

  ghost predicate FrontierInv(u: Unit) {
    && (u.ingested.Some? ==> 0 < u.ingested.value <= Observed(u))
    && (forall k :: k in u.dispositions <==> 1 <= k <= IngestedThrough(u))
  }

  /** The processing row mirrors the frontier row, and satisfies every constraint of its own table. */
  ghost predicate ProcessingInv(u: Unit) {
    && (u.processing.None? <==> u.observed.None?)
    && (u.processing.Some? ==>
          && PU.Checks(u.processing.value)
          && u.processing.value.desired == Observed(u)
          && u.processing.value.processed == IngestedThrough(u)
          && (u.processing.value.leaseToken.Some? ==> u.processing.value.leaseToken.value < u.nextId))
  }

  ghost predicate DispositionInv(u: Unit) {
    forall k :: 1 <= k <= IngestedThrough(u) ==> DispositionRowInv(u, k)
  }

  /** A coalesced row names the observation that covers its successor, or the successor itself. */
  ghost predicate DispositionRowInv(u: Unit, k: nat) {
    && k in u.dispositions && k in u.observations
    && u.dispositions[k].observationId == u.observations[k].id
    && (if u.dispositions[k].kind == Coalesced then
          && k + 1 in u.dispositions && k + 1 in u.observations
          && u.dispositions[k].coveredBy ==
               if u.dispositions[k + 1].kind == Coalesced then u.dispositions[k + 1].coveredBy
               else Some(u.observations[k + 1].id)
        else
          && u.dispositions[k].coveredBy.None?
          && (u.dispositions[k].kind == RefDeleted <==> u.observations[k].revision.None?))
  }

  ghost predicate EvidenceRowInv(u: Unit, i: Id)
    requires i in u.evidence
  {
    var e := u.evidence[i];
    && i < u.nextId
    && WellShaped(e.draft)
    && Identifies(u, e.sequence, e.observationId)
    && u.observations[e.sequence].revision == Some(e.draft.revision)
    && (e.sequence in u.dispositions ==> u.dispositions[e.sequence].kind == Ingested)
  }

  ghost predicate EvidenceInv(u: Unit) {
    forall i :: i in u.evidence ==> EvidenceRowInv(u, i)
  }

  /** The natural unique constraint on evidence references. */
  ghost predicate KeysUnique(u: Unit) {
    forall i, j | i in u.evidence && j in u.evidence && RowKey(u.evidence[i]) == RowKey(u.evidence[j]) :: i == j
  }

  ghost predicate ReferencesBounded(u: Unit) {
    forall o: Id :: |References(u, o)| <= MAXIMUM_REFERENCES
  }

  ghost predicate Inv(u: Unit) {
    && ObservationInv(u) && FrontierInv(u) && ProcessingInv(u) && DispositionInv(u)
    && EvidenceInv(u) && KeysUnique(u) && ReferencesBounded(u)
  }

  // ----- the transactions, as functions on the unit -----

  predicate SameAsLatest(o: Observation, revision: Option<string>, isDefaultRef: bool) {
    o.revision == revision && o.isDefaultRef == isDefaultRef
  }

  function Schedule(u: Unit, active: bool, revision: Option<string>, isDefaultRef: bool, observedAt: Time)
    : Result<(Unit, Scheduled), Error>
    requires Inv(u)
  {
    if !active then Err(SourceUnavailable)
    else if u.observed.Some? && SameAsLatest(u.observations[u.observed.value], revision, isDefaultRef) then
      Ok((u, Scheduled(u.observations[u.observed.value].id, u.observed.value, false)))
    else
      var next := Observed(u) + 1;
      var row := match u.processing
                 case None => PU.Row(next, IngestedThrough(u), true, None, None, None, None, 0, None, None)
                 case Some(p) => p.(desired := next, followUp := true);
      Ok((u.(observations := u.observations[next := Observation(u.nextId, revision, isDefaultRef, observedAt)],
             observed := Some(next), desired := Some(next), processing := Some(row), nextId := u.nextId + 1),
          Scheduled(u.nextId, next, true)))
  }

  function Acquire(u: Unit, active: bool, worker: Id, seconds: int, now: Time)
    : Result<(Unit, Option<Target>), Error>
    requires Inv(u)
  {
    if u.processing.None? then Ok((u, None))
    else
      match PU.Acquire(u.processing.value, worker, seconds, now, u.nextId)
      case Err(e) => Lift(e)
      case Ok((row, None)) => Ok((u, None))
      case Ok((row, Some(grant))) =>
        if !active then Err(SourceUnavailable)
        else
          var target := u.observations[grant.target];
          var base := if u.ingested.Some? then u.observations[u.ingested.value].revision else None;
          Ok((u.(processing := Some(row), nextId := u.nextId + 1),
              Some(Target(target.id, grant.target, target.revision, base, grant.token))))
  }

  function Renew(u: Unit, token: Id, seconds: int, now: Time): Result<Unit, Error>
    requires Inv(u)
  {
    if u.processing.None? then Err(StaleLease)
    else
      match PU.Renew(u.processing.value, token, seconds, now)
      case Err(e) => Lift(e)
      case Ok(row) => Ok(u.(processing := Some(row)))
  }

  /** The lease a worker must present: current token, its owner, this target, unexpired. */
  predicate LeaseMatches(u: Unit, worker: Id, token: Id, sequence: nat, now: Time) {
    && u.processing.Some?
    && PU.Holds(u.processing.value, token, now)
    && u.processing.value.leaseOwner == Some(worker)
    && u.processing.value.leaseTarget == Some(sequence)
  }

  /** The sequence of the observation with this identifier, if the unit has one. */
  ghost function SequenceOf(u: Unit, observationId: Id): (k: Option<nat>)
    ensures k.Some? ==> Identifies(u, k.value, observationId)
    ensures k.None? ==> forall j: nat :: !Identifies(u, j, observationId)
  {
    if j: nat :| Identifies(u, j, observationId) then Some(j) else None
  }

  ghost function Record(u: Unit, active: bool, observationId: Id, worker: Id, token: Id, draft: Draft, now: Time)
    : Result<(Unit, Id), Error>
    requires Inv(u)
  {
    var k := SequenceOf(u, observationId);
    if !active then Err(SourceUnavailable)
    else if k.None? || u.observations[k.value].revision != Some(draft.revision) then Err(ObservationInvalid)
    else if !LeaseMatches(u, worker, token, k.value, now) then Err(StaleLease)
    else if i :| i in u.evidence && RowKey(u.evidence[i]) == KeyOf(observationId, draft) then
      if u.evidence[i].draft == draft then Ok((u, i)) else Err(EvidenceConflict)
    else if |References(u, observationId)| >= MAXIMUM_REFERENCES then Err(EvidenceLimit)
    else if !WellShaped(draft) then Err(EvidenceShape)
    else
      Ok((u.(evidence := u.evidence[u.nextId := Evidence(k.value, observationId, draft)], nextId := u.nextId + 1), u.nextId))
  }

  predicate SummaryAccepted(s: Summary) {
    0 <= s.candidateCount <= 10000 && 0 <= s.fetchedBytes <= 33554432 && s.sanitized
  }

  /** What completion of `target` writes for sequence `k`. */
  function Disposed(u: Unit, k: nat, target: nat, worker: Id, token: Id): Disposition
    requires k in u.observations && target in u.observations
  {
    if k < target then Disposition(Coalesced, u.observations[k].id, Some(u.observations[target].id), worker, token)
    else Disposition(if u.observations[k].revision.None? then RefDeleted else Ingested,
                     u.observations[k].id, None, worker, token)
  }

  /** Every sequence up to `target` has its row: the old ones as they were, the new range covered by `target`. */
  function DispositionsAfter(u: Unit, target: nat, worker: Id, token: Id): map<nat, Disposition>
    requires target in u.observations
  {
    u.dispositions
    + (map k | k in u.observations && IngestedThrough(u) < k <= target :: Disposed(u, k, target, worker, token))
  }

  /** The references of the coalesced observations are dropped. */
  function EvidenceAfter(u: Unit, target: nat): map<Id, Evidence> {
    map i | i in u.evidence && !(IngestedThrough(u) < u.evidence[i].sequence < target) :: u.evidence[i]
  }

  function Completed(u: Unit, target: nat, worker: Id, token: Id, row: PU.Row): Unit
    requires target in u.observations
  {
    u.(ingested := Some(target), dispositions := DispositionsAfter(u, target, worker, token),
       evidence := EvidenceAfter(u, target), processing := Some(row))
  }

  /** `now` is read on entry; `later` is read again by the processing unit's own completion. */
  ghost function Complete(u: Unit, active: bool, observationId: Id, worker: Id, token: Id, summary: Summary,
                          now: Time, later: Time): Result<(Unit, bool), Error>
    requires Inv(u)
  {
    var k := SequenceOf(u, observationId);
    if !active then Err(SourceUnavailable)
    else if !SummaryAccepted(summary) then Err(SummaryInvalid)
    else if k.None? || !LeaseMatches(u, worker, token, k.value, now) then Err(StaleLease)
    else
      var deleted := u.observations[k.value].revision.None?;
      if deleted && !summary.mode.DeletedRef? then Err(DeletionModeRequired)
      else if !deleted && summary.mode.DeletedRef? then Err(DeletionModeInvalid)
      else
        match PU.Complete(u.processing.value, token, k.value, later)
        case Err(e) => Lift(e)
        case Ok(row) => Ok((Completed(u, k.value, worker, token, row), row.followUp))
  }

  function Retry(u: Unit, token: Id, retryAt: Time, failure: Option<string>, sanitized: bool, now: Time)
    : Result<Unit, Error>
    requires Inv(u)
  {
    if u.processing.None? then Err(UnitNotFound)
    else
      match PU.Retry(u.processing.value, token, retryAt, failure, sanitized, now)
      case Err(e) => Lift(e)
      case Ok(row) => Ok(u.(processing := Some(row)))
  }

}
