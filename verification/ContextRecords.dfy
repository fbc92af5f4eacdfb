/**
 * Reviewed context of one project: semantic identities, their chain of records, and their endings, each written under an
 * idempotency claim. Identities, records, endings and claims are append-only, so an id is a position.
 */
module ContextRecords {
  import opened Prelude
  import I = Idempotency

  datatype Semantic = Semantic(subject: string, scope: string, facet: string, predicateKey: string)

  datatype Identity = Identity(key: Semantic, version: nat, ended: bool)

  datatype Origin = Origin(identity: Id, identityVersion: nat, recordVersion: nat, supersedes: Option<Id>, claim: Id)

  datatype Ending = Ending(identity: Id, endedRecord: Id, version: nat, claim: Id)

  datatype Project = Project(
    claims: I.Table,
    identities: seq<Identity>,
    current: map<Id, Id>,
    origins: seq<Origin>,
    endings: seq<Ending>)

  /** The three readings of the clock inside one transaction. */
  datatype Clocks = Clocks(now: Time, claimAt: Time, finishAt: Time)

  /** `sourceFault` is the verdict of the evidence, authority and frontier checks on a source-backed record. */
  datatype PutRequest = PutRequest(
    actor: Id, keyHash: nat, fingerprint: nat, key: Semantic,
    expectedVersion: nat, expectedCurrent: Option<Id>,
    sourceFault: Option<SourceFault>, hasPolicy: bool)

  datatype EndRequest = EndRequest(
    actor: Id, keyHash: nat, fingerprint: nat, identity: Id, expectedVersion: nat, expectedCurrent: Option<Id>)

  datatype SourceFault =
    | InvalidEvidence | AuthorityMissing | AuthorityAmbiguous | AuthorityUnavailable | AuthorityNotWinner | SourceNotCurrent

  datatype Error =
    | ClaimFault(fault: I.Error)
    | IdempotencyConflict
    | IdempotencyInProgress
    | IdempotencyTerminalFailure
    | ResourceNotFound
    | InvalidEndRequest
    | IdentityEnded
    | StaleVersion
    | StaleCurrentRecord
    | SourceRejected(reason: SourceFault)
    | ReviewPolicyMissing

  datatype Receipt = Receipt(identity: Id, record: Id, identityVersion: nat, recordVersion: nat, replayed: bool)
  datatype EndReceipt = EndReceipt(identity: Id, version: nat, replayed: bool)

  const CLAIM_SECONDS := 60
  const RETENTION := 86400

  /** The project whose rows these are. */
  const PROJECT: Option<Id> := Some(0)

  function PutKey(req: PutRequest): I.Key { I.Key(PROJECT, req.actor, "CONTEXT_RECORD_PUT", req.keyHash) }
  function EndKey(req: EndRequest): I.Key { I.Key(PROJECT, req.actor, "CONTEXT_IDENTITY_END", req.keyHash) }

  /** The refusal that a claim outcome raises, if it raises one. */
  function Raised(outcome: I.Outcome): Option<Error> {
    match outcome
    case Conflict(_) => Some(IdempotencyConflict)
    case Busy(_) => Some(IdempotencyInProgress)
    case TerminalFailure(_) => Some(IdempotencyTerminalFailure)
    case _ => None
  }

  function FindIdentity(identities: seq<Identity>, key: Semantic): (r: Option<nat>)
    ensures r.Some? ==> r.value < |identities| && identities[r.value].key == key
    ensures r.None? ==> forall i :: 0 <= i < |identities| ==> identities[i].key != key
  {
    if identities == [] then None
    else if identities[|identities| - 1].key == key then Some(|identities| - 1)
    else FindIdentity(identities[..|identities| - 1], key)
  }

  /** `coalesce(max(record_version), 0)` over the records of an identity. */
  function MaxVersion(origins: seq<Origin>, identity: Id): (m: nat)
    ensures forall r :: 0 <= r < |origins| && origins[r].identity == identity ==> origins[r].recordVersion <= m
    ensures m > 0 ==> exists r :: 0 <= r < |origins| && origins[r].identity == identity && origins[r].recordVersion == m
  {
    if origins == [] then 0
    else
      var rest := MaxVersion(origins[..|origins| - 1], identity);
      var o := origins[|origins| - 1];
      if o.identity == identity && o.recordVersion > rest then o.recordVersion else rest
  }

  /** Where the new record goes: its identity, its two versions, and the record it supersedes. */
  datatype Place = Place(identity: Id, identityVersion: nat, recordVersion: nat, supersedes: Option<Id>)

  function Locate(p: Project, req: PutRequest): Result<Place, Error> {
    match FindIdentity(p.identities, req.key)
    case None =>
      if req.expectedVersion != 0 || req.expectedCurrent.Some? then Err(StaleVersion)
      else Ok(Place(|p.identities|, 1, 1, None))
    case Some(i) =>
      if p.identities[i].ended then Err(IdentityEnded)
      else if p.identities[i].version != req.expectedVersion then Err(StaleVersion)
      else if i !in p.current || Some(p.current[i]) != req.expectedCurrent then Err(StaleCurrentRecord)
      else Ok(Place(i, p.identities[i].version + 1, MaxVersion(p.origins, i) + 1, Some(p.current[i])))
  }

  /** The rows after the record is in: the first record of an identity creates it, a later one advances it. */
  function Written(p: Project, key: Semantic, place: Place, claim: Id): Project {
    var record := |p.origins|;
    p.(identities :=
         if place.identity >= |p.identities| then p.identities + [Identity(key, 1, false)]
         else if place.recordVersion == 1 then p.identities
         else p.identities[place.identity := p.identities[place.identity].(version := place.identityVersion)],
       current := p.current[place.identity := record],
       origins := p.origins + [Origin(place.identity, place.identityVersion, place.recordVersion, place.supersedes, claim)])
  }

  /** The body of a put that holds the claim `token` on row `claim`. */
  function Write(p: Project, claim: Id, token: Id, req: PutRequest, c: Clocks): Result<(Project, Receipt), Error> {
    match Locate(p, req)
    case Err(e) => Err(e)
    case Ok(place) =>
      if req.sourceFault.Some? then Err(SourceRejected(req.sourceFault.value))
      else if !req.hasPolicy then Err(ReviewPolicyMissing)
      else
        var record := |p.origins|;
        match I.Finish(p.claims, claim, token, I.Succeed(Some(record)), c.finishAt)
        case Err(e) => Err(ClaimFault(e))
        case Ok(claims) =>
          Ok((Written(p, req.key, place, claim).(claims := claims),
              Receipt(place.identity, record, place.identityVersion, place.recordVersion, false)))
  }

  function ReplayPut(p: Project, reference: Option<Id>): Result<(Project, Receipt), Error> {
    if reference.None? || reference.value >= |p.origins| then Err(ResourceNotFound)
    else
      var o := p.origins[reference.value];
      Ok((p, Receipt(o.identity, reference.value, o.identityVersion, o.recordVersion, true)))
  }

  function Put(p: Project, req: PutRequest, c: Clocks): Result<(Project, Receipt), Error> {
    match I.Claim(p.claims, PutKey(req), req.fingerprint, CLAIM_SECONDS, c.now + RETENTION, c.claimAt)
    case Err(e) => Err(ClaimFault(e))
    case Ok((claims, outcome)) =>
      if Raised(outcome).Some? then Err(Raised(outcome).value)
      else match outcome
        case Replay(_, reference) => ReplayPut(p, reference)
        case _ => Write(p.(claims := claims), outcome.record, outcome.token, req, c)
  }

  function Close(p: Project, claim: Id, token: Id, req: EndRequest, c: Clocks): Result<(Project, EndReceipt), Error> {
    if req.identity >= |p.identities| then Err(ResourceNotFound)
    else
      var identity := p.identities[req.identity];
      if identity.ended then Err(IdentityEnded)
      else if identity.version != req.expectedVersion then Err(StaleVersion)
      else if req.identity !in p.current || Some(p.current[req.identity]) != req.expectedCurrent then Err(StaleCurrentRecord)
      else
        var version := identity.version + 1;
        match I.Finish(p.claims, claim, token, I.Succeed(Some(|p.endings|)), c.finishAt)
        case Err(e) => Err(ClaimFault(e))
        case Ok(claims) =>
          Ok((p.(claims := claims,
                 identities := p.identities[req.identity := identity.(version := version, ended := true)],
                 endings := p.endings + [Ending(req.identity, p.current[req.identity], version, claim)]),
              EndReceipt(req.identity, version, false)))
  }

  function ReplayEnd(p: Project, reference: Option<Id>): Result<(Project, EndReceipt), Error> {
    if reference.None? || reference.value >= |p.endings| then Err(ResourceNotFound)
    else Ok((p, EndReceipt(p.endings[reference.value].identity, p.endings[reference.value].version, true)))
  }

  function End(p: Project, req: EndRequest, c: Clocks): Result<(Project, EndReceipt), Error> {
    if req.expectedVersion < 1 then Err(InvalidEndRequest)
    else match I.Claim(p.claims, EndKey(req), req.fingerprint, CLAIM_SECONDS, c.now + RETENTION, c.claimAt)
      case Err(e) => Err(ClaimFault(e))
      case Ok((claims, outcome)) =>
        if Raised(outcome).Some? then Err(Raised(outcome).value)
        else match outcome
          case Replay(_, reference) => ReplayEnd(p, reference)
          case _ => Close(p.(claims := claims), outcome.record, outcome.token, req, c)
  }

  // ----- the invariant of every reachable project -----

  /** The version of the newest record: ending an identity counts once more than its records. */
  function Tip(p: Project, i: Id): int
    requires i < |p.identities|
  {
    p.identities[i].version - if p.identities[i].ended then 1 else 0
  }

  ghost predicate IdentityInv(p: Project, i: Id)
    requires i < |p.identities|
  {
    && Tip(p, i) >= 1
    && i in p.current && p.current[i] < |p.origins|
    && p.origins[p.current[i]].identity == i && p.origins[p.current[i]].recordVersion == Tip(p, i)
  }

  ghost predicate LinkInv(p: Project, r: Id)
    requires r < |p.origins|
  {
    var o := p.origins[r];
    && o.identity < |p.identities|
    && 1 <= o.recordVersion == o.identityVersion <= Tip(p, o.identity)
    && (o.supersedes.None? <==> o.recordVersion == 1)
    && (o.supersedes.Some? ==>
          && o.supersedes.value < r && p.origins[o.supersedes.value].identity == o.identity
          && p.origins[o.supersedes.value].recordVersion == o.recordVersion - 1)
  }

  /** A record and the completed claim that created it point at each other. */
  ghost predicate OriginClaimInv(p: Project, r: Id)
    requires r < |p.origins|
  {
    var k := p.origins[r].claim;
    && k < |p.claims.rows| && p.claims.rows[k].key.action == "CONTEXT_RECORD_PUT"
    && p.claims.rows[k].result == Some(r)
  }

  ghost predicate EndingInv(p: Project, e: Id)
    requires e < |p.endings|
  {
    var i, k := p.endings[e].identity, p.endings[e].claim;
    && i < |p.identities| && p.identities[i].ended && i in p.current
    && p.endings[e].version == p.identities[i].version && p.endings[e].endedRecord == p.current[i]
    && k < |p.claims.rows| && p.claims.rows[k].key.action == "CONTEXT_IDENTITY_END"
    && p.claims.rows[k].result == Some(e)
  }

  ghost predicate ClaimInv(p: Project, k: Id)
    requires k < |p.claims.rows|
  {
    var row := p.claims.rows[k];
    && row.state.Completed? && row.result.Some?
    && (if row.key.action == "CONTEXT_RECORD_PUT" then row.result.value < |p.origins| && p.origins[row.result.value].claim == k
        else row.key.action == "CONTEXT_IDENTITY_END" && row.result.value < |p.endings| && p.endings[row.result.value].claim == k)
  }

  ghost predicate IdentitiesInv(p: Project) {
    && (forall i :: 0 <= i < |p.identities| ==> IdentityInv(p, i))
    && (forall i, j :: 0 <= i < j < |p.identities| ==> p.identities[i].key != p.identities[j].key)
  }

  ghost predicate ChainInv(p: Project) {
    && (forall r :: 0 <= r < |p.origins| ==> LinkInv(p, r))
    && (forall r, s :: 0 <= r < s < |p.origins| && p.origins[r].identity == p.origins[s].identity ==>
          p.origins[r].recordVersion != p.origins[s].recordVersion)
  }

  ghost predicate ClaimsInv(p: Project) {
    && I.Inv(p.claims)
    && (forall k :: 0 <= k < |p.claims.rows| ==> ClaimInv(p, k))
    && (forall r :: 0 <= r < |p.origins| ==> OriginClaimInv(p, r))
  }

  ghost predicate EndingsInv(p: Project) {
    && (forall e :: 0 <= e < |p.endings| ==> EndingInv(p, e))
    && (forall d, e :: 0 <= d < e < |p.endings| ==> p.endings[d].identity != p.endings[e].identity)
    && (forall i :: 0 <= i < |p.identities| && p.identities[i].ended ==> exists e :: 0 <= e < |p.endings| && p.endings[e].identity == i)
  }

  ghost predicate Inv(p: Project) {
    IdentitiesInv(p) && ChainInv(p) && ClaimsInv(p) && EndingsInv(p)
  }

  const EMPTY := Project(I.Table([], 0), [], map[], [], [])
}
