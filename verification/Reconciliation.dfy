/**
 * Committing a reconciliation result: the basis read while loading the material carries version stamps, and the commit
 * raises unless every stamp still has its value. Around it run the authority, ingestion and context protocols.
 */
module Reconciliation {
  import opened Prelude
  import opened VersionSums
  import AH = AuthorityHistory
  import U = Ingestion
  import UR = IngestionRuns
  import CR = ContextRecords
  import CS = ContextRuns

  datatype Classification = New | Changed | Superseded | Conflicting | Obsolete | Uncertain | Unchanged

  /** A working context item: what a candidate asserts about an identity, and when it was last written. */
  datatype Item = Item(candidate: Id, identity: Id, assertion: nat, at: Time)

  datatype Record = Record(candidate: Id, hash: nat, identity: Id, classification: Classification, item: Option<Id>)

  datatype World = World(
    authority: AH.History,
    units: seq<U.Unit>,
    context: CR.Project,
    integrity: map<Id, nat>,
    items: seq<Item>,
    records: seq<Record>,
    latest: map<Id, Id>)

  datatype Basis = Basis(
    candidate: Id, identity: Id, currentRecord: Option<Id>, contextVersion: nat,
    workingVersion: int, authorityVersion: nat, frontierVersion: nat, integrityVersion: nat)

  datatype Request = Request(
    basis: Basis, hash: nat, classification: Classification, conflict: bool, uncertain: bool, assertion: Option<nat>)

  datatype Error =
    | InvalidResult | StaleReviewedContext | StaleAuthority | StaleFrontier | StaleIntegrity | StaleWorkingContext

  datatype Receipt = Receipt(record: Id, item: Option<Id>, replayed: bool)

  // ----- the stamps -----

  function ScopeVersions(h: AH.History): seq<nat> {
    seq(|h.scopes|, s requires 0 <= s < |h.scopes| => h.scopes[s].version)
  }

  function FrontierCount(u: U.Unit): nat {
    u.observed.GetOr(0) + u.desired.GetOr(0) + u.ingested.GetOr(0)
  }

  function FrontierCounts(units: seq<U.Unit>): seq<nat> {
    seq(|units|, i requires 0 <= i < |units| => FrontierCount(units[i]))
  }

  /** `max(coalesce(reconciled_at, recorded_at))` over the identity's items, or zero without any. */
  function WorkingVersion(items: seq<Item>, identity: Id): int {
    if items == [] then 0
    else
      var rest, item := WorkingVersion(items[..|items| - 1], identity), items[|items| - 1];
      if item.identity != identity then rest
      else if HasItem(items[..|items| - 1], identity) && rest > item.at then rest
      else item.at
  }

  predicate HasItem(items: seq<Item>, identity: Id) {
    exists i :: 0 <= i < |items| && items[i].identity == identity
  }

  function CurrentRecord(p: CR.Project, identity: Id): Option<Id> {
    if identity in p.current then Some(p.current[identity]) else None
  }

  /** What `loadMaterial` reads for a candidate of an identity. */
  function BasisOf(w: World, candidate: Id, identity: Id): Basis
    requires identity < |w.context.identities|
  {
    Basis(candidate, identity, CurrentRecord(w.context, identity), w.context.identities[identity].version,
          WorkingVersion(w.items, identity), Sum(ScopeVersions(w.authority)), Sum(FrontierCounts(w.units)),
          if identity in w.integrity then w.integrity[identity] else 0)
  }

  // ----- the commit -----

  function FindRecord(records: seq<Record>, candidate: Id, hash: nat): (r: Option<nat>)
    ensures r.Some? ==> r.value < |records| && records[r.value].candidate == candidate && records[r.value].hash == hash
    ensures r.None? ==> forall i :: 0 <= i < |records| ==> !(records[i].candidate == candidate && records[i].hash == hash)
  {
    if records == [] then None
    else if records[|records| - 1].candidate == candidate && records[|records| - 1].hash == hash then Some(|records| - 1)
    else FindRecord(records[..|records| - 1], candidate, hash)
  }

  function FindItem(items: seq<Item>, candidate: Id): (r: Option<nat>)
    ensures r.Some? ==> r.value < |items| && items[r.value].candidate == candidate
  {
    if items == [] then None
    else if items[|items| - 1].candidate == candidate then Some(|items| - 1)
    else FindItem(items[..|items| - 1], candidate)
  }

  predicate WellFormed(req: Request) {
    && (req.classification.Conflicting? <==> req.conflict)
    && (req.classification.Uncertain? <==> req.uncertain)
    && (req.classification.Unchanged? <==> req.assertion.None?)
  }

  /** Why a commit is refused as stale, in the order of the checks. */
  function Staleness(w: World, b: Basis): Option<Error> {
    if b.identity >= |w.context.identities| || w.context.identities[b.identity].ended
       || w.context.identities[b.identity].version != b.contextVersion
    then Some(StaleReviewedContext)
    else if CurrentRecord(w.context, b.identity) != b.currentRecord then Some(StaleReviewedContext)
    else if Sum(ScopeVersions(w.authority)) != b.authorityVersion then Some(StaleAuthority)
    else if Sum(FrontierCounts(w.units)) != b.frontierVersion then Some(StaleFrontier)
    else if (if b.identity in w.integrity then w.integrity[b.identity] else 0) != b.integrityVersion then Some(StaleIntegrity)
    else if WorkingVersion(w.items, b.identity) != b.workingVersion then Some(StaleWorkingContext)
    else None
  }

  /** The working item a result writes: the candidate's own, or a new one. */
  function Upsert(items: seq<Item>, b: Basis, assertion: nat, now: Time): (seq<Item>, Id) {
    var item := Item(b.candidate, b.identity, assertion, now);
    match FindItem(items, b.candidate)
    case Some(i) => (items[i := item], i)
    case None => (items + [item], |items|)
  }

  function Recorded(w: World, req: Request, now: Time): (World, Receipt) {
    var b := req.basis;
    var (items, item) :=
      match req.assertion
      case None => (w.items, None)
      case Some(assertion) => var (after, i) := Upsert(w.items, b, assertion, now); (after, Some(i));
    var record := |w.records|;
    (w.(items := items,
        records := w.records + [Record(b.candidate, req.hash, b.identity, req.classification, item)],
        latest := w.latest[b.candidate := record]),
     Receipt(record, item, false))
  }

  function Commit(w: World, req: Request, now: Time): Result<(World, Receipt), Error> {
    if !WellFormed(req) then Err(InvalidResult)
    else match FindRecord(w.records, req.basis.candidate, req.hash)
      case Some(r) => Ok((w, Receipt(r, w.records[r].item, true)))
      case None =>
        match Staleness(w, req.basis)
        case Some(e) => Err(e)
        case None => Ok(Recorded(w, req, now))
  }

  // ----- the invariant -----

  ghost predicate UnitsInv(w: World) {
    forall i :: 0 <= i < |w.units| ==> U.Inv(w.units[i]) && w.units[i].observed.Some?
  }

  /** One record per candidate and basis; the current pointer of a candidate is its newest record. */
  ghost predicate RecordsInv(w: World) {
    && (forall i, j :: 0 <= i < j < |w.records| && w.records[i].candidate == w.records[j].candidate ==> w.records[i].hash != w.records[j].hash)
    && (forall c :: c in w.latest ==> w.latest[c] < |w.records| && w.records[w.latest[c]].candidate == c)
    && (forall i :: 0 <= i < |w.records| ==> w.records[i].candidate in w.latest && i <= w.latest[w.records[i].candidate])
  }

  ghost predicate Inv(w: World) {
    AH.Inv(w.authority) && UnitsInv(w) && CR.Inv(w.context) && RecordsInv(w)
  }

  const EMPTY := World(AH.EMPTY, [], CR.EMPTY, map[], [], [], map[])

  // ----- runs: every protocol that writes what a basis stamps -----

  datatype Step =
    | AuthorityStep(authority: AH.Step)
    | IngestionStep(ref: nat, ingestion: UR.Step)
    | ContextStep(context: CS.Step)
    | IntegrityStep(identity: Id, occurrences: nat)
    | SubmitStep(item: Item)
    | CommitStep(request: Request, now: Time)

  /** The units after a step on one of them; the first observation of a ref inserts its rows. */
  ghost function Ingested(units: seq<U.Unit>, ref: nat, step: UR.Step): seq<U.Unit>
    requires forall i :: 0 <= i < |units| ==> U.Inv(units[i])
  {
    if ref < |units| then units[ref := UR.Apply(units[ref], step)]
    else
      UR.EmptyInv();
      var inserted := UR.Apply(U.EMPTY, step);
      if inserted.observed.Some? then units + [inserted] else units
  }

  ghost function Apply(w: World, step: Step): World
    requires Inv(w)
  {
    match step
    case AuthorityStep(s) => w.(authority := AH.Apply(w.authority, s))
    case IngestionStep(ref, s) => w.(units := Ingested(w.units, ref, s))
    case ContextStep(s) => w.(context := CS.Apply(w.context, s))
    case IntegrityStep(identity, n) => w.(integrity := w.integrity[identity := n])
    case SubmitStep(item) => w.(items := w.items + [item])
    case CommitStep(req, now) => (match Commit(w, req, now) case Ok((v, _)) => v case Err(_) => w)
  }
}
