/** Exactly when a result commits, the order of the refusals, and what is written. */
module ReconciliationLaws {
  import opened Prelude
  import opened VersionSums
  import CR = ContextRecords
  import opened Reconciliation
  import opened ReconciliationTheorems
  import opened WorkingStamp

  /** The integrity number of an identity; one that was never written is zero. */
  function IntegrityOf(w: World, identity: Id): nat {
    if identity in w.integrity then w.integrity[identity] else 0
  }

  /** The six stamps of a basis against their present values, in the order in which they are compared. */
  predicate SameReviewed(w: World, b: Basis) {
    && b.identity < |w.context.identities| && !w.context.identities[b.identity].ended
    && w.context.identities[b.identity].version == b.contextVersion
    && b.currentRecord == if b.identity in w.context.current then Some(w.context.current[b.identity]) else None
  }

  predicate SameAuthority(w: World, b: Basis) { b.authorityVersion == Sum(ScopeVersions(w.authority)) }
  predicate SameFrontier(w: World, b: Basis) { b.frontierVersion == Sum(FrontierCounts(w.units)) }
  predicate SameIntegrity(w: World, b: Basis) { b.integrityVersion == IntegrityOf(w, b.identity) }
  predicate SameWorking(w: World, b: Basis) { b.workingVersion == WorkingVersion(w.items, b.identity) }

  /** The class agrees with the two flags and with whether there is an assertion. */
  predicate Agreeing(req: Request) {
    && (req.classification == Conflicting <==> req.conflict) && (req.classification == Uncertain <==> req.uncertain)
    && (req.classification == Unchanged <==> req.assertion == None)
  }

  predicate OnRecord(w: World, candidate: Id, hash: nat) {
    exists i :: 0 <= i < |w.records| && w.records[i].candidate == candidate && w.records[i].hash == hash
  }

  function FirstFault(w: World, req: Request): Error {
    if !Agreeing(req) then InvalidResult
    else if !SameReviewed(w, req.basis) then StaleReviewedContext
    else if !SameAuthority(w, req.basis) then StaleAuthority
    else if !SameFrontier(w, req.basis) then StaleFrontier
    else if !SameIntegrity(w, req.basis) then StaleIntegrity
    else StaleWorkingContext
  }

  /**
   * A result without a record on its basis commits exactly when it is well formed and every stamp has its present value.
   * Otherwise the first stamp that differs names the error.
   */
  lemma CommitsExactlyWhen(w: World, req: Request, now: Time)
    requires !OnRecord(w, req.basis.candidate, req.hash)
    ensures
      var r, b := Commit(w, req, now), req.basis;
      && (r.Ok? <==> Agreeing(req) && SameReviewed(w, b) && SameAuthority(w, b) && SameFrontier(w, b) && SameIntegrity(w, b) && SameWorking(w, b))
      && (r.Ok? ==> !r.value.1.replayed)
      && (r.Err? ==> r.error == FirstFault(w, req))
  {
    hide Sum, WorkingVersion;
  }

  /** What a committed result leaves: its record, its working item unless nothing changed, and the candidate's pointer. */
  lemma CommittedRows(w: World, req: Request, now: Time)
    requires !OnRecord(w, req.basis.candidate, req.hash) && Commit(w, req, now).Ok?
    ensures
      var (v, receipt) := Commit(w, req, now).value;
      var b := req.basis;
      && receipt.record == |w.records| && |v.records| == |w.records| + 1 && w.records <= v.records
      && v.records[receipt.record] == Record(b.candidate, req.hash, b.identity, req.classification, receipt.item)
      && (receipt.item.Some? <==> req.assertion.Some?)
      && (req.assertion == None ==> v.items == w.items)
      && (req.assertion.Some? ==>
            var i := receipt.item.value;
            && i < |v.items| && v.items[i] == Item(b.candidate, b.identity, req.assertion.value, now)
            && |v.items| == (if i < |w.items| then |w.items| else |w.items| + 1)
            && (i < |w.items| ==> w.items[i].candidate == b.candidate)
            && (i >= |w.items| ==> forall j :: 0 <= j < |w.items| ==> w.items[j].candidate != b.candidate)
            && (forall j :: 0 <= j < |w.items| && j != i ==> v.items[j] == w.items[j]))
      && b.candidate in v.latest && v.latest[b.candidate] == receipt.record
      && (forall c :: c != b.candidate ==> (c in v.latest <==> c in w.latest) && (c in w.latest ==> v.latest[c] == w.latest[c]))
      && v.authority == w.authority && v.units == w.units && v.context == w.context && v.integrity == w.integrity
  {
    CommitsExactlyWhen(w, req, now);
    hide Staleness, Sum, WorkingVersion;
    assert FindRecord(w.records, req.basis.candidate, req.hash) == None;
    NoItemFound(w.items, req.basis.candidate);
  }

  lemma {:induction false} NoItemFound(items: seq<Item>, candidate: Id)
    ensures FindItem(items, candidate) == None ==> forall j :: 0 <= j < |items| ==> items[j].candidate != candidate
  {
    if items != [] {
      NoItemFound(items[..|items| - 1], candidate);
      assert forall j :: 0 <= j < |items| - 1 ==> items[j] == items[..|items| - 1][j];
    }
  }

  /**
   * Whatever ran since the material was loaded, a result that commits meets the integrity number it was loaded with. With
   * `CommitSeesItsBasis` and `CommitSeesItsItems` that is every stamp of its basis.
   */
  lemma {:induction false} CommitSeesItsIntegrity(w: World, steps: seq<Step>, candidate: Id, identity: Id, req: Request, now: Time)
    requires Inv(w) && identity < |w.context.identities| && req.basis == BasisOf(w, candidate, identity)
    requires !OnRecord(Run(w, steps), candidate, req.hash) && Commit(Run(w, steps), req, now).Ok?
    ensures IntegrityOf(Run(w, steps), identity) == IntegrityOf(w, identity)
  {
    CommitsExactlyWhen(Run(w, steps), req, now);
    hide Inv, Run, Commit, Sum, WorkingVersion;
  }
}
