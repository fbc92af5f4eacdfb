/** What the context tables promise over whole runs. */
module ContextTheorems {
  import opened Prelude
  import I = Idempotency
  import opened ContextRecords
  import opened ContextRuns

  // ----- constraints and triggers never reject -----

  /** The constraints of a record origin: positive versions, one record per version, one successor per record. */
  ghost predicate OriginAllowed(p: Project, o: Origin) {
    && o.identityVersion > 0 && o.recordVersion > 0
    && (o.supersedes.None? <==> o.recordVersion == 1)
    && (forall r :: 0 <= r < |p.origins| && p.origins[r].identity == o.identity ==>
          p.origins[r].recordVersion != o.recordVersion && (o.supersedes.Some? ==> p.origins[r].supersedes != o.supersedes))
  }

  /** The identity trigger: the version advances by one and only an active identity changes. */
  predicate TransitionAllowed(before: Identity, after: Identity) {
    after.key == before.key && after.version == before.version + 1 && !before.ended
  }

  /** The row a put inserts or updates is always accepted: the current pointer exists exactly when it is updated. */
  lemma PutPassesConstraints(p: Project, req: PutRequest)
    requires Inv(p) && Locate(p, req).Ok?
    ensures
      var place := Locate(p, req).value;
      && OriginAllowed(p, Origin(place.identity, place.identityVersion, place.recordVersion, place.supersedes, |p.claims.rows|))
      && (place.recordVersion == 1 <==> place.identity !in p.current || place.identity >= |p.identities|)
      && (place.recordVersion > 1 ==>
            TransitionAllowed(p.identities[place.identity], Written(p, req.key, place, |p.claims.rows|).identities[place.identity]))
  {
    LocateExtends(p, req);
    var place := Locate(p, req).value;
    assert place.identity < |p.identities| ==> IdentityInv(p, place.identity);
    forall r | 0 <= r < |p.origins| && p.origins[r].identity == place.identity
      ensures p.origins[r].recordVersion != place.recordVersion && (place.supersedes.Some? ==> p.origins[r].supersedes != place.supersedes)
    {
      assert LinkInv(p, r);
    }
  }

  lemma EndPassesConstraints(p: Project, req: EndRequest)
    requires Inv(p) && EndFault(p, req).None?
    ensures
      && TransitionAllowed(p.identities[req.identity], Closed(p, req, p.claims).identities[req.identity])
      && Closed(p, req, p.claims).identities[req.identity].version > 1
      && forall e :: 0 <= e < |p.endings| ==> p.endings[e].identity != req.identity
  {
    assert IdentityInv(p, req.identity);
    forall e | 0 <= e < |p.endings| ensures p.endings[e].identity != req.identity {
      assert EndingInv(p, e);
    }
  }

  // ----- what later states keep -----

  ghost predicate Grows(p: Project, q: Project) {
    && p.claims.rows <= q.claims.rows && p.origins <= q.origins && p.endings <= q.endings
    && |p.identities| <= |q.identities|
    && (forall i :: 0 <= i < |p.identities| ==> IdentityGrows(p.identities[i], q.identities[i]))
  }

  /** Versions only rise, every change raises them, and an ended identity is frozen. */
  predicate IdentityGrows(a: Identity, b: Identity) {
    b.key == a.key && a.version <= b.version && (a.version == b.version ==> b == a) && (a.ended ==> b == a)
  }

  lemma PutGrows(p: Project, req: PutRequest, c: Clocks)
    requires Inv(p) && Put(p, req, c).Ok?
    ensures Grows(p, Put(p, req, c).value.0)
    ensures Put(p, req, c).value.1.replayed ==> Put(p, req, c).value.0 == p
  {
    PutMeans(p, req, c);
    hide Put;
    if !Put(p, req, c).value.1.replayed {
      LocateExtends(p, req);
    }
  }

  lemma EndGrows(p: Project, req: EndRequest, c: Clocks)
    requires Inv(p) && End(p, req, c).Ok?
    ensures Grows(p, End(p, req, c).value.0)
    ensures End(p, req, c).value.1.replayed ==> End(p, req, c).value.0 == p
  {
    EndMeans(p, req, c);
    hide End;
  }

  lemma StepGrows(p: Project, step: Step)
    requires Inv(p)
    ensures Grows(p, Apply(p, step))
  {
    hide Inv, Put, End;
    match step
    case DoPut(req, c) => if Put(p, req, c).Ok? { PutGrows(p, req, c); }
    case DoEnd(req, c) => if End(p, req, c).Ok? { EndGrows(p, req, c); }
  }

  lemma {:induction false} RunGrows(p: Project, steps: seq<Step>)
    requires Inv(p)
    ensures Inv(Run(p, steps)) && Grows(p, Run(p, steps))
    decreases |steps|
  {
    RunKeepsInv(p, steps);
    hide Inv, Apply;
    if steps != [] {
      var q := Apply(p, steps[0]);
      StepKeepsInv(p, steps[0]);
      StepGrows(p, steps[0]);
      RunGrows(q, steps[1..]);
      assert forall i :: 0 <= i < |p.identities| ==> IdentityGrows(p.identities[i], q.identities[i]);
    }
  }

  // ----- exactly once -----

  predicate IsPut(p: Project, k: Id) {
    k < |p.claims.rows| && p.claims.rows[k].key.action == "CONTEXT_RECORD_PUT"
  }

  /** Records and completed put claims correspond one to one. */
  lemma RecordsMatchPuts(p: Project)
    requires Inv(p)
    ensures forall r :: 0 <= r < |p.origins| ==> IsPut(p, p.origins[r].claim) && p.claims.rows[p.origins[r].claim].state.Completed?
    ensures forall r, s :: 0 <= r < s < |p.origins| ==> p.origins[r].claim != p.origins[s].claim
    ensures forall k | IsPut(p, k) :: exists r :: 0 <= r < |p.origins| && p.origins[r].claim == k
  {
    forall r | 0 <= r < |p.origins|
      ensures IsPut(p, p.origins[r].claim) && p.claims.rows[p.origins[r].claim].state.Completed?
      ensures p.claims.rows[p.origins[r].claim].result == Some(r)
    {
      assert OriginClaimInv(p, r);
      assert ClaimInv(p, p.origins[r].claim);
    }
    forall k | IsPut(p, k) ensures exists r :: 0 <= r < |p.origins| && p.origins[r].claim == k {
      assert ClaimInv(p, k);
    }
  }

  /** Endings and completed end claims correspond one to one, and so do endings and ended identities. */
  lemma EndingsMatchEnds(p: Project)
    requires Inv(p)
    ensures forall e :: 0 <= e < |p.endings| ==> p.endings[e].claim < |p.claims.rows| && !IsPut(p, p.endings[e].claim)
    ensures forall d, e :: 0 <= d < e < |p.endings| ==>
      p.endings[d].claim != p.endings[e].claim && p.endings[d].identity != p.endings[e].identity
    ensures forall k | 0 <= k < |p.claims.rows| && !IsPut(p, k) :: exists e :: 0 <= e < |p.endings| && p.endings[e].claim == k
    ensures forall i | 0 <= i < |p.identities| ::
      p.identities[i].ended <==> exists e :: 0 <= e < |p.endings| && p.endings[e].identity == i
  {
    forall e | 0 <= e < |p.endings|
      ensures p.endings[e].claim < |p.claims.rows| && !IsPut(p, p.endings[e].claim)
      ensures p.claims.rows[p.endings[e].claim].result == Some(e)
      ensures p.endings[e].identity < |p.identities| && p.identities[p.endings[e].identity].ended
    {
      assert EndingInv(p, e);
    }
    forall k | 0 <= k < |p.claims.rows| && !IsPut(p, k) ensures exists e :: 0 <= e < |p.endings| && p.endings[e].claim == k {
      assert ClaimInv(p, k);
    }
  }

  /** Over any run, every new claim paid for exactly one new record or ending, and the other way round. */
  lemma {:induction false} RunBalances(p: Project, steps: seq<Step>)
    requires Inv(p)
    ensures var q := Run(p, steps);
      |q.claims.rows| - |p.claims.rows| == (|q.origins| - |p.origins|) + (|q.endings| - |p.endings|)
    decreases |steps|
  {
    hide Inv, Put, End;
    if steps != [] {
      var q := Apply(p, steps[0]);
      StepKeepsInv(p, steps[0]);
      assert ClaimsInv(p) by { InvParts(p); }
      match steps[0] {
        case DoPut(req, c) => PutMeans(p, req, c);
        case DoEnd(req, c) => EndMeans(p, req, c);
      }
      RunBalances(q, steps[1..]);
    }
  }

  lemma InvParts(p: Project)
    requires Inv(p)
    ensures IdentitiesInv(p) && ChainInv(p) && ClaimsInv(p) && EndingsInv(p)
  {
  }

  /**
   * A request that succeeded is answered with its original receipt for ever, whatever else the repetition says, and
   * the same key with another fingerprint is refused; neither changes anything.
   */
  lemma PutReplaysForever(p: Project, req: PutRequest, c: Clocks, steps: seq<Step>, again: PutRequest, later: Clocks)
    requires Inv(p) && Put(p, req, c).Ok?
    requires PutKey(again) == PutKey(req) && later.claimAt < later.now + RETENTION
    ensures
      var (q, receipt) := Put(p, req, c).value;
      var u := Run(q, steps);
      Put(u, again, later) == if again.fingerprint == req.fingerprint then Ok((u, receipt.(replayed := true))) else Err(IdempotencyConflict)
  {
    var (q, receipt) := Put(p, req, c).value;
    PutKeepsInv(p, req, c);
    RunGrows(q, steps);
    var u := Run(q, steps);
    PutRecordsReceipt(p, req, c);
    var k :| 0 <= k < |q.claims.rows| && q.claims.rows[k].key == PutKey(req) && q.claims.rows[k].fingerprint == req.fingerprint
      && q.claims.rows[k].result == Some(receipt.record);
    assert u.claims.rows[k] == q.claims.rows[k];
    FindsRow(u.claims, k);
    PutMeans(u, again, later);
    assert u.origins[receipt.record] == q.origins[receipt.record];
    hide Put, Inv, Grows;
  }

  lemma FindsRow(t: I.Table, k: Id)
    requires I.Inv(t) && k < |t.rows|
    ensures I.Find(t.rows, t.rows[k].key) == Some(k)
  {
  }

  /** After a put, its claim row holds the record of the receipt, and that record says what the receipt says. */
  lemma PutRecordsReceipt(p: Project, req: PutRequest, c: Clocks)
    requires Inv(p) && Put(p, req, c).Ok?
    ensures
      var (q, receipt) := Put(p, req, c).value;
      && (exists k :: 0 <= k < |q.claims.rows| && q.claims.rows[k].key == PutKey(req)
            && q.claims.rows[k].fingerprint == req.fingerprint && q.claims.rows[k].result == Some(receipt.record))
      && receipt.record < |q.origins| && q.origins[receipt.record].identity == receipt.identity
      && q.origins[receipt.record].identityVersion == receipt.identityVersion
      && q.origins[receipt.record].recordVersion == receipt.recordVersion
  {
    PutMeans(p, req, c);
    var (q, receipt) := Put(p, req, c).value;
    hide Put, Inv;
    var found := I.Find(p.claims.rows, PutKey(req));
    var k := if found.Some? then found.value else |p.claims.rows|;
    assert q.claims.rows[k].key == PutKey(req) && q.claims.rows[k].result == Some(receipt.record);
  }

  // ----- no lost update -----

  /** A write advances its identity from exactly the version the writer expected. */
  lemma PutSpendsVersion(p: Project, req: PutRequest, c: Clocks)
    requires Inv(p) && Put(p, req, c).Ok? && !Put(p, req, c).value.1.replayed
    ensures
      var (q, receipt) := Put(p, req, c).value;
      && receipt.identityVersion == receipt.recordVersion == req.expectedVersion + 1
      && receipt.identity < |q.identities| && !q.identities[receipt.identity].ended
      && q.identities[receipt.identity].key == req.key && q.identities[receipt.identity].version == req.expectedVersion + 1
      && receipt.identity in q.current && q.current[receipt.identity] == receipt.record
  {
    PutMeans(p, req, c);
    LocateExtends(p, req);
    hide Put;
    var place := Locate(p, req).value;
    assert place.identity < |p.identities| ==> IdentityInv(p, place.identity);
  }

  /** Version and record numbers a writer expected are spent by the first write that matches them. */
  lemma StaleWritersLose(p: Project, req: PutRequest, c: Clocks, steps: seq<Step>, rival: PutRequest, later: Clocks)
    requires Inv(p) && Put(p, req, c).Ok? && !Put(p, req, c).value.1.replayed
    requires rival.key == req.key && rival.expectedVersion <= req.expectedVersion
    ensures var u := Run(Put(p, req, c).value.0, steps);
      Put(u, rival, later).Ok? ==> Put(u, rival, later).value.1.replayed
  {
    var (q, receipt) := Put(p, req, c).value;
    PutKeepsInv(p, req, c);
    RunGrows(q, steps);
    var u := Run(q, steps);
    PutSpendsVersion(p, req, c);
    PutMeans(u, rival, later);
    hide Put, Run;
    var i := receipt.identity;
    assert IdentityGrows(q.identities[i], u.identities[i]);
    FindsIdentity(u, i);
  }

  lemma FindsIdentity(p: Project, i: Id)
    requires IdentitiesInv(p) && i < |p.identities|
    ensures FindIdentity(p.identities, p.identities[i].key) == Some(i)
  {
  }

  /** An ended identity takes no further record and no second ending. */
  lemma EndedStaysEnded(p: Project, i: Id, steps: seq<Step>, put: PutRequest, end: EndRequest, c: Clocks)
    requires Inv(p) && i < |p.identities| && p.identities[i].ended
    requires put.key == p.identities[i].key && end.identity == i
    ensures
      var u := Run(p, steps);
      && i < |u.identities| && u.identities[i] == p.identities[i]
      && (Put(u, put, c).Ok? ==> Put(u, put, c).value.1.replayed)
      && (End(u, end, c).Ok? ==> End(u, end, c).value.1.replayed)
  {
    RunGrows(p, steps);
    var u := Run(p, steps);
    assert IdentityGrows(p.identities[i], u.identities[i]);
    FindsIdentity(u, i);
    PutMeans(u, put, c);
    EndMeans(u, end, c);
  }
}
