/** Where a put goes, when it is refused, and which rows it leaves, read off the columns. */
module ContextLaws {
  import opened Prelude
  import I = Idempotency
  import opened ContextRecords
  import opened ContextRuns

  /** The identity with these semantic keys. */
  predicate IsIdentity(p: Project, i: Id, key: Semantic) {
    i < |p.identities| && p.identities[i].key == key
  }

  /**
   * A put is placed exactly when its caller knows the present state: a new identity has no version and no current record,
   * an active one has the version and the current record that the caller expects. The first difference names the error.
   */
  lemma PlaceMeans(p: Project, req: PutRequest)
    requires IdentitiesInv(p) && ChainInv(p)
    ensures (forall i: Id :: !IsIdentity(p, i, req.key)) ==>
      if req.expectedVersion == 0 && req.expectedCurrent == None then Locate(p, req) == Ok(Place(|p.identities|, 1, 1, None))
      else Locate(p, req) == Err(StaleVersion)
    ensures forall i: Id :: IsIdentity(p, i, req.key) ==>
      && i in p.current
      && Locate(p, req) ==
           if p.identities[i].ended then Err(IdentityEnded)
           else if p.identities[i].version != req.expectedVersion then Err(StaleVersion)
           else if req.expectedCurrent != Some(p.current[i]) then Err(StaleCurrentRecord)
           else Ok(Place(i, req.expectedVersion + 1, req.expectedVersion + 1, req.expectedCurrent))
  {
    var found := FindIdentity(p.identities, req.key);
    assert found.Some? ==> IsIdentity(p, found.value, req.key);
    forall i: Id | IsIdentity(p, i, req.key)
      ensures found == Some(i) && i in p.current && MaxVersion(p.origins, i) == Tip(p, i)
    {
      assert found.Some? && p.identities[found.value].key == p.identities[i].key;
      assert IdentityInv(p, i);
      TipIsMax(p, i);
    }
    hide MaxVersion, FindIdentity, ChainInv;
  }

  /** The rows of a put that wrote: its record on top of the chain of its identity, and nothing else in the context. */
  lemma PutWrites(p: Project, req: PutRequest, c: Clocks)
    requires Inv(p) && Put(p, req, c).Ok? && !Put(p, req, c).value.1.replayed
    ensures
      var (q, receipt) := Put(p, req, c).value;
      var n, i := req.expectedVersion + 1, receipt.identity;
      && req.hasPolicy && req.sourceFault == None && c.claimAt < c.now + 86400 && c.finishAt < c.claimAt + 60
      && receipt.record == |p.origins| && |q.origins| == |p.origins| + 1 && p.origins <= q.origins
      && receipt.recordVersion == n && receipt.identityVersion == n
      && q.origins[receipt.record] == Origin(i, n, n, req.expectedCurrent, |p.claims.rows|)
      && i < |q.identities| && q.identities[i] == Identity(req.key, n, false)
      && q.current == p.current[i := receipt.record]
      && (if n == 1 then i == |p.identities| && q.identities == p.identities + [Identity(req.key, 1, false)]
          else i < |p.identities| && q.identities == p.identities[i := Identity(req.key, n, false)])
      && q.endings == p.endings
      && |q.claims.rows| == |p.claims.rows| + 1 && q.claims.rows[|p.claims.rows|].result == Some(receipt.record)
      && q.claims.rows[|p.claims.rows|].key.hash == req.keyHash && q.claims.rows[|p.claims.rows|].fingerprint == req.fingerprint
  {
    PutMeans(p, req, c);
    PlaceMeans(p, req);
    LocateExtends(p, req);
    hide Put, Locate, FindIdentity, MaxVersion, ChainInv, EndingsInv;
    var place := Locate(p, req).value;
    if place.identity < |p.identities| {
      assert IdentityInv(p, place.identity);
      if !IsIdentity(p, place.identity, req.key) { PlaceIsIdentity(p, req); }
    }
  }

  lemma PlaceIsIdentity(p: Project, req: PutRequest)
    requires IdentitiesInv(p) && ChainInv(p) && Locate(p, req).Ok? && Locate(p, req).value.identity < |p.identities|
    ensures IsIdentity(p, Locate(p, req).value.identity, req.key)
  {
  }
}
