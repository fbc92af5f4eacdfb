/** Every run of puts and endings keeps the invariant of the context tables. */
module ContextRuns {
  import opened Prelude
  import I = Idempotency
  import opened ContextRecords

  datatype Step = DoPut(put: PutRequest, putClocks: Clocks) | DoEnd(end: EndRequest, endClocks: Clocks)

  function Apply(p: Project, step: Step): Project {
    match step
    case DoPut(req, c) => (match Put(p, req, c) case Ok((q, _)) => q case Err(_) => p)
    case DoEnd(req, c) => (match End(p, req, c) case Ok((q, _)) => q case Err(_) => p)
  }

  function Run(p: Project, steps: seq<Step>): Project
    decreases |steps|
  {
    if steps == [] then p else Run(Apply(p, steps[0]), steps[1..])
  }

  // ----- claims that open and complete in one transaction -----

  /** The claims after a request has claimed `key` and completed with `reference`. */
  function Settled(t: I.Table, key: I.Key, fingerprint: nat, reference: Id): I.Table {
    I.Table(t.rows + [I.Row(key, fingerprint, I.Completed, None, None, 1, None, Some(reference))], t.nextToken + 1)
  }

  /** Committed claims are all completed, so a claim is new, a replay or a conflict: nobody is ever found at work. */
  lemma ClaimOutcomes(p: Project, key: I.Key, fingerprint: nat, expiresAt: Time, at: Time)
    requires ClaimsInv(p) && at < expiresAt && key.project.Some?
    ensures match I.Find(p.claims.rows, key)
      case None =>
        I.Claim(p.claims, key, fingerprint, CLAIM_SECONDS, expiresAt, at)
          == Ok((I.Table(p.claims.rows + [I.Fresh(key, fingerprint, p.claims.nextToken, at + CLAIM_SECONDS)], p.claims.nextToken + 1),
                 I.Claimed(|p.claims.rows|, p.claims.nextToken)))
      case Some(k) =>
        I.Claim(p.claims, key, fingerprint, CLAIM_SECONDS, expiresAt, at)
          == Ok((p.claims, if p.claims.rows[k].fingerprint == fingerprint then I.Replay(k, p.claims.rows[k].result) else I.Conflict(k)))
  {
    var found := I.Find(p.claims.rows, key);
    assert found.Some? ==> ClaimInv(p, found.value);
  }

  /** A fresh claim finishes exactly when its sixty seconds have not run out. */
  lemma FinishesInTime(t: I.Table, key: I.Key, fingerprint: nat, at: Time, reference: Id, finishAt: Time)
    ensures
      var claimed := I.Table(t.rows + [I.Fresh(key, fingerprint, t.nextToken, at + CLAIM_SECONDS)], t.nextToken + 1);
      I.Finish(claimed, |t.rows|, t.nextToken, I.Succeed(Some(reference)), finishAt)
        == if finishAt < at + CLAIM_SECONDS then Ok(Settled(t, key, fingerprint, reference)) else Err(I.StaleClaim)
  {
    var rows := t.rows + [I.Fresh(key, fingerprint, t.nextToken, at + CLAIM_SECONDS)];
    var done := I.Resolved(rows[|t.rows|], I.Succeed(Some(reference)));
    assert rows[|t.rows| := done] == t.rows + [done];
  }

  lemma SettledKeepsInv(t: I.Table, key: I.Key, fingerprint: nat, reference: Id)
    requires I.Inv(t) && I.Find(t.rows, key) == None && key.project.Some?
    ensures I.Inv(Settled(t, key, fingerprint, reference))
  {
    var u := Settled(t, key, fingerprint, reference);
    forall i | 0 <= i < |u.rows| ensures I.RowInv(u, i) {
      assert i < |t.rows| ==> I.RowInv(t, i);
    }
  }

  // ----- puts -----

  /** What a put does: a known key replays or conflicts, a new one writes and completes, or changes nothing. */
  lemma PutMeans(p: Project, req: PutRequest, c: Clocks)
    requires ClaimsInv(p)
    ensures
      var found := I.Find(p.claims.rows, PutKey(req));
      if c.claimAt >= c.now + RETENTION then Put(p, req, c) == Err(ClaimFault(I.ExpiryNotInFuture))
      else if found.Some? then
        if p.claims.rows[found.value].fingerprint == req.fingerprint then Put(p, req, c) == ReplayPut(p, p.claims.rows[found.value].result)
        else Put(p, req, c) == Err(IdempotencyConflict)
      else if Locate(p, req).Err? then Put(p, req, c) == Err(Locate(p, req).error)
      else if req.sourceFault.Some? then Put(p, req, c) == Err(SourceRejected(req.sourceFault.value))
      else if !req.hasPolicy then Put(p, req, c) == Err(ReviewPolicyMissing)
      else if c.finishAt >= c.claimAt + CLAIM_SECONDS then Put(p, req, c) == Err(ClaimFault(I.StaleClaim))
      else
        var place := Locate(p, req).value;
        Put(p, req, c) == Ok((
          Written(p, req.key, place, |p.claims.rows|).(claims := Settled(p.claims, PutKey(req), req.fingerprint, |p.origins|)),
          Receipt(place.identity, |p.origins|, place.identityVersion, place.recordVersion, false)))
  {
    if c.claimAt < c.now + RETENTION {
      ClaimOutcomes(p, PutKey(req), req.fingerprint, c.now + RETENTION, c.claimAt);
      FinishesInTime(p.claims, PutKey(req), req.fingerprint, c.claimAt, |p.origins|, c.finishAt);
      hide I.Finish, I.Claim, I.Fresh, ClaimsInv, Settled;
    }
  }

  lemma TipIsMax(p: Project, i: Id)
    requires IdentitiesInv(p) && ChainInv(p) && i < |p.identities|
    ensures MaxVersion(p.origins, i) == Tip(p, i)
  {
    assert IdentityInv(p, i);
    var m := MaxVersion(p.origins, i);
    var r :| 0 <= r < |p.origins| && p.origins[r].identity == i && p.origins[r].recordVersion == m;
    assert LinkInv(p, r);
  }

  /** A located place extends the chain of its identity by one, on the current record. */
  ghost predicate Extends(p: Project, key: Semantic, place: Place) {
    if place.identity < |p.identities| then
      && !p.identities[place.identity].ended && place.identity in p.current
      && place.identityVersion == place.recordVersion == p.identities[place.identity].version + 1
      && place.supersedes == Some(p.current[place.identity])
    else
      && place == Place(|p.identities|, 1, 1, None)
      && (forall i :: 0 <= i < |p.identities| ==> p.identities[i].key != key)
  }

  lemma LocateExtends(p: Project, req: PutRequest)
    requires IdentitiesInv(p) && ChainInv(p) && Locate(p, req).Ok?
    ensures Extends(p, req.key, Locate(p, req).value)
  {
    var found := FindIdentity(p.identities, req.key);
    if found.Some? {
      TipIsMax(p, found.value);
    }
  }

  lemma WrittenKeepsIdentities(p: Project, key: Semantic, place: Place, claim: Id)
    requires IdentitiesInv(p) && Extends(p, key, place)
    ensures IdentitiesInv(Written(p, key, place, claim))
  {
    var q := Written(p, key, place, claim);
    forall i | 0 <= i < |q.identities| ensures IdentityInv(q, i) {
      assert i < |p.identities| ==> IdentityInv(p, i);
      assert place.identity < |p.identities| ==> IdentityInv(p, place.identity);
    }
    assert place.identity < |p.identities| ==> IdentityInv(p, place.identity);
    forall i, j | 0 <= i < j < |q.identities| ensures q.identities[i].key != q.identities[j].key {
    }
  }

  lemma WrittenKeepsChain(p: Project, key: Semantic, place: Place, claim: Id)
    requires IdentitiesInv(p) && ChainInv(p) && Extends(p, key, place)
    ensures ChainInv(Written(p, key, place, claim))
  {
    var q := Written(p, key, place, claim);
    assert place.identity < |p.identities| ==> IdentityInv(p, place.identity);
    forall r | 0 <= r < |q.origins| ensures LinkInv(q, r) {
      assert r < |p.origins| ==> LinkInv(p, r);
    }
    forall r, s | 0 <= r < s < |q.origins| && q.origins[r].identity == q.origins[s].identity
      ensures q.origins[r].recordVersion != q.origins[s].recordVersion
    {
      assert LinkInv(p, r);
    }
  }

  lemma WrittenKeepsClaims(p: Project, key: Semantic, place: Place, req: PutRequest)
    requires ClaimsInv(p) && I.Find(p.claims.rows, PutKey(req)) == None
    ensures
      var q := Written(p, key, place, |p.claims.rows|).(claims := Settled(p.claims, PutKey(req), req.fingerprint, |p.origins|));
      ClaimsInv(q)
  {
    var q := Written(p, key, place, |p.claims.rows|).(claims := Settled(p.claims, PutKey(req), req.fingerprint, |p.origins|));
    SettledKeepsInv(p.claims, PutKey(req), req.fingerprint, |p.origins|);
    hide I.Inv;
    forall k | 0 <= k < |q.claims.rows| ensures ClaimInv(q, k) {
      assert k < |p.claims.rows| ==> ClaimInv(p, k);
    }
    forall r | 0 <= r < |q.origins| ensures OriginClaimInv(q, r) {
      assert r < |p.origins| ==> OriginClaimInv(p, r);
    }
  }

  lemma WrittenKeepsEndings(p: Project, key: Semantic, place: Place, claim: Id, claims: I.Table)
    requires IdentitiesInv(p) && EndingsInv(p) && Extends(p, key, place) && p.claims.rows <= claims.rows
    ensures EndingsInv(Written(p, key, place, claim).(claims := claims))
  {
    var q := Written(p, key, place, claim).(claims := claims);
    assert place.identity < |p.identities| ==> IdentityInv(p, place.identity);
    forall e | 0 <= e < |q.endings| ensures EndingInv(q, e) {
      assert EndingInv(p, e);
    }
    forall i | 0 <= i < |q.identities| && q.identities[i].ended
      ensures exists e :: 0 <= e < |q.endings| && q.endings[e].identity == i
    {
      assert i < |p.identities| && p.identities[i].ended;
      var e :| 0 <= e < |p.endings| && p.endings[e].identity == i;
      assert q.endings[e].identity == i;
    }
  }

  lemma PutKeepsInv(p: Project, req: PutRequest, c: Clocks)
    requires Inv(p) && Put(p, req, c).Ok?
    ensures Inv(Put(p, req, c).value.0)
  {
    PutMeans(p, req, c);
    hide Put;
    if !Put(p, req, c).value.1.replayed {
      LocateExtends(p, req);
      var place := Locate(p, req).value;
      var claims := Settled(p.claims, PutKey(req), req.fingerprint, |p.origins|);
      WrittenKeepsIdentities(p, req.key, place, |p.claims.rows|);
      WrittenKeepsChain(p, req.key, place, |p.claims.rows|);
      WrittenKeepsClaims(p, req.key, place, req);
      WrittenKeepsEndings(p, req.key, place, |p.claims.rows|, claims);
      ClaimsDoNotMatter(Written(p, req.key, place, |p.claims.rows|), claims);
      hide IdentitiesInv, ChainInv, ClaimsInv, EndingsInv, Written, Settled;
    }
  }

  /** Identities and chains are read without looking at the claims. */
  lemma ClaimsDoNotMatter(p: Project, claims: I.Table)
    requires IdentitiesInv(p) && ChainInv(p)
    ensures IdentitiesInv(p.(claims := claims)) && ChainInv(p.(claims := claims))
  {
    var q := p.(claims := claims);
    forall i | 0 <= i < |q.identities| ensures IdentityInv(q, i) { assert IdentityInv(p, i); }
    forall r | 0 <= r < |q.origins| ensures LinkInv(q, r) { assert LinkInv(p, r); }
  }

  // ----- endings -----

  /** Whether an ending names an active identity at its current version and record. */
  function EndFault(p: Project, req: EndRequest): Option<Error> {
    if req.identity >= |p.identities| then Some(ResourceNotFound)
    else if p.identities[req.identity].ended then Some(IdentityEnded)
    else if p.identities[req.identity].version != req.expectedVersion then Some(StaleVersion)
    else if req.identity !in p.current || Some(p.current[req.identity]) != req.expectedCurrent then Some(StaleCurrentRecord)
    else None
  }

  function Closed(p: Project, req: EndRequest, claims: I.Table): Project
    requires EndFault(p, req).None?
  {
    var identity := p.identities[req.identity];
    p.(claims := claims,
       identities := p.identities[req.identity := identity.(version := identity.version + 1, ended := true)],
       endings := p.endings + [Ending(req.identity, p.current[req.identity], identity.version + 1, |p.claims.rows|)])
  }

  lemma EndMeans(p: Project, req: EndRequest, c: Clocks)
    requires ClaimsInv(p)
    ensures
      var found := I.Find(p.claims.rows, EndKey(req));
      if req.expectedVersion < 1 then End(p, req, c) == Err(InvalidEndRequest)
      else if c.claimAt >= c.now + RETENTION then End(p, req, c) == Err(ClaimFault(I.ExpiryNotInFuture))
      else if found.Some? then
        if p.claims.rows[found.value].fingerprint == req.fingerprint then End(p, req, c) == ReplayEnd(p, p.claims.rows[found.value].result)
        else End(p, req, c) == Err(IdempotencyConflict)
      else if EndFault(p, req).Some? then End(p, req, c) == Err(EndFault(p, req).value)
      else if c.finishAt >= c.claimAt + CLAIM_SECONDS then End(p, req, c) == Err(ClaimFault(I.StaleClaim))
      else End(p, req, c) == Ok((
        Closed(p, req, Settled(p.claims, EndKey(req), req.fingerprint, |p.endings|)),
        EndReceipt(req.identity, p.identities[req.identity].version + 1, false)))
  {
    if c.claimAt < c.now + RETENTION {
      ClaimOutcomes(p, EndKey(req), req.fingerprint, c.now + RETENTION, c.claimAt);
      FinishesInTime(p.claims, EndKey(req), req.fingerprint, c.claimAt, |p.endings|, c.finishAt);
      hide I.Finish, I.Claim, I.Fresh, ClaimsInv, Settled;
    }
  }

  lemma ClosedKeepsContext(p: Project, req: EndRequest, claims: I.Table)
    requires IdentitiesInv(p) && ChainInv(p) && EndFault(p, req).None?
    ensures IdentitiesInv(Closed(p, req, claims)) && ChainInv(Closed(p, req, claims))
  {
    var q := Closed(p, req, claims);
    forall i | 0 <= i < |q.identities| ensures IdentityInv(q, i) { assert IdentityInv(p, i); }
    forall r | 0 <= r < |q.origins| ensures LinkInv(q, r) { assert LinkInv(p, r); }
  }

  lemma ClosedKeepsClaims(p: Project, req: EndRequest)
    requires ClaimsInv(p) && EndFault(p, req).None? && I.Find(p.claims.rows, EndKey(req)) == None
    ensures ClaimsInv(Closed(p, req, Settled(p.claims, EndKey(req), req.fingerprint, |p.endings|)))
  {
    var q := Closed(p, req, Settled(p.claims, EndKey(req), req.fingerprint, |p.endings|));
    SettledKeepsInv(p.claims, EndKey(req), req.fingerprint, |p.endings|);
    hide I.Inv;
    forall k | 0 <= k < |q.claims.rows| ensures ClaimInv(q, k) {
      assert k < |p.claims.rows| ==> ClaimInv(p, k);
    }
    forall r | 0 <= r < |q.origins| ensures OriginClaimInv(q, r) {
      assert OriginClaimInv(p, r);
    }
  }

  lemma ClosedKeepsEndings(p: Project, req: EndRequest)
    requires EndingsInv(p) && EndFault(p, req).None?
    ensures EndingsInv(Closed(p, req, Settled(p.claims, EndKey(req), req.fingerprint, |p.endings|)))
  {
    var q := Closed(p, req, Settled(p.claims, EndKey(req), req.fingerprint, |p.endings|));
    forall e | 0 <= e < |q.endings| ensures EndingInv(q, e) {
      assert e < |p.endings| ==> EndingInv(p, e);
    }
    forall i | 0 <= i < |q.identities| && q.identities[i].ended
      ensures exists e :: 0 <= e < |q.endings| && q.endings[e].identity == i
    {
      if i == req.identity {
        assert q.endings[|p.endings|].identity == i;
      } else {
        var e :| 0 <= e < |p.endings| && p.endings[e].identity == i;
        assert q.endings[e].identity == i;
      }
    }
    forall d, e | 0 <= d < e < |q.endings| ensures q.endings[d].identity != q.endings[e].identity {
      assert EndingInv(p, d);
    }
  }

  lemma EndKeepsInv(p: Project, req: EndRequest, c: Clocks)
    requires Inv(p) && End(p, req, c).Ok?
    ensures Inv(End(p, req, c).value.0)
  {
    EndMeans(p, req, c);
    hide End;
    if !End(p, req, c).value.1.replayed {
      ClosedKeepsContext(p, req, Settled(p.claims, EndKey(req), req.fingerprint, |p.endings|));
      ClosedKeepsClaims(p, req);
      ClosedKeepsEndings(p, req);
      hide IdentitiesInv, ChainInv, ClaimsInv, EndingsInv, Closed, Settled;
    }
  }

  // ----- runs -----

  lemma EmptyInv()
    ensures Inv(EMPTY)
  {
  }

  lemma StepKeepsInv(p: Project, step: Step)
    requires Inv(p)
    ensures Inv(Apply(p, step))
  {
    hide Inv, Put, End;
    match step
    case DoPut(req, c) => if Put(p, req, c).Ok? { PutKeepsInv(p, req, c); }
    case DoEnd(req, c) => if End(p, req, c).Ok? { EndKeepsInv(p, req, c); }
  }

  lemma {:induction false} RunKeepsInv(p: Project, steps: seq<Step>)
    requires Inv(p)
    ensures Inv(Run(p, steps))
    decreases |steps|
  {
    hide Inv, Apply;
    if steps != [] {
      StepKeepsInv(p, steps[0]);
      RunKeepsInv(Apply(p, steps[0]), steps[1..]);
    }
  }
}
