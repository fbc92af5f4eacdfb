/** The context tables as the database functions update them. */
module ContextStore {
  import opened Prelude
  import I = Idempotency
  import IdempotencyStore
  import C = ContextRecords
  import R = ContextRuns

  class Store {
    const claims: IdempotencyStore.Store
    var identities: seq<C.Identity>
    var current: map<Id, Id>
    var origins: seq<C.Origin>
    var endings: seq<C.Ending>

    ghost function Rows(): C.Project
      reads this, claims
    {
      C.Project(claims.Table(), identities, current, origins, endings)
    }

    constructor ()
      ensures Rows() == C.EMPTY && C.Inv(Rows()) && fresh(claims)
    {
      claims := new IdempotencyStore.Store();
      identities, current, origins, endings := [], map[], [], [];
    }

    method FindIdentity(key: C.Semantic) returns (found: Option<nat>)
      ensures found == C.FindIdentity(identities, key)
    {
      var i := |identities|;
      assert identities[..i] == identities;
      while i > 0
        invariant 0 <= i <= |identities|
        invariant C.FindIdentity(identities, key) == C.FindIdentity(identities[..i], key)
      {
        assert identities[..i][..i - 1] == identities[..i - 1];
        if identities[i - 1].key == key { return Some(i - 1); }
        i := i - 1;
      }
      found := None;
    }

    /** `select coalesce(max(record_version), 0)` */
    method MaxVersion(identity: Id) returns (m: nat)
      ensures m == C.MaxVersion(origins, identity)
    {
      m := 0;
      for r := 0 to |origins|
        invariant m == C.MaxVersion(origins[..r], identity)
      {
        assert origins[..r + 1][..r] == origins[..r];
        if origins[r].identity == identity && origins[r].recordVersion > m { m := origins[r].recordVersion; }
      }
      assert origins[..|origins|] == origins;
    }

    /** One transaction: the statements run, and an exception undoes whatever they wrote. */
    method Put(req: C.PutRequest, c: C.Clocks) returns (r: Result<C.Receipt, C.Error>)
      requires C.Inv(Rows())
      modifies this, claims
      ensures C.Inv(Rows())
      ensures match C.Put(old(Rows()), req, c)
              case Ok((p, receipt)) => r == Ok(receipt) && Rows() == p
              case Err(e) => r == Err(e) && Rows() == old(Rows())
    {
      R.StepKeepsInv(Rows(), R.DoPut(req, c));
      var before := (claims.rows, claims.nextToken, identities, current, origins, endings);
      r := RunPut(req, c);
      if r.Err? {
        claims.rows, claims.nextToken, identities, current, origins, endings :=
          before.0, before.1, before.2, before.3, before.4, before.5;
      }
    }

    method RunPut(req: C.PutRequest, c: C.Clocks) returns (r: Result<C.Receipt, C.Error>)
      requires C.Inv(Rows())
      modifies this, claims
      ensures match C.Put(old(Rows()), req, c)
              case Ok((p, receipt)) => r == Ok(receipt) && Rows() == p
              case Err(e) => r == Err(e)
    {
      var claim := claims.Claim(C.PutKey(req), req.fingerprint, C.CLAIM_SECONDS, c.now + C.RETENTION, c.claimAt);
      if claim.Err? { return Err(C.ClaimFault(claim.error)); }
      match claim.value {
        case Conflict(_) => return Err(C.IdempotencyConflict);
        case Busy(_) => return Err(C.IdempotencyInProgress);
        case TerminalFailure(_) => return Err(C.IdempotencyTerminalFailure);
        case Replay(_, reference) =>
          if reference.None? || reference.value >= |origins| { return Err(C.ResourceNotFound); }
          var o := origins[reference.value];
          return Ok(C.Receipt(o.identity, reference.value, o.identityVersion, o.recordVersion, true));
        case Claimed(record, token) => r := WriteRecord(req, c, record, token);
        case RetryClaimed(record, token) => r := WriteRecord(req, c, record, token);
      }
    }

    method WriteRecord(req: C.PutRequest, c: C.Clocks, claim: Id, token: Id) returns (r: Result<C.Receipt, C.Error>)
      requires I.Inv(claims.Table())
      modifies this, claims
      ensures match C.Write(old(Rows()), claim, token, req, c)
              case Ok((p, receipt)) => r == Ok(receipt) && Rows() == p
              case Err(e) => r == Err(e)
    {
      var found := FindIdentity(req.key);
      var identity, newIdentityVersion, newRecordVersion := |identities|, 1, 1;
      var supersedes: Option<Id> := None;
      if found.None? {
        if req.expectedVersion != 0 || req.expectedCurrent.Some? { return Err(C.StaleVersion); }
        identities := identities + [C.Identity(req.key, 1, false)];
      } else {
        identity := found.value;
        if identities[identity].ended { return Err(C.IdentityEnded); }
        if identities[identity].version != req.expectedVersion { return Err(C.StaleVersion); }
        if identity !in current || Some(current[identity]) != req.expectedCurrent { return Err(C.StaleCurrentRecord); }
        supersedes := Some(current[identity]);
        newIdentityVersion := identities[identity].version + 1;
        newRecordVersion := MaxVersion(identity);
        newRecordVersion := newRecordVersion + 1;
      }
      if req.sourceFault.Some? { return Err(C.SourceRejected(req.sourceFault.value)); }
      if !req.hasPolicy { return Err(C.ReviewPolicyMissing); }
      var record := |origins|;
      origins := origins + [C.Origin(identity, newIdentityVersion, newRecordVersion, supersedes, claim)];
      current := current[identity := record];
      if newRecordVersion != 1 {
        identities := identities[identity := identities[identity].(version := newIdentityVersion)];
      }
      var finished := claims.Finish(claim, token, I.Succeed(Some(record)), c.finishAt);
      if finished.Err? { return Err(C.ClaimFault(finished.error)); }
      r := Ok(C.Receipt(identity, record, newIdentityVersion, newRecordVersion, false));
    }

    method End(req: C.EndRequest, c: C.Clocks) returns (r: Result<C.EndReceipt, C.Error>)
      requires C.Inv(Rows())
      modifies this, claims
      ensures C.Inv(Rows())
      ensures match C.End(old(Rows()), req, c)
              case Ok((p, receipt)) => r == Ok(receipt) && Rows() == p
              case Err(e) => r == Err(e) && Rows() == old(Rows())
    {
      R.StepKeepsInv(Rows(), R.DoEnd(req, c));
      var before := (claims.rows, claims.nextToken, identities, current, origins, endings);
      r := RunEnd(req, c);
      if r.Err? {
        claims.rows, claims.nextToken, identities, current, origins, endings :=
          before.0, before.1, before.2, before.3, before.4, before.5;
      }
    }

    method RunEnd(req: C.EndRequest, c: C.Clocks) returns (r: Result<C.EndReceipt, C.Error>)
      requires C.Inv(Rows())
      modifies this, claims
      ensures match C.End(old(Rows()), req, c)
              case Ok((p, receipt)) => r == Ok(receipt) && Rows() == p
              case Err(e) => r == Err(e)
    {
      if req.expectedVersion < 1 { return Err(C.InvalidEndRequest); }
      var claim := claims.Claim(C.EndKey(req), req.fingerprint, C.CLAIM_SECONDS, c.now + C.RETENTION, c.claimAt);
      if claim.Err? { return Err(C.ClaimFault(claim.error)); }
      match claim.value {
        case Conflict(_) => return Err(C.IdempotencyConflict);
        case Busy(_) => return Err(C.IdempotencyInProgress);
        case TerminalFailure(_) => return Err(C.IdempotencyTerminalFailure);
        case Replay(_, reference) =>
          if reference.None? || reference.value >= |endings| { return Err(C.ResourceNotFound); }
          return Ok(C.EndReceipt(endings[reference.value].identity, endings[reference.value].version, true));
        case Claimed(record, token) => r := CloseIdentity(req, c, record, token);
        case RetryClaimed(record, token) => r := CloseIdentity(req, c, record, token);
      }
    }

    method CloseIdentity(req: C.EndRequest, c: C.Clocks, claim: Id, token: Id) returns (r: Result<C.EndReceipt, C.Error>)
      requires I.Inv(claims.Table())
      modifies this, claims
      ensures match C.Close(old(Rows()), claim, token, req, c)
              case Ok((p, receipt)) => r == Ok(receipt) && Rows() == p
              case Err(e) => r == Err(e)
    {
      var i := req.identity;
      if i >= |identities| { return Err(C.ResourceNotFound); }
      var identity := identities[i];
      if identity.ended { return Err(C.IdentityEnded); }
      if identity.version != req.expectedVersion { return Err(C.StaleVersion); }
      if i !in current || Some(current[i]) != req.expectedCurrent { return Err(C.StaleCurrentRecord); }
      var version := identity.version + 1;
      endings := endings + [C.Ending(i, current[i], version, claim)];
      identities := identities[i := identity.(version := version, ended := true)];
      var finished := claims.Finish(claim, token, I.Succeed(Some(|endings| - 1)), c.finishAt);
      if finished.Err? { return Err(C.ClaimFault(finished.error)); }
      r := Ok(C.EndReceipt(i, version, false));
    }
  }
}
