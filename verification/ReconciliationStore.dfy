/** The reconciliation tables as the commit function updates them, and the version sums as it reads them. */
module ReconciliationStore {
  import opened Prelude
  import opened VersionSums
  import AH = AuthorityHistory
  import U = Ingestion
  import CR = ContextRecords
  import R = Reconciliation

  class Store {
    var authority: AH.History
    var units: seq<U.Unit>
    var context: CR.Project
    var integrity: map<Id, nat>
    var items: seq<R.Item>
    var records: seq<R.Record>
    var latest: map<Id, Id>

    ghost function Rows(): R.World
      reads this
    {
      R.World(authority, units, context, integrity, items, records, latest)
    }

    constructor ()
      ensures Rows() == R.EMPTY
    {
      authority, units, context, integrity := AH.EMPTY, [], CR.EMPTY, map[];
      items, records, latest := [], [], map[];
    }

    method AuthorityVersion() returns (sum: nat)
      ensures sum == Sum(R.ScopeVersions(authority))
    {
      sum := 0;
      ghost var all := R.ScopeVersions(authority);
      for s := 0 to |authority.scopes|
        invariant sum == Sum(all[..s])
      {
        assert all[..s + 1][..s] == all[..s];
        sum := sum + authority.scopes[s].version;
      }
      assert all[..|all|] == all;
    }

    method FrontierVersion() returns (sum: nat)
      ensures sum == Sum(R.FrontierCounts(units))
    {
      sum := 0;
      ghost var all := R.FrontierCounts(units);
      for i := 0 to |units|
        invariant sum == Sum(all[..i])
      {
        assert all[..i + 1][..i] == all[..i];
        sum := sum + units[i].observed.GetOr(0) + units[i].desired.GetOr(0) + units[i].ingested.GetOr(0);
      }
      assert all[..|all|] == all;
    }

    method WorkingVersion(identity: Id) returns (newest: int)
      ensures newest == R.WorkingVersion(items, identity)
    {
      newest := 0;
      var found := false;
      for i := 0 to |items|
        invariant newest == R.WorkingVersion(items[..i], identity)
        invariant found <==> R.HasItem(items[..i], identity)
      {
        assert items[..i + 1][..i] == items[..i];
        if items[i].identity == identity {
          if !found || items[i].at >= newest { newest := items[i].at; }
          found := true;
          assert items[..i + 1][i].identity == identity;
        } else {
          assert forall k :: 0 <= k < i ==> items[..i + 1][k] == items[..i][k];
        }
      }
      assert items[..|items|] == items;
    }

    method FindRecord(candidate: Id, hash: nat) returns (found: Option<nat>)
      ensures found == R.FindRecord(records, candidate, hash)
    {
      var i := |records|;
      assert records[..i] == records;
      while i > 0
        invariant 0 <= i <= |records|
        invariant R.FindRecord(records, candidate, hash) == R.FindRecord(records[..i], candidate, hash)
      {
        assert records[..i][..i - 1] == records[..i - 1];
        if records[i - 1].candidate == candidate && records[i - 1].hash == hash { return Some(i - 1); }
        i := i - 1;
      }
      found := None;
    }

    method FindItem(candidate: Id) returns (found: Option<nat>)
      ensures found == R.FindItem(items, candidate)
    {
      var i := |items|;
      assert items[..i] == items;
      while i > 0
        invariant 0 <= i <= |items|
        invariant R.FindItem(items, candidate) == R.FindItem(items[..i], candidate)
      {
        assert items[..i][..i - 1] == items[..i - 1];
        if items[i - 1].candidate == candidate { return Some(i - 1); }
        i := i - 1;
      }
      found := None;
    }

    /** The staleness checks, in their order. */
    method CheckBasis(b: R.Basis) returns (stale: Option<R.Error>)
      ensures stale == R.Staleness(Rows(), b)
    {
      if b.identity >= |context.identities| || context.identities[b.identity].ended
         || context.identities[b.identity].version != b.contextVersion {
        return Some(R.StaleReviewedContext);
      }
      var current := if b.identity in context.current then Some(context.current[b.identity]) else None;
      if current != b.currentRecord { return Some(R.StaleReviewedContext); }
      var actualAuthority := AuthorityVersion();
      var actualFrontier := FrontierVersion();
      var actualIntegrity := if b.identity in integrity then integrity[b.identity] else 0;
      var actualWorking := WorkingVersion(b.identity);
      if actualAuthority != b.authorityVersion { return Some(R.StaleAuthority); }
      if actualFrontier != b.frontierVersion { return Some(R.StaleFrontier); }
      if actualIntegrity != b.integrityVersion { return Some(R.StaleIntegrity); }
      if actualWorking != b.workingVersion { return Some(R.StaleWorkingContext); }
      stale := None;
    }

    method Commit(req: R.Request, now: Time) returns (r: Result<R.Receipt, R.Error>)
      modifies `items, `records, `latest
      ensures match R.Commit(old(Rows()), req, now)
              case Ok((w, receipt)) => r == Ok(receipt) && Rows() == w
              case Err(e) => r == Err(e) && Rows() == old(Rows())
    {
      if !R.WellFormed(req) { return Err(R.InvalidResult); }
      var b := req.basis;
      var existing := FindRecord(b.candidate, req.hash);
      if existing.Some? { return Ok(R.Receipt(existing.value, records[existing.value].item, true)); }
      var stale := CheckBasis(b);
      if stale.Some? { return Err(stale.value); }
      var working: Option<Id> := None;
      if !req.classification.Unchanged? {
        var item := R.Item(b.candidate, b.identity, req.assertion.value, now);
        var found := FindItem(b.candidate);
        if found.Some? {
          items := items[found.value := item];
          working := found;
        } else {
          items := items + [item];
          working := Some(|items| - 1);
        }
      }
      var record := |records|;
      records := records + [R.Record(b.candidate, req.hash, b.identity, req.classification, working)];
      latest := latest[b.candidate := record];
      r := Ok(R.Receipt(record, working, false));
    }
  }
}
