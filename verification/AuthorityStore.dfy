/** The Source Authority tables as the database functions update them. */
module AuthorityStore {
  import opened Prelude
  import H = AuthorityHistory
  import T = AuthorityHistoryTheorems

  class Store {
    var scopes: seq<H.Scope>
    var assignments: seq<H.Assignment>
    var endings: seq<H.Ending>

    ghost function Rows(): H.History
      reads this
    {
      H.History(scopes, assignments, endings)
    }

    constructor ()
      ensures Rows() == H.EMPTY && H.Inv(Rows())
    {
      scopes, assignments, endings := [], [], [];
    }

    method FindScope(key: H.Key) returns (found: Option<nat>)
      ensures found == H.Find(scopes, key)
    {
      var i := |scopes|;
      assert scopes[..i] == scopes;
      while i > 0
        invariant 0 <= i <= |scopes|
        invariant H.Find(scopes, key) == H.Find(scopes[..i], key)
      {
        assert scopes[..i][..i - 1] == scopes[..i - 1];
        if scopes[i - 1].key == key { return Some(i - 1); }
        i := i - 1;
      }
      found := None;
    }

    /** The scope trigger runs before every update of a scope row. */
    method UpdateScope(s: Id, after: H.Scope)
      requires s < |scopes| && H.TransitionAllowed(scopes[s], after)
      modifies `scopes
      ensures scopes == old(scopes)[s := after]
    {
      if after.key != scopes[s].key || after.version != scopes[s].version + 1 || after.current == scopes[s].current {
        assert false;
      }
      scopes := scopes[s := after];
    }

    method Set(key: H.Key, expectedVersion: nat, source: Id) returns (r: Result<H.Receipt, H.Error>)
      requires H.Inv(Rows())
      modifies this
      ensures H.Inv(Rows())
      ensures match H.Set(old(Rows()), key, expectedVersion, source)
              case Ok((h, receipt)) => r == Ok(receipt) && Rows() == h
              case Err(e) => r == Err(e) && Rows() == old(Rows())
    {
      H.StepKeepsInv(Rows(), H.DoSet(key, expectedVersion, source));
      if !H.ValidKey(key) { return Err(H.InvalidRequest); }
      var found := FindScope(key);
      var s := |scopes|;
      if found.None? {
        if expectedVersion != 0 { return Err(H.StaleVersion); }
        scopes := scopes + [H.Scope(key, 0, None)];
      } else {
        s := found.value;
        if scopes[s].version != expectedVersion { return Err(H.StaleVersion); }
      }
      T.SetPassesGuards(old(Rows()), key, expectedVersion, source);
      var previous, version, assignment := scopes[s].current, scopes[s].version + 1, |assignments|;
      assignments := assignments + [H.Assignment(s, version, source, previous)];
      if previous.Some? {
        endings := endings + [H.Ending(s, previous.value, version, Some(assignment))];
      }
      UpdateScope(s, H.Scope(key, version, Some(assignment)));
      r := Ok(H.Receipt(assignment, s, version));
    }

    method Revoke(s: Id, expectedVersion: nat) returns (r: Result<nat, H.Error>)
      requires H.Inv(Rows())
      modifies this
      ensures H.Inv(Rows())
      ensures match H.Revoke(old(Rows()), s, expectedVersion)
              case Ok((h, version)) => r == Ok(version) && Rows() == h
              case Err(e) => r == Err(e) && Rows() == old(Rows())
    {
      H.StepKeepsInv(Rows(), H.DoRevoke(s, expectedVersion));
      if expectedVersion < 1 { return Err(H.InvalidRequest); }
      if s >= |scopes| || scopes[s].current.None? { return Err(H.AssignmentNotFound); }
      if scopes[s].version != expectedVersion { return Err(H.StaleVersion); }
      var version := scopes[s].version + 1;
      endings := endings + [H.Ending(s, scopes[s].current.value, version, None)];
      UpdateScope(s, scopes[s].(version := version, current := None));
      r := Ok(version);
    }
  }
}
