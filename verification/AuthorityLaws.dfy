/** The winner of an authority resolution by the names of its selector and scope, and what setting and revoking change. */
module AuthorityLaws {
  import opened Prelude
  import A = Authority
  import H = AuthorityHistory

  // ----- who wins -----

  /** The assignment applies: its category, the path at or below its prefix, and its ref. */
  predicate Governs(a: A.Assignment, t: A.Target) {
    && a.categoryFacet == t.categoryFacet
    && (a.scopeKind == A.PathPrefix ==> t.scopeKey == a.scopeKey || a.scopeKey + "/" <= t.scopeKey)
    && (a.refSelector == A.ExactRef ==> a.refKey == Some(t.refKey))
    && (a.refSelector == A.DefaultBranch ==> t.refKey == t.defaultRefKey)
  }

  /** A named ref before the default branch, before any ref; then a path before the project, and the longer path. */
  predicate Precedes(a: A.Assignment, b: A.Assignment) {
    if a.refSelector != b.refSelector then
      a.refSelector == A.ExactRef || (a.refSelector == A.DefaultBranch && b.refSelector == A.AnyRef)
    else
      a.scopeKind == A.PathPrefix && (b.scopeKind == A.Project || |b.scopeKey| < |a.scopeKey|)
  }

  /** Of two assignments that apply, the ranks say what the names say. */
  lemma RankIsPrecedence(a: A.Assignment, b: A.Assignment, t: A.Target)
    requires Governs(a, t) && Governs(b, t)
    ensures A.Outranks(a, b) <==> Precedes(a, b)
  {
    if a.scopeKind == A.PathPrefix && b.scopeKind == A.PathPrefix {
      if |b.scopeKey| < |a.scopeKey| { A.DeeperIsLonger(t.scopeKey, b.scopeKey, a.scopeKey); }
      if |a.scopeKey| < |b.scopeKey| { A.DeeperIsLonger(t.scopeKey, a.scopeKey, b.scopeKey); }
      if |a.scopeKey| == |b.scopeKey| { SameLengthPrefixes(t.scopeKey, a.scopeKey, b.scopeKey); }
    }
  }

  lemma SameLengthPrefixes(path: string, a: string, b: string)
    requires A.Below(path, a) && A.Below(path, b) && |a| == |b|
    ensures a == b
  {
    assert a == path[..|a|] && b == path[..|b|];
  }

  /** With unique scopes the answer is the assignment that governs the target and precedes every other that does. */
  lemma WinnerByName(assignments: seq<A.Assignment>, t: A.Target)
    requires A.UniqueScopes(assignments)
    ensures forall a :: A.Resolve(assignments, t) == A.Winner(a) <==>
      a in assignments && Governs(a, t) && forall b :: b in assignments && Governs(b, t) && b != a ==> Precedes(a, b)
    ensures A.Resolve(assignments, t) == A.Missing <==> forall a :: a in assignments ==> !Governs(a, t)
    ensures A.Resolve(assignments, t) != A.Ambiguous
  {
    A.NeverAmbiguous(assignments, t);
    A.ResolveMeans(assignments, t);
    forall a ensures A.Applies(a, t) <==> Governs(a, t) {}
    forall a ensures A.Resolve(assignments, t) == A.Winner(a) <==>
      a in assignments && Governs(a, t) && forall b :: b in assignments && Governs(b, t) && b != a ==> Precedes(a, b)
    {
      WinsByName(assignments, t, a);
    }
  }

  lemma WinsByName(assignments: seq<A.Assignment>, t: A.Target, a: A.Assignment)
    requires A.UniqueScopes(assignments) && forall x :: A.Applies(x, t) <==> Governs(x, t)
    ensures A.Resolve(assignments, t) == A.Winner(a) <==>
      a in assignments && Governs(a, t) && forall b :: b in assignments && Governs(b, t) && b != a ==> Precedes(a, b)
  {
    A.NeverAmbiguous(assignments, t);
    if a in assignments && Governs(a, t) {
      forall b | b in assignments && Governs(b, t) ensures A.Outranks(a, b) <==> Precedes(a, b) { RankIsPrecedence(a, b, t); }
      forall b | b in assignments && Governs(b, t) && b != a ensures A.Outranks(a, b) || A.Outranks(b, a) {
        if A.SameRank(a, b) { A.EqualRankMeansSameScope(a, b, t); }
      }
    }
  }

  // ----- setting and revoking -----

  /** The version of a key's scope; a scope that does not exist yet is at zero. */
  function VersionOf(h: H.History, key: H.Key): nat {
    match H.Find(h.scopes, key)
    case None => 0
    case Some(s) => h.scopes[s].version
  }

  function CurrentSource(h: H.History, key: H.Key): Option<Id> {
    match H.Find(h.scopes, key)
    case None => None
    case Some(s) =>
      if h.scopes[s].current.Some? && h.scopes[s].current.value < |h.assignments|
      then Some(h.assignments[h.scopes[s].current.value].source) else None
  }

  /**
   * A set succeeds exactly for a well-formed scope at its present version. Its source is then the scope's current one, at
   * the next version, in place of the one before, and no other scope has changed.
   */
  lemma SetMeans(h: H.History, key: H.Key, expected: nat, source: Id, other: H.Key)
    requires H.Inv(h) && other != key
    ensures
      var r := H.Set(h, key, expected, source);
      var formed := (key.scopeKind == A.Project ==> key.scopeKey == "/") && (key.refSelector == A.ExactRef <==> key.refKey.Some?);
      && (r.Ok? <==> formed && VersionOf(h, key) == expected)
      && (r.Err? ==> r.error == if !formed then H.InvalidRequest else H.StaleVersion)
      && (r.Ok? ==>
            var (g, receipt) := r.value;
            && CurrentSource(g, key) == Some(source) && VersionOf(g, key) == expected + 1 && receipt.version == expected + 1
            && receipt.assignment < |g.assignments| && g.assignments[receipt.assignment].source == source
            && g.assignments[receipt.assignment].scope == receipt.scope && receipt.scope < |g.scopes| && g.scopes[receipt.scope].key == key
            && VersionOf(g, other) == VersionOf(h, other) && CurrentSource(g, other) == CurrentSource(h, other))
  {
    var r := H.Set(h, key, expected, source);
    if r.Ok? {
      var (g, receipt) := r.value;
      var found := H.Find(h.scopes, key);
      H.AssignedKeepsInv(h, key, source);
      FindOther(h, g, other);
      FindKey(g, receipt.scope);
      if H.Find(h.scopes, other).Some? { assert H.ScopeInv(h, H.Find(h.scopes, other).value); }
    }
  }

  lemma FindKey(h: H.History, s: Id)
    requires H.Inv(h) && s < |h.scopes|
    ensures H.Find(h.scopes, h.scopes[s].key) == Some(s)
  {
    var found := H.Find(h.scopes, h.scopes[s].key);
    assert found.Some?;
  }

  /** A scope that a step leaves alone is found where it was. */
  lemma FindOther(h: H.History, g: H.History, other: H.Key)
    requires H.Inv(h) && H.Inv(g) && |h.scopes| <= |g.scopes|
    requires forall s :: 0 <= s < |h.scopes| ==> g.scopes[s].key == h.scopes[s].key
    requires forall s :: |h.scopes| <= s < |g.scopes| ==> g.scopes[s].key != other
    ensures H.Find(g.scopes, other) == H.Find(h.scopes, other)
  {
    var found := H.Find(h.scopes, other);
    if found.Some? {
      assert g.scopes[found.value].key == other;
      FindKey(g, found.value);
    }
  }

  /** A revoke succeeds exactly for a scope with a current assignment at its present version, and leaves it without one. */
  lemma RevokeMeans(h: H.History, s: Id, expected: nat)
    requires H.Inv(h)
    ensures
      var r := H.Revoke(h, s, expected);
      var present := s < |h.scopes| && h.scopes[s].current.Some?;
      && (r.Ok? <==> expected >= 1 && present && h.scopes[s].version == expected)
      && (r.Err? ==> r.error == if expected < 1 then H.InvalidRequest else if !present then H.AssignmentNotFound else H.StaleVersion)
      && (r.Ok? ==>
            var (g, version) := r.value;
            && version == expected + 1 && g.scopes == h.scopes[s := H.Scope(h.scopes[s].key, expected + 1, None)]
            && g.assignments == h.assignments && |g.endings| == |h.endings| + 1 && h.endings <= g.endings
            && g.endings[|h.endings|] == H.Ending(s, h.scopes[s].current.value, expected + 1, None))
  {
  }
}
