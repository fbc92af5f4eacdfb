/**
 * The versioned history of Source Authority: every set and revoke takes the next version of its scope, appends to the
 * history, and moves the pointer to the current assignment. Scopes, assignments and endings are append-only, so an id is
 * a position.
 */
module AuthorityHistory {
  import opened Prelude
  import A = Authority

  datatype Key = Key(
    categoryFacet: A.CategoryFacet, scopeKind: A.ScopeKind, scopeKey: string,
    refSelector: A.RefSelector, refKey: Option<string>)

  datatype Scope = Scope(key: Key, version: nat, current: Option<Id>)
  datatype Assignment = Assignment(scope: Id, version: nat, source: Id, supersedes: Option<Id>)

  /** Superseded by a successor, or revoked without one. */
  datatype Ending = Ending(scope: Id, ended: Id, version: nat, successor: Option<Id>)

  datatype History = History(scopes: seq<Scope>, assignments: seq<Assignment>, endings: seq<Ending>)

  datatype Error = InvalidRequest | StaleVersion | AssignmentNotFound

  datatype Receipt = Receipt(assignment: Id, scope: Id, version: nat)

  predicate ValidKey(k: Key) {
    && (k.scopeKind.Project? ==> k.scopeKey == "/")
    && (k.refSelector.ExactRef? <==> k.refKey.Some?)
  }

  function Find(scopes: seq<Scope>, key: Key): (r: Option<nat>)
    ensures r.Some? ==> r.value < |scopes| && scopes[r.value].key == key
    ensures r.None? ==> forall i :: 0 <= i < |scopes| ==> scopes[i].key != key
  {
    if scopes == [] then None
    else if scopes[|scopes| - 1].key == key then Some(|scopes| - 1)
    else Find(scopes[..|scopes| - 1], key)
  }

  /** The scope a set works on: the existing row, or the one it inserts at version zero. */
  function Target(h: History, key: Key): (r: (seq<Scope>, nat))
    ensures r.1 < |r.0| && r.0[r.1].key == key
    ensures Find(h.scopes, key).Some? ==> r.0 == h.scopes
    ensures Find(h.scopes, key).None? ==> r.0 == h.scopes + [Scope(key, 0, None)] && r.1 == |h.scopes|
  {
    match Find(h.scopes, key)
    case Some(i) => (h.scopes, i)
    case None => (h.scopes + [Scope(key, 0, None)], |h.scopes|)
  }

  /** The rows after a set that has passed its checks. */
  function Assigned(h: History, key: Key, source: Id): History {
    var (scopes, s) := Target(h, key);
    var previous, version, a := scopes[s].current, scopes[s].version + 1, |h.assignments|;
    History(
      scopes[s := Scope(key, version, Some(a))],
      h.assignments + [Assignment(s, version, source, previous)],
      if previous.Some? then h.endings + [Ending(s, previous.value, version, Some(a))] else h.endings)
  }

  function Set(h: History, key: Key, expectedVersion: nat, source: Id): Result<(History, Receipt), Error> {
    if !ValidKey(key) then Err(InvalidRequest)
    else
      var (scopes, s) := Target(h, key);
      if scopes[s].version != expectedVersion then Err(StaleVersion)
      else Ok((Assigned(h, key, source), Receipt(|h.assignments|, s, expectedVersion + 1)))
  }

  function Revoked(h: History, s: Id): History
    requires s < |h.scopes| && h.scopes[s].current.Some?
  {
    var version := h.scopes[s].version + 1;
    h.(scopes := h.scopes[s := h.scopes[s].(version := version, current := None)],
       endings := h.endings + [Ending(s, h.scopes[s].current.value, version, None)])
  }

  function Revoke(h: History, s: Id, expectedVersion: nat): Result<(History, nat), Error> {
    if expectedVersion < 1 then Err(InvalidRequest)
    else if s >= |h.scopes| || h.scopes[s].current.None? then Err(AssignmentNotFound)
    else if h.scopes[s].version != expectedVersion then Err(StaleVersion)
    else Ok((Revoked(h, s), expectedVersion + 1))
  }

  // ----- what the tables reject -----

  /** The scope trigger: the key is fixed, the version advances by one, and the pointer really moves. */
  predicate TransitionAllowed(before: Scope, after: Scope) {
    after.key == before.key && after.version == before.version + 1 && after.current != before.current
  }

  ghost predicate AssignmentAllowed(h: History, a: Assignment) {
    a.version > 0 && forall x | x in h.assignments :: x.scope == a.scope ==> x.version != a.version
  }

  ghost predicate EndingAllowed(h: History, e: Ending) {
    e.version > 0 && forall x | x in h.endings :: x.scope == e.scope ==> x.version != e.version && x.ended != e.ended
  }

  // ----- the invariant of every reachable history -----

  predicate TakenByAssignment(h: History, s: Id, v: nat, a: Id) {
    a < |h.assignments| && h.assignments[a].scope == s && h.assignments[a].version == v
  }

  predicate TakenByRevocation(h: History, s: Id, v: nat, e: Id) {
    e < |h.endings| && h.endings[e].scope == s && h.endings[e].version == v && h.endings[e].successor.None?
  }

  predicate Ends(h: History, e: Id, a: Id) {
    e < |h.endings| && h.endings[e].ended == a
  }

  /** A scope is at the version of its current assignment, or of the revocation that left it without one. */
  ghost predicate ScopeInv(h: History, s: Id)
    requires s < |h.scopes|
  {
    && ValidKey(h.scopes[s].key)
    && h.scopes[s].version >= 1
    && (h.scopes[s].current.Some? ==> TakenByAssignment(h, s, h.scopes[s].version, h.scopes[s].current.value))
    && (h.scopes[s].current.None? ==> exists e :: TakenByRevocation(h, s, h.scopes[s].version, e))
  }

  /** Every version up to the present one was taken by a set or by a revoke. */
  ghost predicate VersionInv(h: History, s: Id, v: nat) {
    (exists a :: TakenByAssignment(h, s, v, a)) || (exists e :: TakenByRevocation(h, s, v, e))
  }

  ghost predicate AssignmentInv(h: History, a: Id)
    requires a < |h.assignments|
  {
    var row := h.assignments[a];
    && row.scope < |h.scopes| && 1 <= row.version <= h.scopes[row.scope].version
    && (h.scopes[row.scope].current == Some(a) || exists e :: Ends(h, e, a))
    && (row.supersedes.Some? ==> exists e: Id :: Ends(h, e, row.supersedes.value) && h.endings[e].successor == Some(a))
  }

  ghost predicate EndingInv(h: History, e: Id)
    requires e < |h.endings|
  {
    var row := h.endings[e];
    && row.scope < |h.scopes| && 1 <= row.version <= h.scopes[row.scope].version
    && row.ended < |h.assignments| && h.assignments[row.ended].scope == row.scope && h.assignments[row.ended].version < row.version
    && h.scopes[row.scope].current != Some(row.ended)
    && (row.successor.Some? ==>
          && row.successor.value < |h.assignments| && h.assignments[row.successor.value].supersedes == Some(row.ended)
          && h.assignments[row.successor.value].scope == row.scope && h.assignments[row.successor.value].version == row.version)
  }

  ghost predicate Inv(h: History) {
    && (forall s :: 0 <= s < |h.scopes| ==> ScopeInv(h, s))
    && (forall s, t :: 0 <= s < t < |h.scopes| ==> h.scopes[s].key != h.scopes[t].key)
    && (forall s, v: nat :: 0 <= s < |h.scopes| && 1 <= v <= h.scopes[s].version ==> VersionInv(h, s, v))
    && (forall a :: 0 <= a < |h.assignments| ==> AssignmentInv(h, a))
    && (forall e :: 0 <= e < |h.endings| ==> EndingInv(h, e))
    && Unique(h)
  }

  /** No version is taken twice and no assignment ends twice. */
  ghost predicate Unique(h: History) {
    && (forall a, b :: 0 <= a < b < |h.assignments| && h.assignments[a].scope == h.assignments[b].scope ==>
          h.assignments[a].version != h.assignments[b].version)
    && (forall d, e :: 0 <= d < e < |h.endings| ==> h.endings[d].ended != h.endings[e].ended)
    && (forall d, e :: 0 <= d < e < |h.endings| && h.endings[d].scope == h.endings[e].scope ==>
          h.endings[d].version != h.endings[e].version)
    && (forall a, e ::
          0 <= a < |h.assignments| && 0 <= e < |h.endings| && h.endings[e].successor.None? && h.assignments[a].scope == h.endings[e].scope ==>
          h.assignments[a].version != h.endings[e].version)
  }

  const EMPTY := History([], [], [])

  datatype Step = DoSet(key: Key, expected: nat, source: Id) | DoRevoke(scope: Id, expected: nat)

  function Apply(h: History, step: Step): History {
    match step
    case DoSet(key, expected, source) => (match Set(h, key, expected, source) case Ok((g, _)) => g case Err(_) => h)
    case DoRevoke(s, expected) => (match Revoke(h, s, expected) case Ok((g, _)) => g case Err(_) => h)
  }

  function Run(h: History, steps: seq<Step>): History
    decreases |steps|
  {
    if steps == [] then h else Run(Apply(h, steps[0]), steps[1..])
  }

  // ----- every step keeps it -----

  /** One row of the history before and after: what the new rows leave in place. */
  ghost predicate Appends(h: History, g: History) {
    h.assignments <= g.assignments && h.endings <= g.endings && |h.scopes| <= |g.scopes|
  }

  lemma VersionsCarryOver(h: History, g: History, s: Id, v: nat)
    requires Appends(h, g) && VersionInv(h, s, v)
    ensures VersionInv(g, s, v)
  {
    if a :| TakenByAssignment(h, s, v, a) {
      assert TakenByAssignment(g, s, v, a);
    } else {
      var e :| TakenByRevocation(h, s, v, e);
      assert TakenByRevocation(g, s, v, e);
    }
  }

  lemma AssignmentCarriesOver(h: History, g: History, a: Id)
    requires Appends(h, g) && a < |h.assignments| && AssignmentInv(h, a)
    requires
      var s := h.assignments[a].scope;
      && g.scopes[s].version >= h.scopes[s].version
      && (h.scopes[s].current == Some(a) ==> g.scopes[s].current == Some(a) || exists e :: Ends(g, e, a))
    ensures AssignmentInv(g, a)
  {
    var row := h.assignments[a];
    if h.scopes[row.scope].current != Some(a) {
      var e :| Ends(h, e, a);
      assert Ends(g, e, a);
    }
    if row.supersedes.Some? {
      var e: Id :| Ends(h, e, row.supersedes.value) && h.endings[e].successor == Some(a);
      assert Ends(g, e, row.supersedes.value) && g.endings[e].successor == Some(a);
    }
  }

  lemma ScopeCarriesOver(h: History, g: History, s: Id)
    requires Appends(h, g) && s < |h.scopes| && ScopeInv(h, s) && g.scopes[s] == h.scopes[s]
    ensures ScopeInv(g, s)
  {
    if h.scopes[s].current.None? {
      var e :| TakenByRevocation(h, s, h.scopes[s].version, e);
      assert TakenByRevocation(g, s, h.scopes[s].version, e);
    }
  }

  /** A set appends one assignment at the next version and ends the one it replaces. */
  lemma AssignedKeepsInv(h: History, key: Key, source: Id)
    requires Inv(h) && ValidKey(key)
    ensures Inv(Assigned(h, key, source))
  {
    var g := Assigned(h, key, source);
    var (scopes, s) := Target(h, key);
    var a, version, previous := |h.assignments|, scopes[s].version + 1, scopes[s].current;
    assert s < |h.scopes| ==> ScopeInv(h, s);
    assert TakenByAssignment(g, s, version, a);
    if previous.Some? { assert Ends(g, |h.endings|, previous.value); }
    forall t | 0 <= t < |g.scopes| ensures ScopeInv(g, t) {
      if t != s { ScopeCarriesOver(h, g, t); }
    }
    forall t, v: nat | 0 <= t < |g.scopes| && 1 <= v <= g.scopes[t].version ensures VersionInv(g, t, v) {
      if t < |h.scopes| && v <= h.scopes[t].version { VersionsCarryOver(h, g, t, v); }
    }
    forall b | 0 <= b < |g.assignments| ensures AssignmentInv(g, b) {
      if b < a {
        assert AssignmentInv(h, b);
        AssignmentCarriesOver(h, g, b);
      }
    }
    AssignedKeepsEndings(h, key, source);
  }

  lemma AssignedKeepsEndings(h: History, key: Key, source: Id)
    requires Inv(h)
    ensures forall e :: 0 <= e < |Assigned(h, key, source).endings| ==> EndingInv(Assigned(h, key, source), e)
    ensures Unique(Assigned(h, key, source))
  {
    var g := Assigned(h, key, source);
    var (scopes, s) := Target(h, key);
    assert s < |h.scopes| ==> ScopeInv(h, s);
    forall e | 0 <= e < |g.endings| ensures EndingInv(g, e) {
      if e < |h.endings| { assert EndingInv(h, e); }
    }
    forall b | 0 <= b < |h.assignments| ensures h.assignments[b].scope == s ==> s < |h.scopes| && h.assignments[b].version <= h.scopes[s].version {
      assert AssignmentInv(h, b);
    }
    forall e | 0 <= e < |h.endings|
      ensures h.endings[e].scope == s ==> s < |h.scopes| && h.endings[e].version <= h.scopes[s].version
      ensures s < |h.scopes| ==> Some(h.endings[e].ended) != h.scopes[s].current
    {
      assert EndingInv(h, e);
    }
  }

  lemma RevokedKeepsInv(h: History, s: Id)
    requires Inv(h) && s < |h.scopes| && h.scopes[s].current.Some?
    ensures Inv(Revoked(h, s))
  {
    var g := Revoked(h, s);
    assert ScopeInv(h, s);
    assert TakenByRevocation(g, s, h.scopes[s].version + 1, |h.endings|);
    assert Ends(g, |h.endings|, h.scopes[s].current.value);
    forall t | 0 <= t < |g.scopes| ensures ScopeInv(g, t) {
      if t != s { ScopeCarriesOver(h, g, t); }
    }
    forall t, v: nat | 0 <= t < |g.scopes| && 1 <= v <= g.scopes[t].version ensures VersionInv(g, t, v) {
      if v <= h.scopes[t].version { VersionsCarryOver(h, g, t, v); }
    }
    forall b | 0 <= b < |g.assignments|
      ensures AssignmentInv(g, b)
      ensures h.assignments[b].scope == s ==> h.assignments[b].version <= h.scopes[s].version
    {
      assert AssignmentInv(h, b);
      AssignmentCarriesOver(h, g, b);
    }
    forall e | 0 <= e < |g.endings| ensures EndingInv(g, e) {
      if e < |h.endings| { assert EndingInv(h, e); }
    }
    forall e | 0 <= e < |h.endings|
      ensures Some(h.endings[e].ended) != h.scopes[s].current
      ensures h.endings[e].scope == s ==> h.endings[e].version <= h.scopes[s].version
    {
      assert EndingInv(h, e);
    }
  }

  lemma EmptyInv()
    ensures Inv(EMPTY)
  {
  }

  lemma StepKeepsInv(h: History, step: Step)
    requires Inv(h)
    ensures Inv(Apply(h, step))
  {
    hide Inv;
    match step
    case DoSet(key, expected, source) => if Set(h, key, expected, source).Ok? { AssignedKeepsInv(h, key, source); }
    case DoRevoke(s, expected) => if Revoke(h, s, expected).Ok? { RevokedKeepsInv(h, s); }
  }

  lemma {:induction false} RunKeepsInv(h: History, steps: seq<Step>)
    requires Inv(h)
    ensures Inv(Run(h, steps))
    decreases |steps|
  {
    hide Inv, Apply;
    if steps != [] {
      StepKeepsInv(h, steps[0]);
      RunKeepsInv(Apply(h, steps[0]), steps[1..]);
    }
  }
}
