/** What the authority history promises in every reachable state, and what resolution may rely on. */
module AuthorityHistoryTheorems {
  import opened Prelude
  import A = Authority
  import opened AuthorityHistory

  // ----- constraints and triggers never reject -----

  lemma SetPassesGuards(h: History, key: Key, expected: nat, source: Id)
    requires Inv(h) && Set(h, key, expected, source).Ok?
    ensures
      var (g, receipt) := Set(h, key, expected, source).value;
      && AssignmentAllowed(h, g.assignments[|h.assignments|])
      && TransitionAllowed(Target(h, key).0[receipt.scope], g.scopes[receipt.scope])
      && (|g.endings| > |h.endings| ==> EndingAllowed(h, g.endings[|h.endings|]))
  {
    var (g, receipt) := Set(h, key, expected, source).value;
    var s := receipt.scope;
    assert s < |h.scopes| ==> ScopeInv(h, s);
    forall a | 0 <= a < |h.assignments| ensures h.assignments[a].scope == s ==> s < |h.scopes| && h.assignments[a].version <= h.scopes[s].version {
      assert AssignmentInv(h, a);
    }
    forall e | 0 <= e < |h.endings|
      ensures h.endings[e].scope == s ==> s < |h.scopes| && h.endings[e].version <= h.scopes[s].version && Some(h.endings[e].ended) != h.scopes[s].current
    {
      assert EndingInv(h, e);
    }
  }

  lemma RevokePassesGuards(h: History, s: Id, expected: nat)
    requires Inv(h) && Revoke(h, s, expected).Ok?
    ensures
      var g := Revoke(h, s, expected).value.0;
      TransitionAllowed(h.scopes[s], g.scopes[s]) && EndingAllowed(h, g.endings[|h.endings|])
  {
    forall e | 0 <= e < |h.endings|
      ensures h.endings[e].scope == s ==> h.endings[e].version <= h.scopes[s].version && Some(h.endings[e].ended) != h.scopes[s].current
    {
      assert EndingInv(h, e);
    }
  }

  // ----- the shape of the history -----

  /** Each version of a scope from one to the present was taken by one set or one revoke, and no other was taken. */
  lemma VersionsAreTakenOnce(h: History, s: Id, v: nat)
    requires Inv(h) && s < |h.scopes|
    ensures 1 <= v <= h.scopes[s].version <==>
      (exists a :: TakenByAssignment(h, s, v, a)) || (exists e :: TakenByRevocation(h, s, v, e))
    ensures forall a, b :: TakenByAssignment(h, s, v, a) && TakenByAssignment(h, s, v, b) ==> a == b
    ensures forall d, e :: TakenByRevocation(h, s, v, d) && TakenByRevocation(h, s, v, e) ==> d == e
    ensures forall a, e :: !(TakenByAssignment(h, s, v, a) && TakenByRevocation(h, s, v, e))
  {
    if 1 <= v <= h.scopes[s].version {
      assert VersionInv(h, s, v);
    }
    forall a | TakenByAssignment(h, s, v, a) ensures 1 <= v <= h.scopes[s].version { assert AssignmentInv(h, a); }
    forall e | TakenByRevocation(h, s, v, e) ensures 1 <= v <= h.scopes[s].version { assert EndingInv(h, e); }
  }

  /** An assignment has an ending, and only one, exactly when it is no longer current. */
  lemma EndedExactlyWhenNotCurrent(h: History, a: Id)
    requires Inv(h) && a < |h.assignments|
    ensures h.assignments[a].scope < |h.scopes|
    ensures (exists e :: Ends(h, e, a)) <==> h.scopes[h.assignments[a].scope].current != Some(a)
    ensures forall d, e :: Ends(h, d, a) && Ends(h, e, a) ==> d == e
  {
    assert AssignmentInv(h, a);
    forall e | Ends(h, e, a) ensures h.scopes[h.assignments[a].scope].current != Some(a) {
      assert EndingInv(h, e);
    }
  }

  /** Superseding links and superseded endings are the same pairs. */
  lemma SupersessionIsMutual(h: History, a: Id, b: Id)
    requires Inv(h) && a < |h.assignments|
    ensures h.assignments[a].supersedes == Some(b) <==> exists e: Id :: Ends(h, e, b) && h.endings[e].successor == Some(a)
  {
    assert AssignmentInv(h, a);
    forall e: Id | Ends(h, e, b) && h.endings[e].successor == Some(a) ensures h.assignments[a].supersedes == Some(b) {
      assert EndingInv(h, e);
    }
  }

  // ----- conservation -----

  function AssignmentsOf(assignments: seq<Assignment>, s: Id): nat {
    if assignments == [] then 0
    else AssignmentsOf(assignments[..|assignments| - 1], s) + if assignments[|assignments| - 1].scope == s then 1 else 0
  }

  function EndingsOf(endings: seq<Ending>, s: Id): nat {
    if endings == [] then 0
    else EndingsOf(endings[..|endings| - 1], s) + if endings[|endings| - 1].scope == s then 1 else 0
  }

  /** Assignments without an ending: one while the scope has a current assignment, none otherwise. */
  ghost predicate Balanced(h: History, s: Id) {
    AssignmentsOf(h.assignments, s) - EndingsOf(h.endings, s) == if s < |h.scopes| && h.scopes[s].current.Some? then 1 else 0
  }

  lemma CountAssignment(assignments: seq<Assignment>, a: Assignment, s: Id)
    ensures AssignmentsOf(assignments + [a], s) == AssignmentsOf(assignments, s) + if a.scope == s then 1 else 0
  {
    assert (assignments + [a])[..|assignments|] == assignments;
  }

  lemma CountEnding(endings: seq<Ending>, e: Ending, s: Id)
    ensures EndingsOf(endings + [e], s) == EndingsOf(endings, s) + if e.scope == s then 1 else 0
  {
    assert (endings + [e])[..|endings|] == endings;
  }

  lemma StepBalances(h: History, step: Step, s: Id)
    requires Balanced(h, s)
    ensures Balanced(Apply(h, step), s)
  {
    var g := Apply(h, step);
    if |g.assignments| > |h.assignments| {
      CountAssignment(h.assignments, g.assignments[|h.assignments|], s);
    }
    if |g.endings| > |h.endings| {
      CountEnding(h.endings, g.endings[|h.endings|], s);
    }
  }

  lemma {:induction false} RunBalances(h: History, steps: seq<Step>, s: Id)
    requires Balanced(h, s)
    ensures Balanced(Run(h, steps), s)
    decreases |steps|
  {
    if steps != [] {
      StepBalances(h, steps[0], s);
      RunBalances(Apply(h, steps[0]), steps[1..], s);
    }
  }

  // ----- later states -----

  /** Scopes keep their keys, and a scope at an unchanged version is an unchanged scope. */
  ghost predicate Grows(h: History, g: History) {
    && |h.scopes| <= |g.scopes|
    && (forall s :: 0 <= s < |h.scopes| ==> ScopeGrows(h.scopes[s], g.scopes[s]))
  }

  predicate ScopeGrows(a: Scope, b: Scope) {
    b.key == a.key && a.version <= b.version && (a.version == b.version ==> a == b)
  }

  lemma StepGrows(h: History, step: Step)
    ensures Grows(h, Apply(h, step))
  {
  }

  lemma {:induction false} RunGrows(h: History, steps: seq<Step>)
    ensures Grows(h, Run(h, steps))
    decreases |steps|
  {
    if steps != [] {
      var g := Apply(h, steps[0]);
      StepGrows(h, steps[0]);
      hide Apply;
      RunGrows(g, steps[1..]);
      assert forall s :: 0 <= s < |h.scopes| ==> ScopeGrows(h.scopes[s], g.scopes[s]) && ScopeGrows(g.scopes[s], Run(g, steps[1..]).scopes[s]);
    }
  }

  /** A version is spent by the first set or revoke that names it: no later request with that version succeeds. */
  lemma StaleRequestsLose(h: History, key: Key, expected: nat, source: Id, steps: seq<Step>, rival: nat, rivalSource: Id)
    requires Inv(h) && Set(h, key, expected, source).Ok? && rival <= expected
    ensures
      var (g, receipt) := Set(h, key, expected, source).value;
      var u := Run(g, steps);
      Set(u, key, rival, rivalSource) == Err(StaleVersion) && Revoke(u, receipt.scope, rival).Err?
  {
    var (g, receipt) := Set(h, key, expected, source).value;
    RunGrows(g, steps);
    var u := Run(g, steps);
    StepKeepsInv(h, DoSet(key, expected, source));
    RunKeepsInv(g, steps);
    assert ScopeGrows(g.scopes[receipt.scope], u.scopes[receipt.scope]);
    FindsScope(u, receipt.scope);
  }

  lemma FindsScope(h: History, s: Id)
    requires Inv(h) && s < |h.scopes|
    ensures Find(h.scopes, h.scopes[s].key) == Some(s)
  {
  }

  // ----- what resolution sees -----

  function CurrentOf(h: History, scopes: seq<Scope>, quality: Id -> A.Qualification): (r: seq<A.Assignment>)
    requires forall s | s in scopes && s.current.Some? :: s.current.value < |h.assignments|
    ensures forall a | a in r :: exists s :: s in scopes && s.current.Some? && a == AsCurrent(h, s, quality)
    ensures forall s | s in scopes && s.current.Some? :: AsCurrent(h, s, quality) in r
  {
    if scopes == [] then []
    else
      var rest := CurrentOf(h, scopes[..|scopes| - 1], quality);
      var s := scopes[|scopes| - 1];
      if s.current.Some? then rest + [AsCurrent(h, s, quality)] else rest
  }

  function AsCurrent(h: History, s: Scope, quality: Id -> A.Qualification): A.Assignment {
    var a := s.current.GetOr(0);
    A.Assignment(a, if a < |h.assignments| then h.assignments[a].source else 0, s.key.categoryFacet, s.key.scopeKind,
                 s.key.scopeKey, s.key.refSelector, s.key.refKey, quality(a))
  }

  /** In every reachable history, whatever the sources' condition, resolution has one answer or none, never a tie. */
  lemma ReachableHistoriesAreUnambiguous(steps: seq<Step>, quality: Id -> A.Qualification, t: A.Target)
    ensures
      var h := Run(EMPTY, steps);
      && (forall s | s in h.scopes && s.current.Some? :: s.current.value < |h.assignments|)
      && A.Resolve(CurrentOf(h, h.scopes, quality), t) != A.Ambiguous
  {
    EmptyInv();
    RunKeepsInv(EMPTY, steps);
    var h := Run(EMPTY, steps);
    forall s | s in h.scopes && s.current.Some? ensures s.current.value < |h.assignments| {
      var i :| 0 <= i < |h.scopes| && h.scopes[i] == s;
      assert ScopeInv(h, i);
    }
    var current := CurrentOf(h, h.scopes, quality);
    CurrentIsUnique(h, quality);
    A.NeverAmbiguous(current, t);
  }

  lemma CurrentComesFrom(h: History, quality: Id -> A.Qualification, a: A.Assignment) returns (i: Id)
    requires forall s | s in h.scopes && s.current.Some? :: s.current.value < |h.assignments|
    requires a in CurrentOf(h, h.scopes, quality)
    ensures i < |h.scopes| && a == AsCurrent(h, h.scopes[i], quality)
  {
    var s :| s in h.scopes && s.current.Some? && a == AsCurrent(h, s, quality);
    i :| 0 <= i < |h.scopes| && h.scopes[i] == s;
  }

  lemma CurrentIsUnique(h: History, quality: Id -> A.Qualification)
    requires Inv(h)
    requires forall s | s in h.scopes && s.current.Some? :: s.current.value < |h.assignments|
    ensures A.UniqueScopes(CurrentOf(h, h.scopes, quality))
  {
    hide CurrentOf;
    var current := CurrentOf(h, h.scopes, quality);
    forall a | a in current ensures A.WellFormed(a) {
      var i := CurrentComesFrom(h, quality, a);
      assert ScopeInv(h, i);
    }
    forall a, b | a in current && b in current && A.SameScope(a, b) ensures a == b {
      var i := CurrentComesFrom(h, quality, a);
      var j := CurrentComesFrom(h, quality, b);
      assert h.scopes[i].key == h.scopes[j].key;
      assert i == j;
    }
  }
}
