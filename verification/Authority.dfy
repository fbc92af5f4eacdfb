/** Resolution of the governing Source Authority for a target, as the domain code does it. */
module Authority {
  import opened Prelude

  datatype CategoryFacet = Code | Configuration | Documentation | Decision | IssueState | PullRequestState
  datatype ScopeKind = Project | PathPrefix
  datatype RefSelector = AnyRef | DefaultBranch | ExactRef
  datatype Qualification = Effective | SourceUnavailable | SourceUnobserved | SourceBehind | RevalidationRequired

  /** A current assignment together with the scope it is current for. */
  datatype Assignment = Assignment(
    id: Id, sourceId: Id, categoryFacet: CategoryFacet, scopeKind: ScopeKind, scopeKey: string,
    refSelector: RefSelector, refKey: Option<string>, qualification: Qualification)

  datatype Target = Target(categoryFacet: CategoryFacet, scopeKey: string, refKey: string, defaultRefKey: string)

  datatype Resolution = Missing | Ambiguous | Winner(assignment: Assignment)

  // ----- paths -----

  /** The segments between slashes; the empty string has one empty segment. */
  function Split(s: string): (segments: seq<string>)
    ensures |segments| >= 1
  {
    if s == "" then [""]
    else
      var rest := Split(s[1..]);
      if s[0] == '/' then [""] + rest else [[s[0]] + rest[0]] + rest[1..]
  }

  /** Extending a path by a slash, and then anything, adds a segment. */
  lemma {:induction false} ExtensionIsDeeper(a: string, b: string)
    requires |a| < |b| && a == b[..|a|] && b[|a|] == '/'
    ensures |Split(a)| < |Split(b)|
  {
    if a != "" {
      assert a[1..] == b[1..][..|a| - 1];
      ExtensionIsDeeper(a[1..], b[1..]);
    }
  }

  predicate Below(path: string, key: string) {
    path == key || key + "/" <= path
  }

  /** Of two prefixes of one path, the longer has more segments; so equally deep prefixes are the same prefix. */
  lemma EqualDepthPrefixesAreEqual(path: string, a: string, b: string)
    requires Below(path, a) && Below(path, b) && |Split(a)| == |Split(b)|
    ensures a == b
  {
    if |a| < |b| {
      DeeperIsLonger(path, a, b);
    } else if |b| < |a| {
      DeeperIsLonger(path, b, a);
    } else {
      assert a == path[..|a|] == b;
    }
  }

  lemma DeeperIsLonger(path: string, a: string, b: string)
    requires Below(path, a) && Below(path, b) && |a| < |b|
    ensures |Split(a)| < |Split(b)|
  {
    assert (a + "/")[|a|] == '/' && path[|a|] == '/';
    assert a == b[..|a|] by {
      forall i | 0 <= i < |a| ensures a[i] == b[i] { assert (a + "/")[i] == path[i]; }
    }
    ExtensionIsDeeper(a, b);
  }

  // ----- the resolver -----

  predicate Applies(a: Assignment, t: Target) {
    && a.categoryFacet == t.categoryFacet
    && (a.scopeKind.PathPrefix? ==> Below(t.scopeKey, a.scopeKey))
    && match a.refSelector
       case ExactRef => a.refKey == Some(t.refKey)
       case DefaultBranch => t.refKey == t.defaultRefKey
       case AnyRef => true
  }

  function RefRank(a: Assignment): int {
    match a.refSelector case ExactRef => 2 case DefaultBranch => 1 case AnyRef => 0
  }

  function ScopeRank(a: Assignment): int {
    if a.scopeKind.Project? then 0 else |Split(a.scopeKey)|
  }

  /** The sort comparator: negative when `left` goes first. */
  function Compare(left: Assignment, right: Assignment): int {
    if RefRank(right) != RefRank(left) then RefRank(right) - RefRank(left) else ScopeRank(right) - ScopeRank(left)
  }

  predicate SameRank(a: Assignment, b: Assignment) {
    RefRank(a) == RefRank(b) && ScopeRank(a) == ScopeRank(b)
  }

  predicate Outranks(a: Assignment, b: Assignment) {
    RefRank(a) > RefRank(b) || (RefRank(a) == RefRank(b) && ScopeRank(a) > ScopeRank(b))
  }

  function Filter(s: seq<Assignment>, p: Assignment -> bool): (r: seq<Assignment>)
    ensures forall a :: a in r <==> a in s && p(a)
  {
    if s == [] then [] else (if p(s[0]) then [s[0]] else []) + Filter(s[1..], p)
  }

  /** A stable sort by the comparator. */
  function Sorted(s: seq<Assignment>): (r: seq<Assignment>)
    ensures |r| == |s| && forall a :: a in r <==> a in s
    ensures forall a | a in r :: !Outranks(a, r[0])
  {
    if s == [] then [] else Insert(s[0], Sorted(s[1..]))
  }

  function Insert(a: Assignment, s: seq<Assignment>): (r: seq<Assignment>)
    ensures |r| == |s| + 1 && forall b :: b in r <==> b == a || b in s
    ensures r[0] == if s == [] || Compare(a, s[0]) <= 0 then a else s[0]
  {
    if s == [] || Compare(a, s[0]) <= 0 then [a] + s else [s[0]] + Insert(a, s[1..])
  }

  function Ids(s: seq<Assignment>): set<Id> {
    set a | a in s :: a.id
  }

  function Candidates(assignments: seq<Assignment>, t: Target): (r: seq<Assignment>)
    ensures forall a :: a in r <==> a in assignments && Applies(a, t)
  {
    Filter(assignments, a => Applies(a, t))
  }

  function Tied(candidates: seq<Assignment>, best: Assignment): (r: seq<Assignment>)
    ensures forall a :: a in r <==> a in candidates && SameRank(a, best)
  {
    Filter(candidates, a => SameRank(a, best))
  }

  function Resolve(assignments: seq<Assignment>, t: Target): Resolution {
    var candidates := Candidates(assignments, t);
    if candidates == [] then Missing
    else
      var best := Sorted(candidates)[0];
      if |Ids(Tied(candidates, best))| != 1 then Ambiguous else Winner(best)
  }

  // ----- what resolution means -----

  /** `a` applies, and nothing that applies outranks it. */
  ghost predicate Best(assignments: seq<Assignment>, t: Target, a: Assignment) {
    a in assignments && Applies(a, t) && forall b | b in assignments && Applies(b, t) :: !Outranks(b, a)
  }

  lemma OneElement<T>(s: set<T>, x: T)
    requires x in s
    ensures |s| == 1 <==> forall y :: y in s ==> y == x
  {
    if forall y :: y in s ==> y == x {
      assert s == {x};
    }
    if |s| == 1 {
      forall y | y in s ensures y == x {
        assert |s - {x}| == 0;
        assert y != x ==> y in s - {x};
      }
    }
  }

  /** The tied candidates are exactly the best applicable assignments. */
  lemma TiedAreBest(assignments: seq<Assignment>, t: Target, best: Assignment)
    requires var candidates := Candidates(assignments, t); candidates != [] && best == Sorted(candidates)[0]
    ensures var tied := Tied(Candidates(assignments, t), best);
            best in tied && forall a :: a in tied <==> Best(assignments, t, a)
  {
    var candidates := Candidates(assignments, t);
    assert best in Sorted(candidates);
    forall a | a in candidates && SameRank(a, best) ensures Best(assignments, t, a) {
      forall b | b in assignments && Applies(b, t) ensures !Outranks(b, a) { assert b in Sorted(candidates); }
    }
    forall a | Best(assignments, t, a) ensures a in candidates && SameRank(a, best) {
      assert a in Sorted(candidates);
    }
  }

  /** The resolver's verdict, read off the applicable assignments: none, several best ones, or one best identifier. */
  lemma ResolveMeans(assignments: seq<Assignment>, t: Target)
    ensures Resolve(assignments, t) == Missing <==> forall a | a in assignments :: !Applies(a, t)
    ensures Resolve(assignments, t) == Ambiguous <==>
              exists a, b :: Best(assignments, t, a) && Best(assignments, t, b) && a.id != b.id
    ensures Resolve(assignments, t).Winner? ==> Best(assignments, t, Resolve(assignments, t).assignment)
  {
    var candidates := Candidates(assignments, t);
    if candidates == [] {
      forall a | a in assignments ensures !Applies(a, t) { assert Applies(a, t) ==> a in candidates; }
    } else {
      assert candidates[0] in candidates;
      TiedAreBest(assignments, t, Sorted(candidates)[0]);
      AmbiguousMeans(assignments, t, Sorted(candidates)[0], Tied(candidates, Sorted(candidates)[0]));
    }
  }

  lemma AmbiguousMeans(assignments: seq<Assignment>, t: Target, best: Assignment, tied: seq<Assignment>)
    requires best in tied && forall a :: a in tied <==> Best(assignments, t, a)
    ensures |Ids(tied)| != 1 <==> exists a, b :: Best(assignments, t, a) && Best(assignments, t, b) && a.id != b.id
  {
    assert best.id in Ids(tied);
    OneElement(Ids(tied), best.id);
    if |Ids(tied)| != 1 {
      var i :| i in Ids(tied) && i != best.id;
      var a :| a in tied && a.id == i;
      assert Best(assignments, t, a) && Best(assignments, t, best) && a.id != best.id;
    }
    if a, b :| Best(assignments, t, a) && Best(assignments, t, b) && a.id != b.id {
      assert a in tied && b in tied;
      assert a.id in Ids(tied) && b.id in Ids(tied);
    }
  }

  // ----- unique scopes -----

  /** What the scope table's checks guarantee of a row. */
  predicate WellFormed(a: Assignment) {
    && (a.scopeKind.Project? ==> a.scopeKey == "/")
    && (a.refSelector.ExactRef? <==> a.refKey.Some?)
  }

  predicate SameScope(a: Assignment, b: Assignment) {
    && a.categoryFacet == b.categoryFacet && a.scopeKind == b.scopeKind && a.scopeKey == b.scopeKey
    && a.refSelector == b.refSelector && a.refKey == b.refKey
  }

  /** The unique scope identity: no two current assignments share a scope. */
  ghost predicate UniqueScopes(assignments: seq<Assignment>) {
    && (forall a | a in assignments :: WellFormed(a))
    && (forall a, b | a in assignments && b in assignments && SameScope(a, b) :: a == b)
  }

  /** Two applicable assignments of equal rank have the same scope, whatever strings they carry. */
  lemma EqualRankMeansSameScope(a: Assignment, b: Assignment, t: Target)
    requires WellFormed(a) && WellFormed(b) && Applies(a, t) && Applies(b, t) && SameRank(a, b)
    ensures SameScope(a, b)
  {
    if a.scopeKind.PathPrefix? && b.scopeKind.PathPrefix? {
      EqualDepthPrefixesAreEqual(t.scopeKey, a.scopeKey, b.scopeKey);
    }
  }

  lemma BestIsUnique(assignments: seq<Assignment>, t: Target, a: Assignment, b: Assignment)
    requires UniqueScopes(assignments) && Best(assignments, t, a) && Best(assignments, t, b)
    ensures a == b
  {
    EqualRankMeansSameScope(a, b, t);
  }

  /** With unique scopes resolution is never ambiguous, and the winner strictly outranks every other applicable assignment. */
  lemma NeverAmbiguous(assignments: seq<Assignment>, t: Target)
    requires UniqueScopes(assignments)
    ensures Resolve(assignments, t) != Ambiguous
    ensures forall a :: Resolve(assignments, t) == Winner(a) <==> Best(assignments, t, a)
    ensures Resolve(assignments, t).Winner? ==>
              forall b | b in assignments && Applies(b, t) && b != Resolve(assignments, t).assignment ::
                Outranks(Resolve(assignments, t).assignment, b)
  {
    var r := Resolve(assignments, t);
    ResolveMeans(assignments, t);
    if a, b :| Best(assignments, t, a) && Best(assignments, t, b) && a.id != b.id {
      BestIsUnique(assignments, t, a, b);
    }
    forall a ensures r == Winner(a) <==> Best(assignments, t, a) {
      if Best(assignments, t, a) { BestIsUnique(assignments, t, a, r.assignment); }
    }
    if r.Winner? {
      forall b | b in assignments && Applies(b, t) && b != r.assignment ensures Outranks(r.assignment, b) {
        if SameRank(r.assignment, b) { EqualRankMeansSameScope(r.assignment, b, t); }
      }
    }
  }

  /** The verdict depends on which assignments there are, not on their order. */
  lemma OrderIsIrrelevant(a: seq<Assignment>, b: seq<Assignment>, t: Target)
    requires UniqueScopes(a) && forall x :: x in a <==> x in b
    ensures Resolve(a, t) == Resolve(b, t)
  {
    NeverAmbiguous(a, t);
    NeverAmbiguous(b, t);
    ResolveMeans(a, t);
    ResolveMeans(b, t);
    if Resolve(a, t).Winner? {
      assert Best(b, t, Resolve(a, t).assignment);
    }
  }

  /** Adding an assignment that does not apply, or that the winner outranks, changes nothing. */
  lemma LessSpecificIsIrrelevant(assignments: seq<Assignment>, extra: Assignment, t: Target)
    requires UniqueScopes(assignments + [extra]) && Resolve(assignments, t).Winner?
    requires Applies(extra, t) ==> Outranks(Resolve(assignments, t).assignment, extra)
    ensures Resolve(assignments + [extra], t) == Resolve(assignments, t)
  {
    NeverAmbiguous(assignments, t);
    NeverAmbiguous(assignments + [extra], t);
    assert Best(assignments + [extra], t, Resolve(assignments, t).assignment);
  }

  /** A degraded winner is kept: there is no fallback to a broader assignment. */
  lemma DegradingNeverFallsBack(assignments: seq<Assignment>, i: nat, q: Qualification, t: Target)
    requires UniqueScopes(assignments) && i < |assignments| && Resolve(assignments, t) == Winner(assignments[i])
    requires forall j | 0 <= j < |assignments| && j != i :: assignments[j] != assignments[i]
    ensures var degraded := assignments[i].(qualification := q);
            Resolve(assignments[i := degraded], t) == Winner(degraded)
  {
    var degraded := assignments[i].(qualification := q);
    var changed := assignments[i := degraded];
    NeverAmbiguous(assignments, t);
    DegradingKeepsUnique(assignments, i, degraded);
    assert changed[i] == degraded && Best(changed, t, degraded);
    NeverAmbiguous(changed, t);
  }

  lemma DegradingKeepsUnique(assignments: seq<Assignment>, i: nat, degraded: Assignment)
    requires UniqueScopes(assignments) && i < |assignments|
    requires forall j | 0 <= j < |assignments| && j != i :: assignments[j] != assignments[i]
    requires degraded == assignments[i].(qualification := degraded.qualification)
    ensures UniqueScopes(assignments[i := degraded])
    ensures forall b :: b in assignments[i := degraded] <==> b == degraded || (b in assignments && b != assignments[i])
  {
    var changed := assignments[i := degraded];
    forall b ensures b in changed <==> b == degraded || (b in assignments && b != assignments[i]) {
      if b in assignments && b != assignments[i] {
        var j :| 0 <= j < |assignments| && assignments[j] == b;
        assert changed[j] == b;
      }
      assert changed[i] == degraded;
    }
    forall a | a in changed ensures WellFormed(a) {
      assert WellFormed(if a == degraded then assignments[i] else a);
    }
    forall a, b | a in changed && b in changed && SameScope(a, b) ensures a == b {
      var oldA, oldB := if a == degraded then assignments[i] else a, if b == degraded then assignments[i] else b;
      assert oldA in assignments && oldB in assignments && SameScope(oldA, oldB);
      assert oldA == oldB;
    }
  }
}
