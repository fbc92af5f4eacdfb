/** The database's own resolver, and how far it agrees with the domain's. */
module AuthoritySql {
  import opened Prelude
  import opened Authority

  /** The LIKE operator: `%` matches any string, `_` any one character, and a backslash escapes the next character. */
  predicate Like(s: string, p: string)
    decreases |s| + |p|
  {
    if p == "" then s == ""
    else if p[0] == '%' then Like(s, p[1..]) || (s != "" && Like(s[1..], p))
    else if s == "" then false
    else if p[0] == '_' then Like(s[1..], p[1..])
    else if p[0] == '\\' && |p| > 1 then s[0] == p[1] && Like(s[1..], p[2..])
    else s[0] == p[0] && Like(s[1..], p[1..])
  }

  /** The characters the scope table admits in a path prefix contain neither of these. */
  predicate PlainKey(key: string) {
    '%' !in key && '\\' !in key
  }

  /** A prefix pattern matches when every character of the key does, an underscore matching anything. */
  predicate MatchesLoosely(path: string, key: string) {
    && |path| > |key| && path[|key|] == '/'
    && forall i :: 0 <= i < |key| ==> key[i] == '_' || path[i] == key[i]
  }

  lemma {:induction false} AnythingMatchesPercent(s: string)
    ensures Like(s, "%")
  {
    if s == "" {
      assert "%"[1..] == "" && Like(s, "");
    } else {
      AnythingMatchesPercent(s[1..]);
    }
  }

  lemma {:induction false} LikePrefixMeans(path: string, key: string)
    requires PlainKey(key)
    ensures Like(path, key + "/%") <==> MatchesLoosely(path, key)
  {
    var p := key + "/%";
    if key == "" {
      assert p == "/%" && p[1..] == "%";
      if path != "" { AnythingMatchesPercent(path[1..]); }
    } else {
      assert p[0] == key[0] && p[1..] == key[1..] + "/%";
      if path != "" {
        LikePrefixMeans(path[1..], key[1..]);
        if MatchesLoosely(path[1..], key[1..]) && (key[0] == '_' || path[0] == key[0]) {
          forall i | 0 <= i < |key| ensures key[i] == '_' || path[i] == key[i] {
            if i > 0 { assert key[i] == key[1..][i - 1] && path[i] == path[1..][i - 1]; }
          }
        }
      }
    }
  }

  /**
   * The database's prefix test and the domain's agree on every path exactly for the keys without an underscore,
   * which the scope table admits.
   */
  lemma PrefixTestsAgreeExactlyWhen(key: string)
    requires PlainKey(key)
    ensures (forall path: string :: Like(path, key + "/%") <==> key + "/" <= path) <==> '_' !in key
  {
    if '_' in key {
      var i :| 0 <= i < |key| && key[i] == '_';
      var path := key[i := 'x'] + "/";
      LikePrefixMeans(path, key);
      assert MatchesLoosely(path, key);
      assert path[i] == 'x' && (key + "/")[i] == '_';
      assert Like(path, key + "/%") && !(key + "/" <= path);
    } else {
      forall path: string ensures Like(path, key + "/%") <==> key + "/" <= path {
        LikePrefixMeans(path, key);
        if MatchesLoosely(path, key) {
          assert forall j :: 0 <= j < |key| ==> path[j] == key[j];
          assert key + "/" == path[..|key| + 1];
        }
        if key + "/" <= path {
          assert forall j :: 0 <= j < |key| + 1 ==> (key + "/")[j] == path[j];
        }
      }
    }
  }

  /** The evidence reference being qualified, with the ref of its frontier unit. */
  datatype Evidence = Evidence(sourceId: Id, path: string, refKey: string)

  datatype Verdict = NoWinner | ManyWinners | One(assignmentId: Id)

  /** `branches` gives the default branch of each connected source; an unconnected source drops out of the join. */
  predicate Matches(a: Assignment, categoryFacet: CategoryFacet, e: Evidence, branches: map<Id, string>) {
    && a.sourceId in branches
    && a.categoryFacet == categoryFacet
    && (a.scopeKind.Project? || e.path == a.scopeKey || Like(e.path, a.scopeKey + "/%"))
    && match a.refSelector
       case AnyRef => true
       case ExactRef => a.refKey == Some(e.refKey)
       case DefaultBranch => a.sourceId == e.sourceId && e.refKey == "refs/heads/" + branches[a.sourceId]
  }

  /** The joined rows, one per scope with a current assignment. */
  function Rows(assignments: seq<Assignment>, categoryFacet: CategoryFacet, e: Evidence, branches: map<Id, string>)
    : (r: seq<Assignment>)
    ensures forall a :: a in r <==> a in assignments && Matches(a, categoryFacet, e, branches)
  {
    Filter(assignments, a => Matches(a, categoryFacet, e, branches))
  }

  /** The rows of dense rank one: those no row outranks. */
  function TopRanked(rows: seq<Assignment>): (r: seq<Assignment>)
    ensures forall a :: a in r <==> a in rows && forall b | b in rows :: !Outranks(b, a)
  {
    Filter(rows, a => forall b | b in rows :: !Outranks(b, a))
  }

  function SqlResolve(assignments: seq<Assignment>, categoryFacet: CategoryFacet, e: Evidence, branches: map<Id, string>): Verdict {
    var top := TopRanked(Rows(assignments, categoryFacet, e, branches));
    if top == [] then NoWinner else if |top| != 1 then ManyWinners else One(top[0].id)
  }

  function VerdictOf(r: Resolution): Verdict {
    match r case Missing => NoWinner case Ambiguous => ManyWinners case Winner(a) => One(a.id)
  }

  /** Scopes are distinct rows, and each scope's current assignment is its own. */
  ghost predicate DistinctRows(assignments: seq<Assignment>) {
    forall i, j | 0 <= i < j < |assignments| :: assignments[i].id != assignments[j].id
  }

  lemma {:induction false} FilterKeepsDistinct(s: seq<Assignment>, p: Assignment -> bool)
    requires DistinctRows(s)
    ensures DistinctRows(Filter(s, p))
  {
    if s != [] {
      FilterKeepsDistinct(s[1..], p);
      forall a | a in Filter(s[1..], p) ensures a.id != s[0].id {
        var j :| 0 <= j < |s[1..]| && s[1..][j] == a;
        assert s[j + 1] == a;
      }
    }
  }

  lemma TopRankedDistinct(assignments: seq<Assignment>, categoryFacet: CategoryFacet, e: Evidence, branches: map<Id, string>)
    requires DistinctRows(assignments)
    ensures DistinctRows(TopRanked(Rows(assignments, categoryFacet, e, branches)))
  {
    var rows := Rows(assignments, categoryFacet, e, branches);
    FilterKeepsDistinct(assignments, a => Matches(a, categoryFacet, e, branches));
    FilterKeepsDistinct(rows, a => forall b | b in rows :: !Outranks(b, a));
  }

  /** The domain's target for a reference: the default ref is that of the reference's own source. */
  function TargetOf(categoryFacet: CategoryFacet, e: Evidence, branches: map<Id, string>): Target
    requires e.sourceId in branches
  {
    Target(categoryFacet, e.path, e.refKey, "refs/heads/" + branches[e.sourceId])
  }

  /**
   * Where every assigned source is connected, no current path prefix has an underscore, and a default-branch assignment
   * of another source does not meet the default ref of the reference's source, both ask the same of an assignment.
   */
  ghost predicate Comparable(assignments: seq<Assignment>, e: Evidence, branches: map<Id, string>) {
    && e.sourceId in branches
    && (forall a | a in assignments :: a.sourceId in branches)
    && (forall a | a in assignments && a.scopeKind.PathPrefix? :: PlainKey(a.scopeKey) && '_' !in a.scopeKey)
    && (forall a | a in assignments && a.refSelector.DefaultBranch? ::
          a.sourceId == e.sourceId || e.refKey != "refs/heads/" + branches[e.sourceId])
  }

  lemma SameRowsMatch(assignments: seq<Assignment>, categoryFacet: CategoryFacet, e: Evidence, branches: map<Id, string>, a: Assignment)
    requires Comparable(assignments, e, branches) && a in assignments
    requires a.refSelector.DefaultBranch? && a.sourceId != e.sourceId ==> e.refKey != "refs/heads/" + branches[e.sourceId]
    ensures Matches(a, categoryFacet, e, branches) <==> Applies(a, TargetOf(categoryFacet, e, branches))
  {
    if a.scopeKind.PathPrefix? {
      PrefixTestsAgreeExactlyWhen(a.scopeKey);
      assert Like(e.path, a.scopeKey + "/%") <==> a.scopeKey + "/" <= e.path;
    }
  }

  /** Both resolvers then reach the same verdict: the same assignment, or missing, or ambiguous. */
  lemma ResolversAgree(assignments: seq<Assignment>, categoryFacet: CategoryFacet, e: Evidence, branches: map<Id, string>)
    requires DistinctRows(assignments) && Comparable(assignments, e, branches)
    ensures SqlResolve(assignments, categoryFacet, e, branches) == VerdictOf(Resolve(assignments, TargetOf(categoryFacet, e, branches)))
  {
    var t := TargetOf(categoryFacet, e, branches);
    var top := TopRanked(Rows(assignments, categoryFacet, e, branches));
    TopRankedDistinct(assignments, categoryFacet, e, branches);
    forall a ensures a in top <==> Best(assignments, t, a) {
      forall b | b in assignments ensures Matches(b, categoryFacet, e, branches) <==> Applies(b, t) {
        SameRowsMatch(assignments, categoryFacet, e, branches, b);
      }
    }
    VerdictFromBest(assignments, t, top);
  }

  /**
   * With two connected sources they part on the ref that is the default of both: the domain applies the other source's
   * default-branch assignment to it, the database does not.
   */
  lemma OtherSourceSplitsResolvers(a: Assignment, e: Evidence, branch: string)
    requires WellFormed(a) && a.scopeKind.Project? && a.refSelector.DefaultBranch? && a.sourceId != e.sourceId && e.refKey == "refs/heads/" + branch
    ensures
      var branches := map[a.sourceId := branch, e.sourceId := branch];
      && Resolve([a], TargetOf(a.categoryFacet, e, branches)) == Winner(a)
      && SqlResolve([a], a.categoryFacet, e, branches) == NoWinner
  {
    var branches := map[a.sourceId := branch, e.sourceId := branch];
    var t := TargetOf(a.categoryFacet, e, branches);
    NeverAmbiguous([a], t);
    assert a in [a] && Best([a], t, a);
    var rows := Rows([a], a.categoryFacet, e, branches);
    assert !Matches(a, a.categoryFacet, e, branches);
    SomeMember(rows);
  }

  lemma SomeMember(s: seq<Assignment>)
    ensures s == [] || exists a :: a in s
  {
    if s != [] { assert s[0] in s; }
  }

  lemma VerdictFromBest(assignments: seq<Assignment>, t: Target, top: seq<Assignment>)
    requires DistinctRows(top) && forall a :: a in top <==> Best(assignments, t, a)
    ensures VerdictOf(Resolve(assignments, t)) ==
            if top == [] then NoWinner else if |top| != 1 then ManyWinners else One(top[0].id)
  {
    ResolveMeans(assignments, t);
    if top == [] {
      SomeBestExists(assignments, t);
    } else {
      assert Best(assignments, t, top[0]);
      if |top| > 1 {
        assert Best(assignments, t, top[1]) && top[0].id != top[1].id;
      }
    }
  }

  /** When something applies, something is best. */
  lemma SomeBestExists(assignments: seq<Assignment>, t: Target)
    ensures (exists a :: a in assignments && Applies(a, t)) <==> exists a :: Best(assignments, t, a)
  {
    if a :| a in assignments && Applies(a, t) {
      assert a in Candidates(assignments, t);
      TiedAreBest(assignments, t, Sorted(Candidates(assignments, t))[0]);
    }
  }

  /**
   * An underscore makes them part. Whenever one current prefix matches another only through an underscore, at the
   * same depth and ref, then below the second the domain picks the second and the database reports ambiguity.
   */
  lemma UnderscoreSplitsResolvers(plain: Assignment, wild: Assignment, i: nat, path: string, refKey: string, branch: string)
    requires plain.categoryFacet == wild.categoryFacet && plain.id != wild.id && plain.sourceId == wild.sourceId
    requires plain.scopeKind.PathPrefix? && wild.scopeKind.PathPrefix? && plain.refSelector.AnyRef? && wild.refSelector.AnyRef?
    requires plain.refKey.None? && wild.refKey.None? && PlainKey(plain.scopeKey) && PlainKey(wild.scopeKey)
    requires |plain.scopeKey| == |wild.scopeKey| < |path|
    requires i < |plain.scopeKey| && plain.scopeKey[i] != wild.scopeKey[i]
    requires |Split(plain.scopeKey)| == |Split(wild.scopeKey)|
    requires plain.scopeKey + "/" <= path && MatchesLoosely(path, wild.scopeKey)
    ensures var t := Target(plain.categoryFacet, path, refKey, "refs/heads/" + branch);
            var e := Evidence(plain.sourceId, path, refKey);
            && UniqueScopes([plain, wild])
            && Resolve([plain, wild], t) == Winner(plain)
            && SqlResolve([plain, wild], plain.categoryFacet, e, map[plain.sourceId := branch]) == ManyWinners
  {
    var t := Target(plain.categoryFacet, path, refKey, "refs/heads/" + branch);
    NeverAmbiguous([plain, wild], t);
    assert (plain.scopeKey + "/")[i] == path[i] && (wild.scopeKey + "/")[i] != path[i];
    assert plain in [plain, wild] && Best([plain, wild], t, plain);
    BothTopRanked(plain, wild, path, refKey, branch);
  }

  lemma BothTopRanked(plain: Assignment, wild: Assignment, path: string, refKey: string, branch: string)
    requires plain.categoryFacet == wild.categoryFacet && plain.sourceId == wild.sourceId && plain != wild
    requires plain.scopeKind.PathPrefix? && wild.scopeKind.PathPrefix? && plain.refSelector.AnyRef? && wild.refSelector.AnyRef?
    requires PlainKey(plain.scopeKey) && PlainKey(wild.scopeKey) && SameRank(plain, wild)
    requires plain.scopeKey + "/" <= path && MatchesLoosely(path, wild.scopeKey)
    ensures SqlResolve([plain, wild], plain.categoryFacet, Evidence(plain.sourceId, path, refKey), map[plain.sourceId := branch])
            == ManyWinners
  {
    var e, branches := Evidence(plain.sourceId, path, refKey), map[plain.sourceId := branch];
    LikePrefixMeans(path, wild.scopeKey);
    LikePrefixMeans(path, plain.scopeKey);
    assert MatchesLoosely(path, plain.scopeKey) by {
      assert forall i :: 0 <= i < |plain.scopeKey| + 1 ==> (plain.scopeKey + "/")[i] == path[i];
    }
    var rows := Rows([plain, wild], plain.categoryFacet, e, branches);
    var top := TopRanked(rows);
    assert plain in [plain, wild] && wild in [plain, wild];
    assert Matches(plain, plain.categoryFacet, e, branches) && Matches(wild, plain.categoryFacet, e, branches);
    assert forall a :: a in rows <==> a == plain || a == wild;
    assert plain in top && wild in top;
  }

  /** The smallest such pair: with `a_b` and `aXb` current, a path below `aXb` has a winner in the domain and none in the database. */
  lemma UnderscoreExample(refKey: string, branch: string)
    ensures var plain := Assignment(0, 0, Code, PathPrefix, "aXb", AnyRef, None, Effective);
            var wild := Assignment(1, 0, Code, PathPrefix, "a_b", AnyRef, None, Effective);
            && Resolve([plain, wild], Target(Code, "aXb/c", refKey, "refs/heads/" + branch)) == Winner(plain)
            && SqlResolve([plain, wild], Code, Evidence(0, "aXb/c", refKey), map[0 := branch]) == ManyWinners
  {
    var plain := Assignment(0, 0, Code, PathPrefix, "aXb", AnyRef, None, Effective);
    var wild := Assignment(1, 0, Code, PathPrefix, "a_b", AnyRef, None, Effective);
    assert "aXb" + "/" == "aXb/" && "aXb/" <= "aXb/c";
    assert "aXb"[1..][1..] == "b" == "a_b"[1..][1..];
    assert |Split("aXb")| == |Split("a_b")| && MatchesLoosely("aXb/c", "a_b");
    hide Split, Resolve, SqlResolve;
    UnderscoreSplitsResolvers(plain, wild, 1, "aXb/c", refKey, branch);
  }
}
