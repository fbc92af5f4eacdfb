/** Exactly when the database's resolver and the domain's agree on all the evidence of a source. */
module AuthorityAgreement {
  import opened Prelude
  import opened Authority
  import opened AuthoritySql

  /** The characters that the scope table admits in a path prefix. */
  predicate KeyCharacter(c: char) {
    'A' <= c <= 'Z' || 'a' <= c <= 'z' || '0' <= c <= '9' || c == '.' || c == '_' || c == '-' || c == '/'
  }

  predicate AdmittedKey(key: string) {
    key != "" && forall i :: 0 <= i < |key| ==> KeyCharacter(key[i])
  }

  /** The current assignments of a project that has connected one source. */
  ghost predicate OneSource(assignments: seq<Assignment>, source: Id, branches: map<Id, string>) {
    && source in branches && UniqueScopes(assignments) && DistinctRows(assignments)
    && (forall a | a in assignments :: a.sourceId == source)
    && (forall a | a in assignments && a.scopeKind.PathPrefix? :: AdmittedKey(a.scopeKey))
  }

  ghost predicate Agree(assignments: seq<Assignment>, categoryFacet: CategoryFacet, e: Evidence, branches: map<Id, string>)
    requires e.sourceId in branches
  {
    SqlResolve(assignments, categoryFacet, e, branches) == VerdictOf(Resolve(assignments, TargetOf(categoryFacet, e, branches)))
  }

  predicate Wild(a: Assignment) {
    a.scopeKind.PathPrefix? && '_' in a.scopeKey
  }

  /** An exact-ref assignment for the default ref covers everything below the key of a default-branch assignment. */
  ghost predicate Masked(assignments: seq<Assignment>, a: Assignment, defaultRef: string) {
    a.refSelector.DefaultBranch?
    && exists x | x in assignments ::
         x.categoryFacet == a.categoryFacet && x.refSelector.ExactRef? && x.refKey == Some(defaultRef)
         && (x.scopeKind.Project? || Below(a.scopeKey, x.scopeKey))
  }

  /** No current path key has an underscore, but for default-branch assignments that never win. */
  ghost predicate Unambiguous(assignments: seq<Assignment>, defaultRef: string) {
    forall a | a in assignments && Wild(a) :: Masked(assignments, a, defaultRef)
  }

  // ----- keys and paths -----

  lemma AdmittedIsPlain(key: string)
    requires AdmittedKey(key)
    ensures PlainKey(key) && '!' !in key
  {
  }

  /** What the database asks of an assignment of the connected source. */
  lemma MatchesMeans(a: Assignment, categoryFacet: CategoryFacet, e: Evidence, branches: map<Id, string>)
    requires a.sourceId == e.sourceId && e.sourceId in branches && (a.scopeKind.PathPrefix? ==> AdmittedKey(a.scopeKey))
    ensures Matches(a, categoryFacet, e, branches) <==>
      && a.categoryFacet == categoryFacet
      && (a.scopeKind.Project? || e.path == a.scopeKey || MatchesLoosely(e.path, a.scopeKey))
      && (a.refSelector.ExactRef? ==> a.refKey == Some(e.refKey))
      && (a.refSelector.DefaultBranch? ==> e.refKey == "refs/heads/" + branches[e.sourceId])
  {
    if a.scopeKind.PathPrefix? {
      AdmittedIsPlain(a.scopeKey);
      LikePrefixMeans(e.path, a.scopeKey);
    }
  }

  lemma BelowIsLoose(path: string, key: string)
    ensures key + "/" <= path ==> MatchesLoosely(path, key)
    ensures MatchesLoosely(path, key) && '_' !in key ==> key + "/" <= path
  {
    if key + "/" <= path {
      assert forall j :: 0 <= j < |key| + 1 ==> (key + "/")[j] == path[j];
    }
    if MatchesLoosely(path, key) && '_' !in key {
      assert key + "/" == path[..|key| + 1];
    }
  }

  /** The domain asks no less: what applies matches, and without an underscore what matches applies. */
  lemma AppliesMatches(a: Assignment, categoryFacet: CategoryFacet, e: Evidence, branches: map<Id, string>)
    requires a.sourceId == e.sourceId && e.sourceId in branches && (a.scopeKind.PathPrefix? ==> AdmittedKey(a.scopeKey))
    ensures Applies(a, TargetOf(categoryFacet, e, branches)) ==> Matches(a, categoryFacet, e, branches)
    ensures Matches(a, categoryFacet, e, branches) && !Wild(a) ==> Applies(a, TargetOf(categoryFacet, e, branches))
  {
    MatchesMeans(a, categoryFacet, e, branches);
    BelowIsLoose(e.path, a.scopeKey);
  }

  // ----- masked underscores do no harm -----

  /** A path that matches a wild key lies below every plain prefix of that key. */
  lemma LooseStaysBelow(path: string, key: string, prefix: string)
    requires MatchesLoosely(path, key) && Below(key, prefix) && '_' in key && '_' !in prefix
    ensures Below(path, prefix)
  {
    assert prefix != key;
    assert forall j :: 0 <= j < |prefix| + 1 ==> (prefix + "/")[j] == key[j];
    forall j | 0 <= j < |prefix| + 1 ensures path[j] == (prefix + "/")[j] {
      assert j < |prefix| ==> prefix[j] == (prefix + "/")[j] && prefix[j] in prefix;
    }
    assert prefix + "/" == path[..|prefix| + 1];
  }

  /** What only the database matches is outranked by something that both match. */
  lemma MaskedIsOutranked(assignments: seq<Assignment>, categoryFacet: CategoryFacet, e: Evidence, branches: map<Id, string>, a: Assignment)
    requires OneSource(assignments, e.sourceId, branches) && Unambiguous(assignments, "refs/heads/" + branches[e.sourceId])
    requires a in assignments && Matches(a, categoryFacet, e, branches) && !Applies(a, TargetOf(categoryFacet, e, branches))
    ensures exists x | x in assignments :: Applies(x, TargetOf(categoryFacet, e, branches)) && Outranks(x, a)
  {
    var defaultRef := "refs/heads/" + branches[e.sourceId];
    AppliesMatches(a, categoryFacet, e, branches);
    MatchesMeans(a, categoryFacet, e, branches);
    assert Masked(assignments, a, defaultRef);
    var x :| x in assignments && x.categoryFacet == a.categoryFacet && x.refSelector.ExactRef? && x.refKey == Some(defaultRef)
             && (x.scopeKind.Project? || Below(a.scopeKey, x.scopeKey));
    if x.scopeKind.PathPrefix? {
      assert Wild(x) ==> Masked(assignments, x, defaultRef);
      LooseStaysBelow(e.path, a.scopeKey, x.scopeKey);
    }
    assert Applies(x, TargetOf(categoryFacet, e, branches)) && Outranks(x, a);
  }

  lemma TopIsBest(assignments: seq<Assignment>, categoryFacet: CategoryFacet, e: Evidence, branches: map<Id, string>, a: Assignment)
    requires OneSource(assignments, e.sourceId, branches) && Unambiguous(assignments, "refs/heads/" + branches[e.sourceId])
    ensures a in TopRanked(Rows(assignments, categoryFacet, e, branches)) <==> Best(assignments, TargetOf(categoryFacet, e, branches), a)
  {
    var t := TargetOf(categoryFacet, e, branches);
    var rows := Rows(assignments, categoryFacet, e, branches);
    forall b | b in assignments
      ensures Applies(b, t) ==> b in rows
      ensures b in rows && !Applies(b, t) ==> exists x | x in assignments :: Applies(x, t) && Outranks(x, b)
    {
      AppliesMatches(b, categoryFacet, e, branches);
      if b in rows && !Applies(b, t) { MaskedIsOutranked(assignments, categoryFacet, e, branches, b); }
    }
    hide Matches, Rows, Applies, OneSource, Unambiguous;
    if a in TopRanked(rows) {
      assert a in rows && a in assignments;
    }
    if Best(assignments, t, a) {
      forall b | b in rows ensures !Outranks(b, a) {
        if !Applies(b, t) { OutrankedByApplicable(assignments, t, a, b); }
      }
    }
  }

  lemma OutrankedByApplicable(assignments: seq<Assignment>, t: Target, a: Assignment, b: Assignment)
    requires Best(assignments, t, a) && exists x | x in assignments :: Applies(x, t) && Outranks(x, b)
    ensures !Outranks(b, a)
  {
    var x :| x in assignments && Applies(x, t) && Outranks(x, b);
    assert !Outranks(x, a);
  }

  lemma UnambiguousAgrees(assignments: seq<Assignment>, categoryFacet: CategoryFacet, e: Evidence, branches: map<Id, string>)
    requires OneSource(assignments, e.sourceId, branches) && Unambiguous(assignments, "refs/heads/" + branches[e.sourceId])
    ensures Agree(assignments, categoryFacet, e, branches)
  {
    var top := TopRanked(Rows(assignments, categoryFacet, e, branches));
    TopRankedDistinct(assignments, categoryFacet, e, branches);
    forall a ensures a in top <==> Best(assignments, TargetOf(categoryFacet, e, branches), a) {
      TopIsBest(assignments, categoryFacet, e, branches, a);
    }
    hide Best;
    VerdictFromBest(assignments, TargetOf(categoryFacet, e, branches), top);
  }

  // ----- an unmasked underscore does -----

  /** The key with every underscore read as a character that no key has. */
  function Strange(key: string): string {
    seq(|key|, i requires 0 <= i < |key| => if key[i] == '_' then '!' else key[i])
  }

  function StrangePath(key: string): string { Strange(key) + "/f" }

  lemma StrangeMatches(key: string)
    requires AdmittedKey(key) && '_' in key
    ensures MatchesLoosely(StrangePath(key), key) && !Below(StrangePath(key), key) && '!' in StrangePath(key)
  {
    var i :| 0 <= i < |key| && key[i] == '_';
    var path := StrangePath(key);
    assert path[i] == '!' && (key + "/")[i] == '_' && |path| > |key|;
    AdmittedIsPlain(key);
  }

  /** A plain key that matches such a path is a prefix of the wild key; every key that does is no deeper. */
  lemma OtherMatches(key: string, other: string)
    requires AdmittedKey(key) && AdmittedKey(other) && MatchesLoosely(StrangePath(key), other)
    ensures |other| <= |key| && |Split(other)| <= |Split(key)|
    ensures '_' in key && '_' !in other ==> Below(key, other)
  {
    var path := StrangePath(key);
    assert path[|path| - 1] == 'f' && path[|key|] == '/';
    assert |path| == |key| + 2;
    forall i | 0 <= i < |other| && other[i] == '/' ensures key[i] == '/' { assert path[i] == '/'; }
    SlashesCount(key, other);
    if '_' in key && '_' !in other {
      forall i | 0 <= i < |other| ensures other[i] == key[i] {
        assert other[i] in other && path[i] == other[i] && KeyCharacter(other[i]);
      }
      var u :| 0 <= u < |key| && key[u] == '_';
      assert |other| <= u;
      assert path[|other|] == '/';
      assert forall j :: 0 <= j < |other| + 1 ==> (other + "/")[j] == key[j];
      assert other + "/" == key[..|other| + 1];
    }
  }

  /** Fewer slashes, in places where the longer string has them too, mean fewer segments. */
  lemma {:induction false} SlashesCount(a: string, b: string)
    requires |b| <= |a| && forall i :: 0 <= i < |b| && b[i] == '/' ==> a[i] == '/'
    ensures |Split(b)| <= |Split(a)|
    decreases |b|
  {
    if b != "" {
      forall i | 0 <= i < |b[1..]| && b[1..][i] == '/' ensures a[1..][i] == '/' { assert b[i + 1] == '/'; }
      SlashesCount(a[1..], b[1..]);
      assert b[0] == '/' ==> a[0] == '/';
    }
  }

  /** A ref that no assignment names and that is not the default one. */
  function LongestRef(assignments: seq<Assignment>): (n: nat)
    ensures forall a | a in assignments && a.refKey.Some? :: |a.refKey.value| <= n
  {
    if assignments == [] then 0
    else
      var rest, a := LongestRef(assignments[1..]), assignments[0];
      if a.refKey.Some? && |a.refKey.value| > rest then |a.refKey.value| else rest
  }

  function UnknownRef(assignments: seq<Assignment>, defaultRef: string): (r: string)
    ensures r != defaultRef && forall a | a in assignments && a.refKey.Some? :: a.refKey.value != r
  {
    seq(LongestRef(assignments) + |defaultRef| + 1, _ => 'r')
  }

  /** A ref on which nothing outranks the wild assignment by its selector. */
  function RefFor(assignments: seq<Assignment>, w: Assignment, defaultRef: string): string {
    match w.refSelector
    case AnyRef => UnknownRef(assignments, defaultRef)
    case ExactRef => w.refKey.GetOr("")
    case DefaultBranch => defaultRef
  }

  lemma NothingOutranksWild(assignments: seq<Assignment>, w: Assignment, source: Id, branches: map<Id, string>, b: Assignment)
    requires OneSource(assignments, source, branches) && w in assignments && Wild(w) && b in assignments
    requires var defaultRef := "refs/heads/" + branches[source];
      !Masked(assignments, w, defaultRef)
      && (w.refSelector.DefaultBranch? ==> forall a | a in assignments && Wild(a) :: a.refSelector.DefaultBranch?)
    requires
      Matches(b, w.categoryFacet, Evidence(source, StrangePath(w.scopeKey), RefFor(assignments, w, "refs/heads/" + branches[source])), branches)
    ensures !Outranks(b, w)
  {
    var defaultRef := "refs/heads/" + branches[source];
    var e := Evidence(source, StrangePath(w.scopeKey), RefFor(assignments, w, defaultRef));
    MatchesMeans(b, w.categoryFacet, e, branches);
    StrangeMatches(w.scopeKey);
    if b.scopeKind.PathPrefix? {
      AdmittedIsPlain(b.scopeKey);
      OtherMatches(w.scopeKey, b.scopeKey);
    }
    hide Split, StrangePath, MatchesLoosely;
    assert w.refSelector.DefaultBranch? ==> !b.refSelector.ExactRef?;
  }

  /** On the path and ref chosen for it an unmasked wild assignment splits the resolvers. */
  lemma WildSplits(assignments: seq<Assignment>, w: Assignment, source: Id, branches: map<Id, string>)
    requires OneSource(assignments, source, branches) && w in assignments && Wild(w)
    requires var defaultRef := "refs/heads/" + branches[source];
      !Masked(assignments, w, defaultRef)
      && (w.refSelector.DefaultBranch? ==> forall a | a in assignments && Wild(a) :: a.refSelector.DefaultBranch?)
    ensures !Agree(assignments, w.categoryFacet,
                   Evidence(source, StrangePath(w.scopeKey), RefFor(assignments, w, "refs/heads/" + branches[source])), branches)
  {
    var e := Evidence(source, StrangePath(w.scopeKey), RefFor(assignments, w, "refs/heads/" + branches[source]));
    WildIsTop(assignments, w, source, branches, e);
    var t := TargetOf(w.categoryFacet, e, branches);
    var top := TopRanked(Rows(assignments, w.categoryFacet, e, branches));
    var r := Resolve(assignments, t);
    NeverAmbiguous(assignments, t);
    hide Resolve, Rows, TopRanked, StrangePath, RefFor;
    if r.Winner? {
      assert Best(assignments, t, r.assignment) && r.assignment != w;
      IdsDiffer(assignments, r.assignment, w);
    }
  }

  lemma WildIsTop(assignments: seq<Assignment>, w: Assignment, source: Id, branches: map<Id, string>, e: Evidence)
    requires OneSource(assignments, source, branches) && w in assignments && Wild(w)
    requires var defaultRef := "refs/heads/" + branches[source];
      !Masked(assignments, w, defaultRef)
      && (w.refSelector.DefaultBranch? ==> forall a | a in assignments && Wild(a) :: a.refSelector.DefaultBranch?)
    requires e == Evidence(source, StrangePath(w.scopeKey), RefFor(assignments, w, "refs/heads/" + branches[source]))
    ensures w in TopRanked(Rows(assignments, w.categoryFacet, e, branches))
    ensures !Applies(w, TargetOf(w.categoryFacet, e, branches))
  {
    var rows := Rows(assignments, w.categoryFacet, e, branches);
    StrangeMatches(w.scopeKey);
    MatchesMeans(w, w.categoryFacet, e, branches);
    assert WellFormed(w);
    hide StrangePath, MatchesLoosely, Masked;
    assert w in rows;
    forall b | b in rows ensures !Outranks(b, w) { NothingOutranksWild(assignments, w, source, branches, b); }
  }

  lemma IdsDiffer(assignments: seq<Assignment>, a: Assignment, b: Assignment)
    requires DistinctRows(assignments) && a in assignments && b in assignments && a != b
    ensures a.id != b.id
  {
    var i :| 0 <= i < |assignments| && assignments[i] == a;
    var j :| 0 <= j < |assignments| && assignments[j] == b;
    assert i < j ==> assignments[i].id != assignments[j].id;
    assert j < i ==> assignments[j].id != assignments[i].id;
  }

  /** The resolvers agree on all the evidence of the source exactly when no unmasked path key has an underscore. */
  lemma ResolversAgreeExactlyWhen(assignments: seq<Assignment>, source: Id, branches: map<Id, string>)
    requires OneSource(assignments, source, branches)
    ensures
      (forall c, path, ref :: Agree(assignments, c, Evidence(source, path, ref), branches))
      <==> Unambiguous(assignments, "refs/heads/" + branches[source])
  {
    var defaultRef := "refs/heads/" + branches[source];
    if Unambiguous(assignments, defaultRef) {
      forall c, path, ref ensures Agree(assignments, c, Evidence(source, path, ref), branches) {
        UnambiguousAgrees(assignments, c, Evidence(source, path, ref), branches);
      }
    } else {
      var w := UnmaskedWild(assignments, defaultRef);
      WildSplits(assignments, w, source, branches);
    }
  }

  /** An unmasked wild assignment that is not for the default branch, if there is one. */
  lemma UnmaskedWild(assignments: seq<Assignment>, defaultRef: string) returns (w: Assignment)
    requires !Unambiguous(assignments, defaultRef)
    ensures w in assignments && Wild(w) && !Masked(assignments, w, defaultRef)
    ensures w.refSelector.DefaultBranch? ==> forall a | a in assignments && Wild(a) :: a.refSelector.DefaultBranch?
  {
    if a :| a in assignments && Wild(a) && !a.refSelector.DefaultBranch? {
      w := a;
    } else {
      w :| w in assignments && Wild(w) && !Masked(assignments, w, defaultRef);
    }
  }
}
