/** The semantic identity of a proposal item: a canonical record of what is proposed and on which basis. */
module ProposalIdentity {
  import opened Prelude
  import opened CanonicalForms
  import T = CanonicalTheorems
  import R = Reconciliation

  datatype Input = Input(
    projectId: string, contextIdentityId: string, classification: R.Classification, normalizedAssertion: Value,
    currentContextRecordId: Option<string>, evidenceReferenceIds: seq<string>,
    authorityVersion: int, evidenceFrontierVersion: int, integrityVersion: int)

  datatype Error = NotReviewable | InvalidBasisVersion

  const SAFE := 0x20_0000_0000_0000

  /** Nothing is rewritten and nothing is refused. */
  function StableRules(cmp: Collation): Rules {
    Rules(cmp, s => Some(s), n => Some(n), None, None)
  }

  // ----- the evidence list -----

  /** Strict order of strings by code unit, as the default sort compares. */
  predicate Before(a: string, b: string)
    decreases |a|
  {
    b != "" && (a == "" || a[0] < b[0] || (a[0] == b[0] && Before(a[1..], b[1..])))
  }

  lemma {:induction false} BeforeIsTotal(a: string, b: string)
    ensures Before(a, b) || Before(b, a) || a == b
    decreases |a|
  {
    if a != "" && b != "" && a[0] == b[0] {
      BeforeIsTotal(a[1..], b[1..]);
      assert a[1..] == b[1..] ==> a == [a[0]] + a[1..] == b;
    }
  }

  lemma {:induction false} BeforeIsStrict(a: string, b: string)
    ensures !(Before(a, b) && Before(b, a)) && !Before(a, a)
    decreases |a|
  {
    if a != "" {
      if b != "" { BeforeIsStrict(a[1..], b[1..]); }
      BeforeIsStrict(a[1..], a[1..]);
    }
  }

  lemma {:induction false} BeforeIsTransitive(a: string, b: string, c: string)
    requires Before(a, b) && Before(b, c)
    ensures Before(a, c)
    decreases |a|
  {
    if a != "" && a[0] == b[0] && b[0] == c[0] { BeforeIsTransitive(a[1..], b[1..], c[1..]); }
  }

  /** A new string goes before the first that is behind it; one that is there is not repeated. */
  function Place(sorted: seq<string>, x: string): (r: seq<string>)
    ensures forall y :: y in r <==> y in sorted || y == x
  {
    if sorted == [] then [x]
    else if sorted[0] == x then sorted
    else if Before(x, sorted[0]) then [x] + sorted
    else [sorted[0]] + Place(sorted[1..], x)
  }

  /** `[...new Set(ids)].sort()` */
  function SortedSet(ids: seq<string>): (r: seq<string>)
    ensures forall y :: y in r <==> y in ids
  {
    if ids == [] then [] else Place(SortedSet(ids[..|ids| - 1]), ids[|ids| - 1])
  }

  ghost predicate Ascending(s: seq<string>) {
    forall i, j :: 0 <= i < j < |s| ==> Before(s[i], s[j])
  }

  lemma {:induction false} PlaceAscends(s: seq<string>, x: string)
    requires Ascending(s)
    ensures Ascending(Place(s, x))
  {
    if s != [] && s[0] != x {
      var rest := Place(s[1..], x);
      BeforeIsTotal(x, s[0]);
      if Before(x, s[0]) {
        forall j | 0 < j < |s| ensures Before(x, s[j]) { BeforeIsTransitive(x, s[0], s[j]); }
      } else {
        PlaceAscends(s[1..], x);
        forall j | 0 <= j < |rest| ensures Before(s[0], rest[j]) {
          assert rest[j] in rest;
        }
      }
    }
  }

  lemma {:induction false} SortedSetAscends(ids: seq<string>)
    ensures Ascending(SortedSet(ids))
  {
    if ids != [] {
      SortedSetAscends(ids[..|ids| - 1]);
      PlaceAscends(SortedSet(ids[..|ids| - 1]), ids[|ids| - 1]);
    }
  }

  lemma SameEmptiness(a: seq<string>, b: seq<string>)
    requires forall x :: x in a <==> x in b
    ensures a == [] <==> b == []
  {
    if a != [] { assert a[0] in b; }
    if b != [] { assert b[0] in a; }
  }

  lemma {:induction false} AscendingIsUnique(a: seq<string>, b: seq<string>)
    requires Ascending(a) && Ascending(b) && forall x :: x in a <==> x in b
    ensures a == b
  {
    SameEmptiness(a, b);
    if a != [] {
      SameFirst(a, b);
      forall x ensures x in a[1..] <==> x in b[1..] {
        BeforeIsStrict(x, x);
        assert x in a <==> x in b;
        assert x in a <==> x == a[0] || x in a[1..];
        assert x in b <==> x == b[0] || x in b[1..];
        assert x in a[1..] ==> Before(a[0], x);
        assert x in b[1..] ==> Before(b[0], x);
      }
      AscendingIsUnique(a[1..], b[1..]);
      assert a == [a[0]] + a[1..] && b == [b[0]] + b[1..];
    }
  }

  lemma SameFirst(a: seq<string>, b: seq<string>)
    requires Ascending(a) && Ascending(b) && a != [] && b != [] && forall x :: x in a <==> x in b
    ensures a[0] == b[0]
  {
    assert a[0] in b && b[0] in a;
    BeforeIsStrict(a[0], b[0]);
  }

  /** The list in the identity is a function of the set of references alone, and determines it. */
  lemma SortedSetIsCanonical(a: seq<string>, b: seq<string>)
    ensures SortedSet(a) == SortedSet(b) <==> forall x :: x in a <==> x in b
  {
    SortedSetAscends(a);
    SortedSetAscends(b);
    if forall x :: x in a <==> x in b {
      AscendingIsUnique(SortedSet(a), SortedSet(b));
    }
  }

  // ----- the identity -----

  function ClassName(c: R.Classification): string {
    match c
    case New => "NEW"
    case Changed => "CHANGED"
    case Superseded => "SUPERSEDED"
    case Conflicting => "CONFLICTING"
    case Obsolete => "OBSOLETE"
    case Uncertain => "UNCERTAIN"
    case Unchanged => "UNCHANGED"
  }

  function Texts(ids: seq<string>): seq<Value> {
    seq(|ids|, i requires 0 <= i < |ids| => Text(ids[i]))
  }

  function Version(n: int): Value { Number(Whole(n)) }

  function OrNull(s: Option<string>): Value {
    match s
    case None => Null
    case Some(t) => Text(t)
  }

  /** The record under its ten names. */
  function Fields(i: Input): (r: seq<Field>)
    ensures |r| == 10
  {
    [Field(Name("version"), Text("proposal-item-identity.v1")),
     Field(Name("projectId"), Text(i.projectId)),
     Field(Name("contextIdentityId"), Text(i.contextIdentityId)),
     Field(Name("classification"), Text(ClassName(i.classification))),
     Field(Name("normalizedAssertion"), i.normalizedAssertion),
     Field(Name("currentContextRecordId"), OrNull(i.currentContextRecordId)),
     Field(Name("evidenceReferenceIds"), Arr(Texts(SortedSet(i.evidenceReferenceIds)))),
     Field(Name("authorityVersion"), Version(i.authorityVersion)),
     Field(Name("evidenceFrontierVersion"), Version(i.evidenceFrontierVersion)),
     Field(Name("integrityVersion"), Version(i.integrityVersion))]
  }

  /** The stable value of the record. */
  function Form(cmp: Collation, i: Input): Value {
    Canon(StableRules(cmp), Obj(Fields(i)), 0).GetOr(Null)
  }

  predicate ValidVersion(n: int) { 0 <= n < SAFE }

  function ItemIdentity(cmp: Collation, stringify: Value -> string, i: Input): Result<string, Error> {
    if i.classification.Unchanged? then Err(NotReviewable)
    else if !ValidVersion(i.authorityVersion) || !ValidVersion(i.evidenceFrontierVersion) || !ValidVersion(i.integrityVersion) then
      Err(InvalidBasisVersion)
    else Ok(stringify(Form(cmp, i)))
  }

  /** JSON printing loses nothing of a printable value. */
  ghost predicate Faithful(stringify: Value -> string) {
    forall v, w :: Printable(v) && Printable(w) && stringify(v) == stringify(w) ==> v == w
  }

  /** The same proposal on the same basis: assertions up to key order, evidence as a set. */
  ghost predicate SameItem(x: Input, y: Input) {
    && x.projectId == y.projectId && x.contextIdentityId == y.contextIdentityId && x.classification == y.classification
    && T.Same(x.normalizedAssertion, y.normalizedAssertion)
    && x.currentContextRecordId == y.currentContextRecordId
    && (forall e :: e in x.evidenceReferenceIds <==> e in y.evidenceReferenceIds)
    && x.authorityVersion == y.authorityVersion && x.evidenceFrontierVersion == y.evidenceFrontierVersion
    && x.integrityVersion == y.integrityVersion
  }

  lemma TextsAreFaithful(a: seq<string>, b: seq<string>)
    ensures T.Same(Arr(Texts(a)), Arr(Texts(b))) <==> a == b
  {
    var x, y := Texts(a), Texts(b);
    if T.Same(Arr(x), Arr(y)) {
      forall i | 0 <= i < |a| ensures a[i] == b[i] { assert T.Same(x[i], y[i]); }
    }
  }

  lemma ClassNamesDiffer(c: R.Classification, d: R.Classification)
    ensures ClassName(c) == ClassName(d) <==> c == d
  {
    assert |ClassName(c)| == |ClassName(d)| && c != d ==> ClassName(c)[3] != ClassName(d)[3];
  }

  /** Records are the same value exactly when each of the ten members is. */
  lemma RecordsCompareByMember(cmp: Collation, x: Input, y: Input)
    requires IsCollation(cmp) && T.KeysApart(cmp, Fields(x))
    ensures T.Same(Obj(Fields(x)), Obj(Fields(y))) <==> forall i :: 0 <= i < 10 ==> T.Same(Fields(x)[i].value, Fields(y)[i].value)
  {
    var a, b := Fields(x), Fields(y);
    assert forall i :: 0 <= i < 10 ==> a[i].key == b[i].key;
    hide Fields;
    forall i, j | 0 <= i < 10 && 0 <= j < 10 ensures a[i].key == b[j].key ==> i == j {
      if i < j { ApartKeysDiffer(cmp, a, i, j); }
      if j < i { ApartKeysDiffer(cmp, a, j, i); }
    }
    SameKeyLists(a, b);
  }

  lemma ApartKeysDiffer(cmp: Collation, a: seq<Field>, i: nat, j: nat)
    requires IsCollation(cmp) && T.KeysApart(cmp, a) && i < j < |a|
    ensures a[i].key != a[j].key
  {
    assert cmp(a[i].key, a[i].key) == 0;
  }

  lemma SameKeyLists(a: seq<Field>, b: seq<Field>)
    requires |a| == |b| && forall i :: 0 <= i < |a| ==> a[i].key == b[i].key
    ensures T.KeysOf(a) == T.KeysOf(b)
  {
    forall k ensures k in T.KeysOf(a) <==> k in T.KeysOf(b) {
      if k in T.KeysOf(a) {
        var f :| f in a && f.key == k;
        var i :| 0 <= i < |a| && a[i] == f;
        assert b[i] in b;
      }
      if k in T.KeysOf(b) {
        var f :| f in b && f.key == k;
        var i :| 0 <= i < |b| && b[i] == f;
        assert a[i] in a;
      }
    }
  }

  lemma MembersCompare(x: Input, y: Input)
    ensures (forall i :: 0 <= i < 10 ==> T.Same(Fields(x)[i].value, Fields(y)[i].value)) <==> SameItem(x, y)
  {
    var a, b := Fields(x), Fields(y);
    ClassNamesDiffer(x.classification, y.classification);
    TextsAreFaithful(SortedSet(x.evidenceReferenceIds), SortedSet(y.evidenceReferenceIds));
    SortedSetIsCanonical(x.evidenceReferenceIds, y.evidenceReferenceIds);
    hide SortedSet, Texts, ClassName;
    if forall i :: 0 <= i < 10 ==> T.Same(a[i].value, b[i].value) {
      assert T.Same(a[1].value, b[1].value) && T.Same(a[2].value, b[2].value) && T.Same(a[3].value, b[3].value);
      assert T.Same(a[4].value, b[4].value) && T.Same(a[5].value, b[5].value) && T.Same(a[6].value, b[6].value);
      assert T.Same(a[7].value, b[7].value) && T.Same(a[8].value, b[8].value) && T.Same(a[9].value, b[9].value);
    }
  }

  lemma RecordIsTieFree(cmp: Collation, x: Input)
    requires T.KeysApart(cmp, Fields(x)) && T.TieFree(cmp, x.normalizedAssertion)
    ensures T.TieFree(cmp, Obj(Fields(x)))
  {
    TextsAreTieFree(cmp, SortedSet(x.evidenceReferenceIds));
    hide SortedSet, Before, T.KeysApart;
    var a := Fields(x);
    assert a[4].value == x.normalizedAssertion && a[6].value == Arr(Texts(SortedSet(x.evidenceReferenceIds)));
    forall i | 0 <= i < 10 ensures T.TieFree(cmp, a[i].value) {
      assert i == 4 || i == 6 || (!a[i].value.Arr? && !a[i].value.Obj?);
    }
  }

  lemma TextsAreTieFree(cmp: Collation, ids: seq<string>)
    ensures T.TieFree(cmp, Arr(Texts(ids)))
  {
  }

  /** The canonical records are equal exactly when the items are the same. */
  lemma RecordsAreCanonical(cmp: Collation, x: Input, y: Input)
    requires IsCollation(cmp) && T.KeysApart(cmp, Fields(x)) && T.KeysApart(cmp, Fields(y))
    requires T.TieFree(cmp, x.normalizedAssertion) && T.TieFree(cmp, y.normalizedAssertion)
    ensures Canon(StableRules(cmp), Obj(Fields(x)), 0) == Canon(StableRules(cmp), Obj(Fields(y)), 0) <==> SameItem(x, y)
  {
    StableKeepsEverything(cmp);
    RecordIsTieFree(cmp, x);
    RecordIsTieFree(cmp, y);
    hide Fields, Canon, IsCollation, StableRules, T.KeepsEverything, T.KeysApart, T.TieFree, T.Same, SameItem;
    assert StableRules(cmp).cmp == cmp by { RulesCollation(cmp); }
    T.CanonIsFaithful(StableRules(cmp), Obj(Fields(x)), Obj(Fields(y)), 0);
    RecordsCompareByMember(cmp, x, y);
    MembersCompare(x, y);
  }

  lemma RulesCollation(cmp: Collation)
    ensures StableRules(cmp).cmp == cmp
  {
  }

  lemma StableKeepsEverything(cmp: Collation)
    ensures T.KeepsEverything(StableRules(cmp))
  {
  }

  /**
   * The identity is canonical: two items that have one share it exactly when they propose the same assertion, up to key
   * order, for the same identity, on the same basis, from the same set of evidence.
   */
  lemma IdentityIsCanonical(cmp: Collation, stringify: Value -> string, x: Input, y: Input)
    requires IsCollation(cmp) && Faithful(stringify)
    requires Printable(x.normalizedAssertion) && Printable(y.normalizedAssertion)
    requires T.KeysApart(cmp, Fields(x)) && T.KeysApart(cmp, Fields(y))
    requires T.TieFree(cmp, x.normalizedAssertion) && T.TieFree(cmp, y.normalizedAssertion)
    requires ItemIdentity(cmp, stringify, x).Ok? && ItemIdentity(cmp, stringify, y).Ok?
    ensures ItemIdentity(cmp, stringify, x) == ItemIdentity(cmp, stringify, y) <==> SameItem(x, y)
  {
    hide Fields, Form, IsCollation, T.KeysApart, T.TieFree, SameItem, Printable;
    FormIsPrintable(cmp, x);
    FormIsPrintable(cmp, y);
    RecordsAreCanonical(cmp, x, y);
  }

  lemma FormIsPrintable(cmp: Collation, x: Input)
    requires Printable(x.normalizedAssertion)
    ensures Canon(StableRules(cmp), Obj(Fields(x)), 0) == Some(Form(cmp, x)) && Printable(Form(cmp, x))
  {
    StableKeepsEverything(cmp);
    RecordIsPrintable(x);
    hide Fields, Canon, StableRules, T.KeepsEverything, Printable;
    T.StaysPrintable(StableRules(cmp), Obj(Fields(x)), 0);
  }

  lemma RecordIsPrintable(x: Input)
    requires Printable(x.normalizedAssertion)
    ensures Printable(Obj(Fields(x)))
  {
    hide SortedSet, Before;
    var a := Fields(x);
    TextsArePrintable(SortedSet(x.evidenceReferenceIds));
    assert a[4].value == x.normalizedAssertion && a[6].value == Arr(Texts(SortedSet(x.evidenceReferenceIds)));
    forall i | 0 <= i < 10 ensures Printable(a[i].value) {
      assert i == 4 || i == 6 || a[i].value.Text? || a[i].value.Null? || (a[i].value.Number? && a[i].value.num.Whole?);
    }
  }

  lemma TextsArePrintable(ids: seq<string>)
    ensures Printable(Arr(Texts(ids)))
  {
  }
}
