/** Canonical forms are fixed points, ties included: sorting is stable, so what is sorted already stays as it is. */
module CanonicalIdempotence {
  import opened Prelude
  import opened CanonicalForms
  import opened CanonicalTheorems

  // ----- sorting is stable -----

  /** A sorted list is left alone, keys that collate as equal included. */
  lemma SortedStays(cmp: Collation, s: seq<Field>)
    requires Sorted(cmp, s)
    ensures Sort(cmp, s) == s
  {
    PrefixStays(cmp, s, |s|);
    assert s[..|s|] == s;
  }

  lemma {:induction false} PrefixStays(cmp: Collation, s: seq<Field>, n: nat)
    requires Sorted(cmp, s) && n <= |s|
    ensures Sort(cmp, s[..n]) == s[..n]
    decreases n
  {
    hide Sort;
    if n == 0 {
      NothingStays(cmp);
      assert s[..n] == [];
    } else {
      PrefixStays(cmp, s, n - 1);
      AppendStays(cmp, s[..n - 1], s[n - 1]);
      assert s[..n] == s[..n - 1] + [s[n - 1]];
    }
  }

  lemma NothingStays(cmp: Collation)
    ensures Sort(cmp, []) == []
  {
  }

  lemma AppendStays(cmp: Collation, s: seq<Field>, f: Field)
    requires Sort(cmp, s) == s && (s == [] || cmp(s[|s| - 1].key, f.key) <= 0)
    ensures Sort(cmp, s + [f]) == s + [f]
  {
    hide *;
    SortAppends(cmp, s, f);
    InsertBehind(cmp, s, f);
  }

  /** Selecting the index keys, or the names, of a sorted list commutes with inserting one more field. */
  ghost predicate KeepsInserted(cmp: Collation, s: seq<Field>, f: Field, index: bool) {
    Keep(Insert(cmp, s, f), index) == if f.key.Index? == index then Insert(cmp, Keep(s, index), f) else Keep(s, index)
  }

  lemma {:induction false} InsertKeeps(cmp: Collation, s: seq<Field>, f: Field, index: bool)
    requires IsCollation(cmp) && Sorted(cmp, s)
    ensures KeepsInserted(cmp, s, f, index)
    decreases |s|
  {
    hide *;
    if s != [] && cmp(s[|s| - 1].key, f.key) > 0 {
      SortedPrefix(cmp, s);
      InsertKeeps(cmp, s[..|s| - 1], f, index);
      KeepsBefore(cmp, s[..|s| - 1], s[|s| - 1], f, index);
      assert s == s[..|s| - 1] + [s[|s| - 1]];
    } else {
      KeepsBehind(cmp, s, f, index);
    }
  }

  lemma KeepsBehind(cmp: Collation, s: seq<Field>, f: Field, index: bool)
    requires IsCollation(cmp) && Sorted(cmp, s) && (s == [] || cmp(s[|s| - 1].key, f.key) <= 0)
    ensures KeepsInserted(cmp, s, f, index)
  {
    KeepIsBounded(cmp, s, f, index);
    hide Insert, Keep, IsCollation, Sorted;
    InsertBehind(cmp, s, f);
    InsertBehind(cmp, Keep(s, index), f);
    KeepAppends(s, f, index);
  }

  lemma KeepsBefore(cmp: Collation, s: seq<Field>, last: Field, f: Field, index: bool)
    requires cmp(last.key, f.key) > 0 && KeepsInserted(cmp, s, f, index)
    ensures KeepsInserted(cmp, s + [last], f, index)
  {
    hide Insert, Keep;
    InsertBefore(cmp, s, last, f);
    InsertBefore(cmp, Keep(s, index), last, f);
    KeepAppends(s, last, index);
    KeepAppends(Insert(cmp, s, f), last, index);
  }

  lemma InsertBefore(cmp: Collation, s: seq<Field>, last: Field, f: Field)
    requires cmp(last.key, f.key) > 0
    ensures Insert(cmp, s + [last], f) == Insert(cmp, s, f) + [last]
  {
    assert (s + [last])[..|s|] == s;
  }

  lemma InsertBehind(cmp: Collation, s: seq<Field>, f: Field)
    ensures s == [] || cmp(s[|s| - 1].key, f.key) <= 0 ==> Insert(cmp, s, f) == s + [f]
  {
  }

  lemma KeepAppends(s: seq<Field>, f: Field, index: bool)
    ensures Keep(s + [f], index) == if f.key.Index? == index then Keep(s, index) + [f] else Keep(s, index)
  {
    assert (s + [f])[..|s|] == s;
  }

  /** The last field kept does not collate behind what the whole list does not collate behind. */
  lemma KeepIsBounded(cmp: Collation, s: seq<Field>, f: Field, index: bool)
    requires IsCollation(cmp) && Sorted(cmp, s) && (s == [] || cmp(s[|s| - 1].key, f.key) <= 0)
    ensures Keep(s, index) == [] || cmp(Keep(s, index)[|Keep(s, index)| - 1].key, f.key) <= 0
  {
    var kept := Keep(s, index);
    if kept != [] {
      var last := kept[|kept| - 1];
      assert last in multiset(kept);
      KeepCounts(s, index, last);
      assert last in multiset(s) && last in s;
      var i :| 0 <= i < |s| && s[i] == last;
      if i < |s| - 1 { Transitive(cmp, last.key, s[|s| - 1].key, f.key); }
    }
  }

  lemma SortKeeps(cmp: Collation, s: seq<Field>, index: bool)
    requires IsCollation(cmp)
    ensures Keep(Sort(cmp, s), index) == Sort(cmp, Keep(s, index))
  {
    SortKeepsPrefix(cmp, s, |s|, index);
    assert s[..|s|] == s;
  }

  lemma {:induction false} SortKeepsPrefix(cmp: Collation, s: seq<Field>, n: nat, index: bool)
    requires IsCollation(cmp) && n <= |s|
    ensures Keep(Sort(cmp, s[..n]), index) == Sort(cmp, Keep(s[..n], index))
    decreases n
  {
    hide *;
    if n == 0 {
      SortKeepsNothing(cmp, index);
      assert s[..n] == [];
    } else {
      SortKeepsPrefix(cmp, s, n - 1, index);
      SortKeepsOneMore(cmp, s[..n - 1], s[n - 1], index);
      assert s[..n] == s[..n - 1] + [s[n - 1]];
    }
  }

  lemma SortKeepsNothing(cmp: Collation, index: bool)
    ensures Keep(Sort(cmp, []), index) == Sort(cmp, Keep([], index))
  {
  }

  lemma SortKeepsOneMore(cmp: Collation, s: seq<Field>, f: Field, index: bool)
    requires IsCollation(cmp) && Keep(Sort(cmp, s), index) == Sort(cmp, Keep(s, index))
    ensures Keep(Sort(cmp, s + [f]), index) == Sort(cmp, Keep(s + [f], index))
  {
    hide Sorted, Sort, Keep, Insert, IsCollation;
    SortSorts(cmp, s);
    InsertKeeps(cmp, Sort(cmp, s), f, index);
    KeepAppends(s, f, index);
    SortAppends(cmp, s, f);
    SortAppends(cmp, Keep(s, index), f);
  }

  lemma SortAppends(cmp: Collation, s: seq<Field>, f: Field)
    ensures Sort(cmp, s + [f]) == Insert(cmp, Sort(cmp, s), f)
  {
    assert (s + [f])[..|s|] == s;
  }

  lemma {:induction false} KeepJoins(a: seq<Field>, b: seq<Field>, index: bool)
    ensures Keep(a + b, index) == Keep(a, index) + Keep(b, index)
    decreases |b|
  {
    if b == [] {
      assert a + b == a;
      return;
    }
    hide Keep;
    var n := |b| - 1;
    assert a + b == (a + b[..n]) + [b[n]] && b == b[..n] + [b[n]];
    KeepJoins(a, b[..n], index);
    KeepAppends(a + b[..n], b[n], index);
    KeepAppends(b[..n], b[n], index);
  }

  ghost predicate AllIndex(s: seq<Field>, index: bool) {
    forall i :: 0 <= i < |s| ==> s[i].key.Index? == index
  }

  lemma {:induction false} KeepOfKind(s: seq<Field>, kind: bool, index: bool)
    requires AllIndex(s, kind)
    ensures Keep(s, index) == if kind == index then s else []
  {
    if s == [] { return; }
    hide Keep;
    var n := |s| - 1;
    KeepOfKind(s[..n], kind, index);
    assert s == s[..n] + [s[n]];
    KeepAppends(s[..n], s[n], index);
  }

  lemma KeepIsOfKind(s: seq<Field>, index: bool)
    ensures AllIndex(Keep(s, index), index)
  {
    forall i | 0 <= i < |Keep(s, index)| ensures Keep(s, index)[i].key.Index? == index {
      assert Keep(s, index)[i] in multiset(Keep(s, index));
      KeepCounts(s, index, Keep(s, index)[i]);
    }
  }

  lemma KindSurvivesSort(cmp: Collation, s: seq<Field>, index: bool)
    requires AllIndex(s, index)
    ensures AllIndex(Sort(cmp, s), index)
  {
    var t := Sort(cmp, s);
    forall i | 0 <= i < |t| ensures t[i].key.Index? == index {
      assert t[i] in multiset(t) && t[i] in multiset(s) && t[i] in s;
    }
  }

  // ----- index keys -----

  /** The numeric order of index keys as a collation of all keys: names come last, and tie. */
  function IndexFirst(a: Key, b: Key): int {
    if a.Index? && b.Index? then a.number - b.number else if a.Index? then -1 else if b.Index? then 1 else 0
  }

  lemma IndexFirstIsCollation()
    ensures IsCollation(IndexFirst)
  {
  }

  lemma {:induction false} InsertByIndex(s: seq<Field>, f: Field)
    requires AllIndex(s, true) && f.key.Index?
    ensures Insert(IndexFirst, s, f) == Insert(NumericOrder, s, f)
  {
    if s != [] && s[|s| - 1].key.number > f.key.number { InsertByIndex(s[..|s| - 1], f); }
  }

  lemma {:induction false} SortByIndex(s: seq<Field>)
    requires AllIndex(s, true)
    ensures Sort(IndexFirst, s) == Sort(NumericOrder, s)
  {
    if s != [] {
      SortByIndex(s[..|s| - 1]);
      KindSurvivesSort(IndexFirst, s[..|s| - 1], true);
      InsertByIndex(Sort(IndexFirst, s[..|s| - 1]), s[|s| - 1]);
    }
  }

  /** No two positions hold the same index key. */
  ghost predicate IndicesDistinct(s: seq<Field>) {
    forall i, j :: 0 <= i < j < |s| && s[i].key.Index? ==> s[i].key != s[j].key
  }

  lemma {:induction false} KeepIndices(s: seq<Field>)
    requires IndicesDistinct(s)
    ensures KeysApart(IndexFirst, Keep(s, true))
  {
    if s == [] { return; }
    hide Keep;
    var n := |s| - 1;
    KeepIndices(s[..n]);
    KeepIsOfKind(s[..n], true);
    KeepAppends(s[..n], s[n], true);
    assert s == s[..n] + [s[n]];
    var kept := Keep(s[..n], true);
    forall i | 0 <= i < |kept| && s[n].key.Index? ensures kept[i].key != s[n].key { KeptIsThere(s[..n], true, i); }
    hide IndicesDistinct;
  }

  lemma KeptIsThere(s: seq<Field>, index: bool, i: nat)
    requires i < |Keep(s, index)|
    ensures exists k :: 0 <= k < |s| && s[k] == Keep(s, index)[i]
  {
    var f := Keep(s, index)[i];
    assert f in multiset(Keep(s, index));
    KeepCounts(s, index, f);
    assert f in multiset(s) && f in s;
  }

  // ----- rebuilding an object twice -----

  lemma IndicesSettle(cmp: Collation, s: seq<Field>)
    requires IndicesDistinct(s)
    ensures var numbers := Sort(NumericOrder, Keep(s, true)); Sort(NumericOrder, Sort(cmp, numbers)) == numbers
  {
    var kept := Keep(s, true);
    var numbers := Sort(NumericOrder, kept);
    KeepIndices(s);
    KeepIsOfKind(s, true);
    IndexFirstIsCollation();
    hide IsCollation, KeysApart, IndicesDistinct, Sort, Keep;
    KindSurvivesSort(NumericOrder, kept, true);
    KindSurvivesSort(cmp, numbers, true);
    SortByIndex(kept);
    SortByIndex(Sort(cmp, numbers));
    KeysApartMeans(IndexFirst, kept);
    hide Apart;
    assert multiset(Sort(cmp, numbers)) == multiset(kept);
    SortIsCanonical(IndexFirst, kept, Sort(cmp, numbers));
  }

  lemma KeptSorted(cmp: Collation, s: seq<Field>, index: bool)
    requires IsCollation(cmp)
    ensures Sorted(cmp, Keep(Sort(cmp, s), index))
  {
    SortKeeps(cmp, s, index);
    SortSorts(cmp, Keep(s, index));
  }

  /** Sorting and rebuilding an object whose index keys are distinct settles after one round. */
  lemma RebuildingSettles(cmp: Collation, a: seq<Field>)
    requires IsCollation(cmp) && IndicesDistinct(a)
    ensures var w := FromEntries(Sort(cmp, a)); FromEntries(Sort(cmp, w)) == w
  {
    var s := Sort(cmp, a);
    var numbers, names := Sort(NumericOrder, Keep(s, true)), Keep(s, false);
    var w := numbers + names;
    assert w == FromEntries(s);
    DistinctSurvivesSort(cmp, a);
    IndicesSettle(cmp, s);
    KeptSorted(cmp, a, false);
    hide IsCollation, IndicesDistinct, Sort, Keep, Sorted;
    KeepIsOfKind(s, true);
    KeepIsOfKind(s, false);
    KindSurvivesSort(NumericOrder, Keep(s, true), true);
    KeepJoins(numbers, names, true);
    KeepJoins(numbers, names, false);
    KeepOfKind(numbers, true, true);
    KeepOfKind(numbers, true, false);
    KeepOfKind(names, false, true);
    KeepOfKind(names, false, false);
    assert Keep(w, true) == numbers && Keep(w, false) == names;
    SortKeeps(cmp, w, true);
    SortKeeps(cmp, w, false);
    SortedStays(cmp, names);
  }

  lemma DistinctSurvivesSort(cmp: Collation, a: seq<Field>)
    requires IndicesDistinct(a)
    ensures IndicesDistinct(Sort(cmp, a))
  {
    DistinctAsMultiset(a);
    assert multiset(Sort(cmp, a)) == multiset(a);
    hide Sort;
    DistinctFromMultiset(Sort(cmp, a));
  }

  /** The same, of the multiset: index fields occur once, and no two share a key. */
  ghost predicate IndexOnce(m: multiset<Field>) {
    && (forall f: Field :: f.key.Index? ==> m[f] <= 1)
    && (forall f, g :: f in m && g in m && f != g && f.key.Index? ==> f.key != g.key)
  }

  lemma {:induction false} DistinctAsMultiset(s: seq<Field>)
    requires IndicesDistinct(s)
    ensures IndexOnce(multiset(s))
  {
    if s != [] {
      var n := |s| - 1;
      DistinctAsMultiset(s[..n]);
      assert s == s[..n] + [s[n]];
      forall f | f in s[..n] && s[n].key.Index? ensures f.key != s[n].key {
        var i :| 0 <= i < n && s[i] == f;
        assert s[i].key.Index? ==> s[i].key != s[n].key;
      }
    }
  }

  lemma {:induction false} DistinctFromMultiset(s: seq<Field>)
    requires IndexOnce(multiset(s))
    ensures IndicesDistinct(s)
  {
    if s != [] {
      var n := |s| - 1;
      assert s == s[..n] + [s[n]];
      DistinctFromMultiset(s[..n]);
      forall i | 0 <= i < n && s[i].key.Index? ensures s[i].key != s[n].key {
        assert s[i] in multiset(s[..n]);
        assert multiset(s) == multiset(s[..n]) + multiset{s[n]};
      }
    }
  }

  // ----- idempotence -----

  /** Every object has each key once. */
  ghost predicate KeysDistinct(v: Value)
    decreases v
  {
    match v
    case Arr(items) => forall i :: 0 <= i < |items| ==> KeysDistinct(items[i])
    case Obj(fields) =>
      && (forall i, j :: 0 <= i < j < |fields| ==> fields[i].key != fields[j].key)
      && (forall i :: 0 <= i < |fields| ==> KeysDistinct(fields[i].value))
    case _ => true
  }

  lemma CanonFieldsKeepKeys(r: Rules, fields: seq<Field>, depth: nat)
    requires KeysDistinct(Obj(fields)) && FieldsOk(r, fields, depth)
    ensures IndicesDistinct(CanonFields(r, fields, depth))
  {
    hide Canon;
  }

  /** Rewriting a scalar twice is rewriting it once. */
  ghost predicate ScalarsSettle(r: Rules) {
    && (forall s, t :: r.text(s) == Some(t) ==> r.text(t) == Some(t))
    && (forall m, n :: r.number(m) == Some(n) ==> r.number(n) == Some(n))
  }

  lemma SettledItems(r: Rules, w: seq<Value>, depth: nat)
    requires forall k :: 0 <= k < |w| ==> Canon(r, w[k], depth) == Some(w[k])
    ensures ItemsOk(r, w, depth) && CanonItems(r, w, depth) == w
  {
    hide Canon;
  }

  /** Fields that are already canonical, in whatever order, are rebuilt into the same object. */
  lemma SettledObject(r: Rules, a: seq<Field>, w: seq<Field>, depth: nat)
    requires IsCollation(r.cmp) && IndicesDistinct(a) && w == FromEntries(Sort(r.cmp, a))
    requires WithinLimits(r, Obj(a), depth)
    requires forall f | f in a :: Canon(r, f.value, depth + 1) == Some(f.value)
    ensures Canon(r, Obj(w), depth) == Some(Obj(w))
  {
    hide Canon, IsCollation, IndicesDistinct, Sort, FromEntries;
    Rearranged(a, w);
    SettledFields(r, w, depth + 1);
    CanonOfObject(r, w, depth);
    RebuildingSettles(r.cmp, a);
  }

  lemma ScalarSettles(r: Rules, v: Value, depth: nat)
    requires ScalarsSettle(r) && !v.Arr? && !v.Obj? && Canon(r, v, depth).Some?
    ensures Canon(r, Canon(r, v, depth).value, depth) == Canon(r, v, depth)
  {
  }

  lemma ArraySettles(r: Rules, items: seq<Value>, depth: nat)
    requires WithinLimits(r, Arr(items), depth) && ItemsOk(r, items, depth + 1)
    requires forall x | x in CanonItems(r, items, depth + 1) :: Canon(r, x, depth + 1) == Some(x)
    ensures Canon(r, Arr(CanonItems(r, items, depth + 1)), depth) == Some(Arr(CanonItems(r, items, depth + 1)))
  {
    hide Canon;
    var w := CanonItems(r, items, depth + 1);
    SettledItems(r, w, depth + 1);
    CanonOfArray(r, w, depth);
  }

  /** Normalising a canonical form changes nothing, whether or not some of its keys collate as equal. */
  lemma {:induction false} CanonIsIdempotent(r: Rules, v: Value, depth: nat)
    requires IsCollation(r.cmp) && ScalarsSettle(r) && KeysDistinct(v) && Canon(r, v, depth).Some?
    ensures Canon(r, Canon(r, v, depth).value, depth) == Canon(r, v, depth)
    decreases v
  {
    hide IsCollation, ScalarsSettle, Canon, IndicesDistinct, Sort, FromEntries;
    if v.Arr? {
      CanonOfArray(r, v.items, depth);
      var w := CanonItems(r, v.items, depth + 1);
      forall x | x in w ensures Canon(r, x, depth + 1) == Some(x) {
        var i :| 0 <= i < |w| && w[i] == x;
        CanonIsIdempotent(r, v.items[i], depth + 1);
      }
      ArraySettles(r, v.items, depth);
    } else if v.Obj? {
      CanonOfObject(r, v.fields, depth);
      var a := CanonFields(r, v.fields, depth + 1);
      CanonFieldsKeepKeys(r, v.fields, depth + 1);
      forall f | f in a ensures Canon(r, f.value, depth + 1) == Some(f.value) {
        var i :| 0 <= i < |a| && a[i] == f;
        CanonIsIdempotent(r, v.fields[i].value, depth + 1);
      }
      SettledObject(r, a, FromEntries(Sort(r.cmp, a)), depth);
    } else {
      ScalarSettles(r, v, depth);
    }
  }
}
