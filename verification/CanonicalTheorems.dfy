/** Canonical forms are canonical: idempotent, blind to key order, and otherwise faithful. */
module CanonicalTheorems {
  import opened Prelude
  import opened CanonicalForms

  // ----- sorting -----

  ghost predicate Sorted(cmp: Collation, s: seq<Field>) {
    forall i, j :: 0 <= i < j < |s| ==> cmp(s[i].key, s[j].key) <= 0
  }

  /** No two positions hold keys that collate as equal; in particular the keys are distinct. */
  ghost predicate KeysApart(cmp: Collation, s: seq<Field>) {
    forall i, j :: 0 <= i < j < |s| ==> cmp(s[i].key, s[j].key) != 0
  }

  lemma Transitive(cmp: Collation, a: Key, b: Key, c: Key)
    requires IsCollation(cmp) && cmp(a, b) <= 0 && cmp(b, c) <= 0
    ensures cmp(a, c) <= 0
  {
  }

  lemma Antisymmetric(cmp: Collation, a: Key, b: Key)
    requires IsCollation(cmp)
    ensures cmp(a, b) > 0 ==> cmp(b, a) < 0
    ensures cmp(a, b) <= 0 && cmp(b, a) <= 0 ==> cmp(a, b) == 0
  {
  }

  lemma AppendSorts(cmp: Collation, s: seq<Field>, f: Field)
    requires Sorted(cmp, s) && forall g | g in s :: cmp(g.key, f.key) <= 0
    ensures Sorted(cmp, s + [f])
  {
  }

  lemma {:induction false} InsertSorts(cmp: Collation, s: seq<Field>, f: Field)
    requires IsCollation(cmp) && Sorted(cmp, s)
    ensures Sorted(cmp, Insert(cmp, s, f))
  {
    hide IsCollation;
    var n := |s| - 1;
    if s != [] && cmp(s[n].key, f.key) > 0 {
      InsertSorts(cmp, s[..n], f);
      var r := Insert(cmp, s[..n], f);
      forall g | g in r ensures cmp(g.key, s[n].key) <= 0 {
        assert g in multiset(r);
        if g == f { Antisymmetric(cmp, s[n].key, f.key); } else { assert g in s[..n]; }
      }
      AppendSorts(cmp, r, s[n]);
    } else {
      forall g | g in s ensures cmp(g.key, f.key) <= 0 {
        var i :| 0 <= i < |s| && s[i] == g;
        if i < n { Transitive(cmp, s[i].key, s[n].key, f.key); }
      }
      AppendSorts(cmp, s, f);
    }
  }

  lemma {:induction false} SortSorts(cmp: Collation, s: seq<Field>)
    requires IsCollation(cmp)
    ensures Sorted(cmp, Sort(cmp, s))
  {
    if s != [] {
      SortSorts(cmp, s[..|s| - 1]);
      InsertSorts(cmp, Sort(cmp, s[..|s| - 1]), s[|s| - 1]);
    }
  }

  /** Fields that are all apart, as a property of the multiset: each occurs once and no two tie. */
  ghost predicate Apart(cmp: Collation, m: multiset<Field>) {
    && (forall f :: m[f] <= 1)
    && (forall f, g :: f in m && g in m && f != g ==> cmp(f.key, g.key) != 0)
  }

  lemma {:induction false} KeysApartMeans(cmp: Collation, s: seq<Field>)
    requires IsCollation(cmp) && KeysApart(cmp, s)
    ensures Apart(cmp, multiset(s))
  {
    if s != [] {
      var n := |s| - 1;
      KeysApartMeans(cmp, s[..n]);
      assert s == s[..n] + [s[n]];
      forall f | f in s[..n] ensures cmp(f.key, s[n].key) != 0 && cmp(s[n].key, f.key) != 0 {
        var i :| 0 <= i < n && s[i] == f;
        assert cmp(s[i].key, s[n].key) != 0;
      }
      assert cmp(s[n].key, s[n].key) == 0;
    }
  }

  lemma IndexIn(s: seq<Field>, m: multiset<Field>, f: Field) returns (i: nat)
    requires multiset(s) == m && f in m
    ensures i < |s| && s[i] == f
  {
    assert f in s;
    i :| 0 <= i < |s| && s[i] == f;
  }

  lemma LastIsLargest(cmp: Collation, s: seq<Field>, i: nat)
    requires IsCollation(cmp) && Sorted(cmp, s) && i < |s|
    ensures cmp(s[i].key, s[|s| - 1].key) <= 0
  {
    Antisymmetric(cmp, s[i].key, s[i].key);
  }

  /** Sorted arrangements of the same fields end with the same one. */
  lemma SameLast(cmp: Collation, a: seq<Field>, b: seq<Field>)
    requires IsCollation(cmp) && Sorted(cmp, a) && Sorted(cmp, b) && a != [] && b != []
    requires multiset(a) == multiset(b) && Apart(cmp, multiset(a))
    ensures a[|a| - 1] == b[|b| - 1]
  {
    hide IsCollation, Apart, Sorted;
    var x, y := a[|a| - 1], b[|b| - 1];
    var i := IndexIn(b, multiset(a), x);
    var j := IndexIn(a, multiset(b), y);
    LastIsLargest(cmp, b, i);
    LastIsLargest(cmp, a, j);
    Antisymmetric(cmp, x.key, y.key);
    ApartAt(cmp, multiset(a), x, y);
  }

  lemma ApartAt(cmp: Collation, m: multiset<Field>, f: Field, g: Field)
    requires Apart(cmp, m) && f in m && g in m
    ensures f == g || cmp(f.key, g.key) != 0
  {
  }

  lemma SplitLast(s: seq<Field>)
    requires s != []
    ensures s == s[..|s| - 1] + [s[|s| - 1]]
    ensures multiset(s[..|s| - 1]) == multiset(s) - multiset{s[|s| - 1]}
  {
    assert s == s[..|s| - 1] + [s[|s| - 1]];
  }

  lemma SameEmptiness(a: seq<Field>, b: seq<Field>)
    requires multiset(a) == multiset(b)
    ensures a == [] <==> b == []
  {
    assert |multiset(a)| == |a| && |multiset(b)| == |b|;
  }

  lemma FewerApart(cmp: Collation, m: multiset<Field>, f: Field)
    requires Apart(cmp, m)
    ensures Apart(cmp, m - multiset{f})
  {
  }

  lemma SortedPrefix(cmp: Collation, s: seq<Field>)
    requires Sorted(cmp, s) && s != []
    ensures Sorted(cmp, s[..|s| - 1])
  {
  }

  /** There is one sorted arrangement of fields that are apart. */
  lemma {:induction false} SortedIsUnique(cmp: Collation, a: seq<Field>, b: seq<Field>)
    requires IsCollation(cmp) && Sorted(cmp, a) && Sorted(cmp, b)
    requires multiset(a) == multiset(b) && Apart(cmp, multiset(a))
    ensures a == b
  {
    hide IsCollation, Apart, Sorted;
    SameEmptiness(a, b);
    if a != [] {
      SameLast(cmp, a, b);
      FewerApart(cmp, multiset(a), a[|a| - 1]);
      SortedPrefix(cmp, a);
      SortedPrefix(cmp, b);
      SplitLast(a);
      SplitLast(b);
      SortedIsUnique(cmp, a[..|a| - 1], b[..|b| - 1]);
    }
  }

  /** Sorting forgets the order the fields came in. */
  lemma SortIsCanonical(cmp: Collation, a: seq<Field>, b: seq<Field>)
    requires IsCollation(cmp) && multiset(a) == multiset(b) && Apart(cmp, multiset(a))
    ensures Sort(cmp, a) == Sort(cmp, b)
  {
    SortSorts(cmp, a);
    SortSorts(cmp, b);
    SortedIsUnique(cmp, Sort(cmp, a), Sort(cmp, b));
  }

  // ----- values -----

  ghost predicate TieFree(cmp: Collation, v: Value)
    decreases v
  {
    match v
    case Arr(items) => forall i :: 0 <= i < |items| ==> TieFree(cmp, items[i])
    case Obj(fields) => KeysApart(cmp, fields) && forall i :: 0 <= i < |fields| ==> TieFree(cmp, fields[i].value)
    case _ => true
  }

  function KeysOf(fields: seq<Field>): set<Key> {
    set f | f in fields :: f.key
  }

  /** The same value up to the order of object keys. */
  ghost predicate Same(v: Value, w: Value)
    decreases v
  {
    match v
    case Arr(items) => w.Arr? && |items| == |w.items| && forall i :: 0 <= i < |items| ==> Same(items[i], w.items[i])
    case Obj(fields) =>
      && w.Obj? && KeysOf(fields) == KeysOf(w.fields)
      && forall i, j :: 0 <= i < |fields| && 0 <= j < |w.fields| && fields[i].key == w.fields[j].key ==> Same(fields[i].value, w.fields[j].value)
    case _ => v == w
  }

  /** Every member has a canonical form. */
  predicate FieldsOk(r: Rules, fields: seq<Field>, depth: nat) {
    forall i :: 0 <= i < |fields| ==> Canon(r, fields[i].value, depth).Some?
  }

  /** The fields with their canonical values, still in their order. */
  function CanonFields(r: Rules, fields: seq<Field>, depth: nat): (s: seq<Field>)
    requires FieldsOk(r, fields, depth)
    ensures |s| == |fields|
    ensures forall i :: 0 <= i < |s| ==> s[i] == Field(fields[i].key, Canon(r, fields[i].value, depth).value)
  {
    seq(|fields|, i requires 0 <= i < |fields| && Canon(r, fields[i].value, depth).Some? =>
      Field(fields[i].key, Canon(r, fields[i].value, depth).value))
  }

  predicate WithinLimits(r: Rules, v: Value, depth: nat) {
    (r.maxDepth.Some? ==> depth <= r.maxDepth.value) && (v.Obj? && r.maxFields.Some? ==> |v.fields| <= r.maxFields.value)
  }

  /** The canonical form of an object, in one step. */
  lemma CanonOfObject(r: Rules, fields: seq<Field>, depth: nat)
    ensures Canon(r, Obj(fields), depth)
      == if WithinLimits(r, Obj(fields), depth) && FieldsOk(r, fields, depth + 1)
         then Some(Obj(FromEntries(Sort(r.cmp, CanonFields(r, fields, depth + 1))))) else None
  {
    if WithinLimits(r, Obj(fields), depth) && FieldsOk(r, fields, depth + 1) {
      var s := seq(|fields|, i requires 0 <= i < |fields| && Canon(r, fields[i].value, depth + 1).Some? =>
        Field(fields[i].key, Canon(r, fields[i].value, depth + 1).value));
      assert s == CanonFields(r, fields, depth + 1);
    }
  }

  predicate ItemsOk(r: Rules, items: seq<Value>, depth: nat) {
    forall i :: 0 <= i < |items| ==> Canon(r, items[i], depth).Some?
  }

  function CanonItems(r: Rules, items: seq<Value>, depth: nat): (s: seq<Value>)
    requires ItemsOk(r, items, depth)
    ensures |s| == |items|
    ensures forall i :: 0 <= i < |s| ==> s[i] == Canon(r, items[i], depth).value
  {
    seq(|items|, i requires 0 <= i < |items| && Canon(r, items[i], depth).Some? => Canon(r, items[i], depth).value)
  }

  /** The canonical form of an array, in one step. */
  lemma CanonOfArray(r: Rules, items: seq<Value>, depth: nat)
    ensures Canon(r, Arr(items), depth)
      == if WithinLimits(r, Arr(items), depth) && ItemsOk(r, items, depth + 1)
         then Some(Arr(CanonItems(r, items, depth + 1))) else None
  {
    if WithinLimits(r, Arr(items), depth) && ItemsOk(r, items, depth + 1) {
      var s := seq(|items|, i requires 0 <= i < |items| && Canon(r, items[i], depth + 1).Some? => Canon(r, items[i], depth + 1).value);
      assert s == CanonItems(r, items, depth + 1);
    }
  }

  // ----- key order does not matter -----

  lemma CanonFieldsApart(r: Rules, fields: seq<Field>, depth: nat)
    requires IsCollation(r.cmp) && KeysApart(r.cmp, fields) && FieldsOk(r, fields, depth)
    ensures Apart(r.cmp, multiset(CanonFields(r, fields, depth)))
  {
    hide IsCollation, Canon;
    KeysApartMeans(r.cmp, CanonFields(r, fields, depth));
  }

  /** Two lists without repetitions that hold the same elements are the same multiset. */
  lemma SameElements(cmp: Collation, a: seq<Field>, b: seq<Field>)
    requires Apart(cmp, multiset(a)) && Apart(cmp, multiset(b)) && forall f :: f in a <==> f in b
    ensures multiset(a) == multiset(b)
  {
    forall f ensures multiset(a)[f] == multiset(b)[f] {
      assert f in a <==> f in multiset(a);
      assert f in b <==> f in multiset(b);
    }
  }

  /** Fields under the same key have the same canonical value. */
  ghost predicate Agree(r: Rules, a: seq<Field>, b: seq<Field>, depth: nat) {
    forall i, j :: 0 <= i < |a| && 0 <= j < |b| && a[i].key == b[j].key ==>
      Canon(r, a[i].value, depth) == Canon(r, b[j].value, depth)
  }

  lemma Partner(a: seq<Field>, b: seq<Field>, i: nat) returns (j: nat)
    requires KeysOf(a) <= KeysOf(b) && i < |a|
    ensures j < |b| && b[j].key == a[i].key
  {
    assert a[i].key in KeysOf(a);
    var g :| g in b && g.key == a[i].key;
    j :| 0 <= j < |b| && b[j] == g;
  }

  lemma CanonFieldsIncluded(r: Rules, a: seq<Field>, b: seq<Field>, depth: nat, f: Field)
    requires FieldsOk(r, a, depth) && FieldsOk(r, b, depth) && KeysOf(a) <= KeysOf(b) && Agree(r, a, b, depth)
    requires f in CanonFields(r, a, depth)
    ensures f in CanonFields(r, b, depth)
  {
    hide Canon;
    var i :| 0 <= i < |a| && CanonFields(r, a, depth)[i] == f;
    var j := Partner(a, b, i);
    assert CanonFields(r, b, depth)[j] == f;
  }

  lemma OkIsShared(r: Rules, a: seq<Field>, b: seq<Field>, depth: nat)
    requires FieldsOk(r, b, depth) && KeysOf(a) <= KeysOf(b) && Agree(r, a, b, depth)
    ensures FieldsOk(r, a, depth)
  {
    hide Canon;
    forall i | 0 <= i < |a| ensures Canon(r, a[i].value, depth).Some? {
      var j := Partner(a, b, i);
    }
  }

  lemma AgreeBack(r: Rules, a: seq<Field>, b: seq<Field>, depth: nat)
    requires Agree(r, a, b, depth)
    ensures Agree(r, b, a, depth)
  {
    hide Canon;
  }

  lemma AgreeingFields(r: Rules, a: seq<Field>, b: seq<Field>, depth: nat)
    requires IsCollation(r.cmp) && KeysApart(r.cmp, a) && KeysApart(r.cmp, b)
    requires KeysOf(a) == KeysOf(b) && Agree(r, a, b, depth) && FieldsOk(r, a, depth) && FieldsOk(r, b, depth)
    ensures Sort(r.cmp, CanonFields(r, a, depth)) == Sort(r.cmp, CanonFields(r, b, depth))
  {
    var x, y := CanonFields(r, a, depth), CanonFields(r, b, depth);
    AgreeBack(r, a, b, depth);
    hide Canon, Agree, FieldsOk, CanonFields, IsCollation, KeysApart, Apart;
    CanonFieldsApart(r, a, depth);
    CanonFieldsApart(r, b, depth);
    forall f ensures f in x <==> f in y {
      if f in x { CanonFieldsIncluded(r, a, b, depth, f); }
      if f in y { CanonFieldsIncluded(r, b, a, depth, f); }
    }
    SameElements(r.cmp, x, y);
    SortIsCanonical(r.cmp, x, y);
  }

  /** Objects with the same keys, apart, and agreeing values have equal canonical forms. */
  lemma AgreeingObjects(r: Rules, a: seq<Field>, b: seq<Field>, depth: nat)
    requires IsCollation(r.cmp) && KeysApart(r.cmp, a) && KeysApart(r.cmp, b)
    requires KeysOf(a) == KeysOf(b) && Agree(r, a, b, depth + 1)
    ensures Canon(r, Obj(a), depth) == Canon(r, Obj(b), depth)
  {
    CanonOfObject(r, a, depth);
    CanonOfObject(r, b, depth);
    AgreeBack(r, a, b, depth + 1);
    SameSize(r.cmp, a, b);
    hide Canon, Agree, FieldsOk, CanonFields, IsCollation, KeysApart;
    if FieldsOk(r, b, depth + 1) {
      OkIsShared(r, a, b, depth + 1);
      AgreeingFields(r, a, b, depth + 1);
    } else if FieldsOk(r, a, depth + 1) {
      OkIsShared(r, b, a, depth + 1);
    }
  }

  lemma {:induction false} KeyCount(cmp: Collation, s: seq<Field>)
    requires IsCollation(cmp) && KeysApart(cmp, s)
    ensures |KeysOf(s)| == |s|
  {
    if s != [] {
      var n := |s| - 1;
      KeyCount(cmp, s[..n]);
      assert s == s[..n] + [s[n]];
      assert KeysOf(s) == KeysOf(s[..n]) + {s[n].key};
      assert cmp(s[n].key, s[n].key) == 0;
      assert s[n].key !in KeysOf(s[..n]);
    } else {
      assert KeysOf(s) == {};
    }
  }

  lemma SameSize(cmp: Collation, a: seq<Field>, b: seq<Field>)
    requires IsCollation(cmp) && KeysApart(cmp, a) && KeysApart(cmp, b) && KeysOf(a) == KeysOf(b)
    ensures |a| == |b|
  {
    KeyCount(cmp, a);
    KeyCount(cmp, b);
  }

  /** Values that differ only in the order of their keys have one canonical form, or are refused alike. */
  lemma {:induction false} KeyOrderDoesNotMatter(r: Rules, v: Value, w: Value, depth: nat)
    requires IsCollation(r.cmp) && TieFree(r.cmp, v) && TieFree(r.cmp, w) && Same(v, w)
    ensures Canon(r, v, depth) == Canon(r, w, depth)
    decreases v
  {
    hide IsCollation, Canon;
    match v
    case Arr(items) =>
      forall i | 0 <= i < |items| ensures Canon(r, items[i], depth + 1) == Canon(r, w.items[i], depth + 1) {
        KeyOrderDoesNotMatter(r, items[i], w.items[i], depth + 1);
      }
      EqualItems(r, items, w.items, depth);
    case Obj(fields) =>
      forall i, j | 0 <= i < |fields| && 0 <= j < |w.fields| && fields[i].key == w.fields[j].key
        ensures Canon(r, fields[i].value, depth + 1) == Canon(r, w.fields[j].value, depth + 1)
      {
        KeyOrderDoesNotMatter(r, fields[i].value, w.fields[j].value, depth + 1);
      }
      AgreeingObjects(r, fields, w.fields, depth);
    case _ =>
  }

  lemma EqualItems(r: Rules, a: seq<Value>, b: seq<Value>, depth: nat)
    requires |a| == |b| && forall i :: 0 <= i < |a| ==> Canon(r, a[i], depth + 1) == Canon(r, b[i], depth + 1)
    ensures Canon(r, Arr(a), depth) == Canon(r, Arr(b), depth)
  {
    CanonOfArray(r, a, depth);
    CanonOfArray(r, b, depth);
    hide Canon;
    if ItemsOk(r, a, depth + 1) {
      assert ItemsOk(r, b, depth + 1);
      assert CanonItems(r, a, depth + 1) == CanonItems(r, b, depth + 1);
    } else {
      assert !ItemsOk(r, b, depth + 1);
    }
  }

  lemma SettledFields(r: Rules, w: seq<Field>, depth: nat)
    requires forall k :: 0 <= k < |w| ==> Canon(r, w[k].value, depth) == Some(w[k].value)
    ensures FieldsOk(r, w, depth) && CanonFields(r, w, depth) == w
  {
    hide Canon;
  }

  lemma Rearranged(a: seq<Field>, w: seq<Field>)
    requires multiset(w) == multiset(a)
    ensures |w| == |a| && forall k :: 0 <= k < |w| ==> w[k] in a
  {
    assert |multiset(w)| == |w| && |multiset(a)| == |a|;
    forall k | 0 <= k < |w| ensures w[k] in a { assert w[k] in multiset(w); }
  }

  // ----- faithfulness -----

  /** Rules that leave scalars alone and refuse nothing. */
  ghost predicate KeepsEverything(r: Rules) {
    r.maxDepth.None? && r.maxFields.None? && (forall s :: r.text(s) == Some(s)) && (forall n :: r.number(n) == Some(n))
  }

  lemma {:induction false} NothingRefused(r: Rules, v: Value, depth: nat)
    requires KeepsEverything(r)
    ensures Canon(r, v, depth).Some?
    decreases v
  {
    match v
    case Arr(items) => forall i | 0 <= i < |items| ensures Canon(r, items[i], depth + 1).Some? { NothingRefused(r, items[i], depth + 1); }
    case Obj(fields) => forall i | 0 <= i < |fields| ensures Canon(r, fields[i].value, depth + 1).Some? { NothingRefused(r, fields[i].value, depth + 1); }
    case _ =>
  }

  lemma MembersKept(r: Rules, v: Value, depth: nat)
    requires KeepsEverything(r)
    ensures WithinLimits(r, v, depth)
    ensures v.Arr? ==> ItemsOk(r, v.items, depth + 1)
    ensures v.Obj? ==> FieldsOk(r, v.fields, depth + 1)
  {
    hide Canon;
    match v
    case Arr(items) => forall i | 0 <= i < |items| ensures Canon(r, items[i], depth + 1).Some? { NothingRefused(r, items[i], depth + 1); }
    case Obj(fields) => forall i | 0 <= i < |fields| ensures Canon(r, fields[i].value, depth + 1).Some? { NothingRefused(r, fields[i].value, depth + 1); }
    case _ =>
  }

  lemma ScalarStaysPrintable(r: Rules, v: Value, depth: nat)
    requires KeepsEverything(r) && Printable(v) && !v.Arr? && !v.Obj?
    ensures Canon(r, v, depth).Some? && Printable(Canon(r, v, depth).value)
  {
  }

  lemma RebuiltIsPrintable(cmp: Collation, a: seq<Field>)
    requires forall f | f in a :: Printable(f.value)
    ensures Printable(Obj(FromEntries(Sort(cmp, a))))
  {
    hide Sort, FromEntries;
    Rearranged(a, FromEntries(Sort(cmp, a)));
  }

  /** Rules that keep everything keep values printable. */
  lemma {:induction false} StaysPrintable(r: Rules, v: Value, depth: nat)
    requires KeepsEverything(r) && Printable(v)
    ensures Canon(r, v, depth).Some? && Printable(Canon(r, v, depth).value)
    decreases v
  {
    hide Canon, Sort, FromEntries, KeepsEverything, WithinLimits, ItemsOk, FieldsOk;
    MembersKept(r, v, depth);
    if v.Arr? {
      CanonOfArray(r, v.items, depth);
      var w := CanonItems(r, v.items, depth + 1);
      forall i | 0 <= i < |w| ensures Printable(w[i]) {
        StaysPrintable(r, v.items[i], depth + 1);
      }
    } else if v.Obj? {
      CanonOfObject(r, v.fields, depth);
      var a := CanonFields(r, v.fields, depth + 1);
      forall f | f in a ensures Printable(f.value) {
        var i :| 0 <= i < |a| && a[i] == f;
        StaysPrintable(r, v.fields[i].value, depth + 1);
      }
      RebuiltIsPrintable(r.cmp, a);
    } else {
      ScalarStaysPrintable(r, v, depth);
    }
  }

  lemma FieldFromOther(cmp: Collation, x: seq<Field>, y: seq<Field>, i: nat, j: nat)
    requires IsCollation(cmp) && KeysApart(cmp, y) && multiset(x) == multiset(y)
    requires i < |x| && j < |y| && x[i].key == y[j].key
    ensures x[i] == y[j]
  {
    assert x[i] in multiset(y);
    var k :| 0 <= k < |y| && y[k] == x[i];
    assert cmp(y[k].key, y[j].key) == 0;
  }

  lemma SameFieldsSameKeys(x: seq<Field>, y: seq<Field>, f: Field)
    requires multiset(x) == multiset(y) && f in x
    ensures f.key in KeysOf(y)
  {
    assert f in multiset(y);
    assert f in y;
  }

  lemma CanonKeepsKeys(r: Rules, fields: seq<Field>, depth: nat)
    requires FieldsOk(r, fields, depth)
    ensures KeysOf(CanonFields(r, fields, depth)) == KeysOf(fields)
  {
    hide Canon;
    var a := CanonFields(r, fields, depth);
    forall k ensures k in KeysOf(a) <==> k in KeysOf(fields) {
      if k in KeysOf(a) {
        var f :| f in a && f.key == k;
        var i :| 0 <= i < |a| && a[i] == f;
        assert fields[i] in fields;
      }
      if k in KeysOf(fields) {
        var f :| f in fields && f.key == k;
        var i :| 0 <= i < |fields| && fields[i] == f;
        assert a[i] in a;
      }
    }
  }

  lemma SameKeys(x: seq<Field>, y: seq<Field>)
    requires multiset(x) == multiset(y)
    ensures KeysOf(x) == KeysOf(y)
  {
    forall k ensures k in KeysOf(x) <==> k in KeysOf(y) {
      if k in KeysOf(x) { var f :| f in x && f.key == k; SameFieldsSameKeys(x, y, f); }
      if k in KeysOf(y) { var f :| f in y && f.key == k; SameFieldsSameKeys(y, x, f); }
    }
  }

  /** Objects with one canonical form have the same keys, and equal canonical values under each. */
  lemma EqualObjectsAgree(r: Rules, a: seq<Field>, b: seq<Field>, depth: nat)
    requires IsCollation(r.cmp) && KeysApart(r.cmp, b) && FieldsOk(r, a, depth + 1) && FieldsOk(r, b, depth + 1)
    requires WithinLimits(r, Obj(a), depth) && WithinLimits(r, Obj(b), depth) && Canon(r, Obj(a), depth) == Canon(r, Obj(b), depth)
    ensures KeysOf(a) == KeysOf(b) && Agree(r, a, b, depth + 1)
  {
    CanonOfObject(r, a, depth);
    CanonOfObject(r, b, depth);
    hide Canon;
    var x, y := CanonFields(r, a, depth + 1), CanonFields(r, b, depth + 1);
    assert multiset(x) == multiset(FromEntries(Sort(r.cmp, x))) == multiset(FromEntries(Sort(r.cmp, y))) == multiset(y);
    SameKeys(x, y);
    CanonKeepsKeys(r, a, depth + 1);
    CanonKeepsKeys(r, b, depth + 1);
    assert KeysApart(r.cmp, y);
    hide IsCollation, KeysApart, FromEntries, Sort;
    forall i, j | 0 <= i < |a| && 0 <= j < |b| && a[i].key == b[j].key
      ensures Canon(r, a[i].value, depth + 1) == Canon(r, b[j].value, depth + 1)
    {
      FieldFromOther(r.cmp, x, y, i, j);
    }
  }

  lemma EqualArraysAgree(r: Rules, a: seq<Value>, b: seq<Value>, depth: nat)
    requires ItemsOk(r, a, depth + 1) && ItemsOk(r, b, depth + 1)
    requires WithinLimits(r, Arr(a), depth) && WithinLimits(r, Arr(b), depth) && Canon(r, Arr(a), depth) == Canon(r, Arr(b), depth)
    ensures |a| == |b| && forall i :: 0 <= i < |a| ==> Canon(r, a[i], depth + 1) == Canon(r, b[i], depth + 1)
  {
    CanonOfArray(r, a, depth);
    CanonOfArray(r, b, depth);
    hide Canon;
    var x, y := CanonItems(r, a, depth + 1), CanonItems(r, b, depth + 1);
    forall i | 0 <= i < |a| ensures Canon(r, a[i], depth + 1) == Canon(r, b[i], depth + 1) {
      assert x[i] == y[i];
    }
  }

  /** Every shape keeps its shape. */
  lemma SameShape(r: Rules, v: Value, w: Value, depth: nat)
    requires KeepsEverything(r) && Canon(r, v, depth) == Canon(r, w, depth)
    ensures (v.Arr? <==> w.Arr?) && (v.Obj? <==> w.Obj?) && (!v.Arr? && !v.Obj? ==> v == w)
  {
    NothingRefused(r, v, depth);
    NothingRefused(r, w, depth);
  }

  /** Under rules that keep everything, equal canonical forms mean equal values up to key order, and conversely. */
  lemma {:induction false} CanonIsFaithful(r: Rules, v: Value, w: Value, depth: nat)
    requires IsCollation(r.cmp) && KeepsEverything(r) && TieFree(r.cmp, v) && TieFree(r.cmp, w)
    ensures Canon(r, v, depth) == Canon(r, w, depth) <==> Same(v, w)
  {
    hide Canon, IsCollation, KeepsEverything;
    if Same(v, w) {
      KeyOrderDoesNotMatter(r, v, w, depth);
    }
    if Canon(r, v, depth) == Canon(r, w, depth) {
      EqualFormsAreSame(r, v, w, depth);
    }
  }

  lemma {:induction false} EqualFormsAreSame(r: Rules, v: Value, w: Value, depth: nat)
    requires IsCollation(r.cmp) && KeepsEverything(r) && TieFree(r.cmp, v) && TieFree(r.cmp, w)
    requires Canon(r, v, depth) == Canon(r, w, depth)
    ensures Same(v, w)
    decreases v
  {
    SameShape(r, v, w, depth);
    MembersKept(r, v, depth);
    MembersKept(r, w, depth);
    hide Canon, IsCollation, KeysApart, KeepsEverything, ItemsOk, FieldsOk, WithinLimits, Agree;
    if v.Arr? {
      EqualArraysAgree(r, v.items, w.items, depth);
      forall i | 0 <= i < |v.items| ensures Same(v.items[i], w.items[i]) {
        EqualFormsAreSame(r, v.items[i], w.items[i], depth + 1);
      }
    } else if v.Obj? {
      EqualObjectsAgree(r, v.fields, w.fields, depth);
      forall i, j | 0 <= i < |v.fields| && 0 <= j < |w.fields| && v.fields[i].key == w.fields[j].key
        ensures Same(v.fields[i].value, w.fields[j].value)
      {
        AgreeAt(r, v.fields, w.fields, depth + 1, i, j);
        EqualFormsAreSame(r, v.fields[i].value, w.fields[j].value, depth + 1);
      }
    }
  }

  lemma AgreeAt(r: Rules, a: seq<Field>, b: seq<Field>, depth: nat, i: nat, j: nat)
    requires Agree(r, a, b, depth) && i < |a| && j < |b| && a[i].key == b[j].key
    ensures Canon(r, a[i].value, depth) == Canon(r, b[j].value, depth)
  {
    hide Canon;
  }
}
