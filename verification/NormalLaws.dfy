/** What a normal form is, one level at a time: which values are refused, how scalars change, and how objects are ordered. */
module NormalLaws {
  import opened Prelude
  import opened CanonicalForms
  import opened CanonicalTheorems
  import opened CanonicalIdempotence
  import opened Normalization

  function NormalAt(cmp: Collation, clean: string -> string, v: Value, depth: nat): Option<Value> {
    Canon(NormalRules(cmp, clean), v, depth)
  }

  /** Scalars: text is cleaned and bounded, minus zero becomes zero, a number that is not finite is refused, as is depth beyond twelve. */
  lemma ScalarFormMeans(cmp: Collation, clean: string -> string, v: Value, depth: nat)
    requires !v.Arr? && !v.Obj?
    ensures
      var n := NormalAt(cmp, clean, v, depth);
      if depth > 12 then n == None
      else match v
        case Text(s) => n == if |clean(s)| > 8192 then None else Some(Text(clean(s)))
        case Number(NotFinite) => n == None
        case Number(NegativeZero) => n == Some(Number(Whole(0)))
        case _ => n == Some(v)
  {
  }

  /** Arrays keep their length and order; one item that is refused refuses the array. */
  lemma ArrayFormMeans(cmp: Collation, clean: string -> string, items: seq<Value>, depth: nat)
    ensures
      var n := NormalAt(cmp, clean, Arr(items), depth);
      && (n.Some? <==> depth <= 12 && forall i :: 0 <= i < |items| ==> NormalAt(cmp, clean, items[i], depth + 1).Some?)
      && (n.Some? ==> n.value.Arr? && |n.value.items| == |items|)
      && (n.Some? ==> forall i :: 0 <= i < |items| ==> Some(n.value.items[i]) == NormalAt(cmp, clean, items[i], depth + 1))
  {
    CanonOfArray(NormalRules(cmp, clean), items, depth);
    hide Canon;
  }

  /** Index keys come first, ascending; the names follow, in the order of the collation. */
  ghost predicate InOrder(cmp: Collation, fields: seq<Field>) {
    forall i, j :: 0 <= i < j < |fields| ==>
      && (fields[j].key.Index? ==> fields[i].key.Index? && fields[i].key.number <= fields[j].key.number)
      && (fields[i].key.Name? && fields[j].key.Name? ==> cmp(fields[i].key, fields[j].key) <= 0)
  }

  lemma RebuiltInOrder(cmp: Collation, a: seq<Field>)
    requires IsCollation(cmp)
    ensures InOrder(cmp, FromEntries(Sort(cmp, a)))
  {
    var s := Sort(cmp, a);
    var numbers, names := Sort(NumericOrder, Keep(s, true)), Keep(s, false);
    KeepIsOfKind(s, true);
    KeepIsOfKind(s, false);
    KindSurvivesSort(NumericOrder, Keep(s, true), true);
    SortByIndex(Keep(s, true));
    IndexFirstIsCollation();
    SortSorts(IndexFirst, Keep(s, true));
    KeptSorted(cmp, a, false);
    assert FromEntries(s) == numbers + names;
    hide IsCollation, Sort, Keep, FromEntries;
    JoinedInOrder(cmp, numbers, names);
  }

  lemma JoinedInOrder(cmp: Collation, numbers: seq<Field>, names: seq<Field>)
    requires AllIndex(numbers, true) && AllIndex(names, false) && Sorted(IndexFirst, numbers) && Sorted(cmp, names)
    ensures InOrder(cmp, numbers + names)
  {
    var all := numbers + names;
    forall i, j | 0 <= i < j < |all|
      ensures all[j].key.Index? ==> all[i].key.Index? && all[i].key.number <= all[j].key.number
      ensures all[i].key.Name? && all[j].key.Name? ==> cmp(all[i].key, all[j].key) <= 0
    {
      if j < |numbers| {
        assert IndexFirst(numbers[i].key, numbers[j].key) <= 0;
      } else if i >= |numbers| {
        assert cmp(names[i - |numbers|].key, names[j - |numbers|].key) <= 0;
      }
    }
  }

  /** `f` is field `i` with its value's form. */
  ghost predicate IsForm(cmp: Collation, clean: string -> string, fields: seq<Field>, i: nat, f: Field, depth: nat) {
    i < |fields| && f.key == fields[i].key && NormalAt(cmp, clean, fields[i].value, depth) == Some(f.value)
  }

  /** Field `i` is in `w` with its value's form. */
  ghost predicate Kept(cmp: Collation, clean: string -> string, fields: seq<Field>, i: nat, w: seq<Field>, depth: nat) {
    exists f :: IsForm(cmp, clean, fields, i, f, depth) && f in w
  }

  /** `w` holds exactly the fields, each with its value's form. */
  ghost predicate HoldsForms(cmp: Collation, clean: string -> string, fields: seq<Field>, w: seq<Field>, depth: nat) {
    && |w| == |fields|
    && (forall i :: 0 <= i < |fields| ==> Kept(cmp, clean, fields, i, w, depth))
    && (forall f :: f in w ==> exists i: nat :: IsForm(cmp, clean, fields, i, f, depth))
  }

  /** Objects keep exactly their fields, each with its value's form, in order; more than 128 of them are refused. */
  lemma ObjectFormMeans(cmp: Collation, clean: string -> string, fields: seq<Field>, depth: nat)
    requires IsCollation(cmp)
    ensures
      var n := NormalAt(cmp, clean, Obj(fields), depth);
      && (n.Some? <==> depth <= 12 && |fields| <= 128
                       && forall i :: 0 <= i < |fields| ==> NormalAt(cmp, clean, fields[i].value, depth + 1).Some?)
      && (n.Some? ==> n.value.Obj? && InOrder(cmp, n.value.fields) && HoldsForms(cmp, clean, fields, n.value.fields, depth + 1))
  {
    var r := NormalRules(cmp, clean);
    CanonOfObject(r, fields, depth);
    hide Canon, IsCollation, InOrder, HoldsForms, Sort, FromEntries;
    if WithinLimits(r, Obj(fields), depth) && FieldsOk(r, fields, depth + 1) {
      var a := CanonFields(r, fields, depth + 1);
      RebuiltInOrder(cmp, a);
      Rearranged(a, FromEntries(Sort(cmp, a)));
      SameFields(a, FromEntries(Sort(cmp, a)));
      FormsHeld(cmp, clean, fields, a, FromEntries(Sort(cmp, a)), depth + 1);
    }
  }

  lemma SameFields(a: seq<Field>, w: seq<Field>)
    requires multiset(a) == multiset(w)
    ensures forall f :: f in a <==> f in w
  {
    forall f ensures f in a <==> f in w {
      assert f in a <==> f in multiset(a);
      assert f in w <==> f in multiset(w);
    }
  }

  lemma FormsHeld(cmp: Collation, clean: string -> string, fields: seq<Field>, a: seq<Field>, w: seq<Field>, depth: nat)
    requires |a| == |fields| == |w| && forall f :: f in a <==> f in w
    requires forall i :: 0 <= i < |a| ==> a[i].key == fields[i].key && NormalAt(cmp, clean, fields[i].value, depth) == Some(a[i].value)
    ensures HoldsForms(cmp, clean, fields, w, depth)
  {
    forall i | 0 <= i < |fields| ensures Kept(cmp, clean, fields, i, w, depth) {
      assert a[i] in a && IsForm(cmp, clean, fields, i, a[i], depth);
    }
    forall f | f in w ensures exists i: nat :: IsForm(cmp, clean, fields, i, f, depth) {
      assert f in a;
      var i :| 0 <= i < |a| && a[i] == f;
      assert IsForm(cmp, clean, fields, i, f, depth);
    }
  }

  /** An assertion is accepted exactly when it is an object with a normal form of at most 65536 bytes, and that form is the answer. */
  lemma AssertionFormMeans(cmp: Collation, clean: string -> string, bytes: Value -> nat, v: Value)
    ensures
      var n, form := NormalizeAssertion(cmp, clean, bytes, v), NormalAt(cmp, clean, v, 0);
      && (n.Some? <==> v.Obj? && form.Some? && bytes(form.value) <= 65536)
      && (n.Some? ==> n == form)
  {
    hide Canon;
  }
}
