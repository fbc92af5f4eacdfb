/** `normalizedValue` and `normalizeAssertion`: the rules for assertion payloads, and where key order still shows. */
module Normalization {
  import opened Prelude
  import opened CanonicalForms
  import T = CanonicalTheorems
  import CI = CanonicalIdempotence

  const MAXIMUM_DEPTH := 12
  const MAXIMUM_FIELDS := 128
  const MAXIMUM_TEXT := 8192
  const MAXIMUM_BYTES := 65536

  /** Strings are cleaned (NFKC, whitespace collapsed and trimmed) and bounded; numbers are finite and never minus zero. */
  function NormalRules(cmp: Collation, clean: string -> string): Rules {
    Rules(
      cmp,
      (s: string) => if |clean(s)| > MAXIMUM_TEXT then None else Some(clean(s)),
      (n: Num) => if n.NotFinite? then None else if n.NegativeZero? then Some(Whole(0)) else Some(n),
      Some(MAXIMUM_DEPTH), Some(MAXIMUM_FIELDS))
  }

  function NormalizedValue(cmp: Collation, clean: string -> string, v: Value): Option<Value> {
    Canon(NormalRules(cmp, clean), v, 0)
  }

  /** `bytes` is the length of the printed form. */
  function NormalizeAssertion(cmp: Collation, clean: string -> string, bytes: Value -> nat, v: Value): Option<Value> {
    if !v.Obj? then None
    else match NormalizedValue(cmp, clean, v)
      case None => None
      case Some(w) => if bytes(w) > MAXIMUM_BYTES then None else Some(w)
  }

  /** Cleaning a string twice is cleaning it once. */
  ghost predicate Settles(clean: string -> string) {
    forall s :: clean(clean(s)) == clean(s)
  }

  /** Normalising is idempotent, accepted results included. */
  lemma NormalizeIsIdempotent(cmp: Collation, clean: string -> string, bytes: Value -> nat, v: Value)
    requires IsCollation(cmp) && Settles(clean) && CI.KeysDistinct(v)
    requires NormalizeAssertion(cmp, clean, bytes, v).Some?
    ensures NormalizeAssertion(cmp, clean, bytes, NormalizeAssertion(cmp, clean, bytes, v).value) == NormalizeAssertion(cmp, clean, bytes, v)
  {
    var r := NormalRules(cmp, clean);
    RulesSettle(cmp, clean);
    hide Canon, IsCollation, CI.ScalarsSettle, Settles, Sort, FromEntries;
    CI.CanonIsIdempotent(r, v, 0);
    T.CanonOfObject(r, v.fields, 0);
  }

  lemma RulesSettle(cmp: Collation, clean: string -> string)
    requires Settles(clean)
    ensures CI.ScalarsSettle(NormalRules(cmp, clean))
  {
  }

  /** Two assertions that differ only in the order of their keys are both refused or share their normal form, and so their hash. */
  lemma NormalizeIgnoresKeyOrder(cmp: Collation, clean: string -> string, bytes: Value -> nat, v: Value, w: Value)
    requires IsCollation(cmp) && T.TieFree(cmp, v) && T.TieFree(cmp, w) && T.Same(v, w)
    ensures NormalizeAssertion(cmp, clean, bytes, v) == NormalizeAssertion(cmp, clean, bytes, w)
  {
    T.KeyOrderDoesNotMatter(NormalRules(cmp, clean), v, w, 0);
  }

  // ----- normal forms are plain JSON -----

  /** Printable, with bounded strings and objects. */
  ghost predicate Plain(v: Value)
    ensures Plain(v) ==> Printable(v)
    decreases v
  {
    match v
    case Text(s) => |s| <= MAXIMUM_TEXT
    case Number(n) => n.Whole? || n.Fraction?
    case Arr(items) => forall i :: 0 <= i < |items| ==> Plain(items[i])
    case Obj(fields) => |fields| <= MAXIMUM_FIELDS && forall i :: 0 <= i < |fields| ==> Plain(fields[i].value)
    case _ => true
  }

  lemma ScalarFormsArePlain(cmp: Collation, clean: string -> string, v: Value, depth: nat)
    requires !v.Arr? && !v.Obj? && Canon(NormalRules(cmp, clean), v, depth).Some?
    ensures Plain(Canon(NormalRules(cmp, clean), v, depth).value)
  {
  }

  lemma {:induction false} NormalFormsArePlain(cmp: Collation, clean: string -> string, v: Value, depth: nat)
    requires Canon(NormalRules(cmp, clean), v, depth).Some?
    ensures Plain(Canon(NormalRules(cmp, clean), v, depth).value)
    decreases v
  {
    hide Canon, Sort, FromEntries;
    var r := NormalRules(cmp, clean);
    if v.Arr? {
      T.CanonOfArray(r, v.items, depth);
      var w := T.CanonItems(r, v.items, depth + 1);
      forall i | 0 <= i < |w| ensures Plain(w[i]) {
        NormalFormsArePlain(cmp, clean, v.items[i], depth + 1);
      }
    } else if v.Obj? {
      T.CanonOfObject(r, v.fields, depth);
      var a := T.CanonFields(r, v.fields, depth + 1);
      forall f | f in a ensures Plain(f.value) {
        var i :| 0 <= i < |a| && a[i] == f;
        NormalFormsArePlain(cmp, clean, v.fields[i].value, depth + 1);
      }
      T.Rearranged(a, FromEntries(Sort(r.cmp, a)));
    } else {
      ScalarFormsArePlain(cmp, clean, v, depth);
    }
  }

  // ----- where key order shows -----

  function Pair(a: string, x: bool, b: string, y: bool): Value {
    Obj([Field(Name(a), Bool(x)), Field(Name(b), Bool(y))])
  }

  /**
   * The order of two keys is forgotten exactly when the collation tells the keys apart. Locale collations may compare
   * different strings as equal; a stable sort then keeps such keys in the order they came in, and the hash depends on it.
   */
  lemma OrderIsForgottenExactlyWhenKeysCollateApart(cmp: Collation, clean: string -> string, a: string, x: bool, b: string, y: bool)
    requires IsCollation(cmp) && a != b
    ensures NormalizedValue(cmp, clean, Pair(a, x, b, y)) == NormalizedValue(cmp, clean, Pair(b, y, a, x))
      <==> cmp(Name(a), Name(b)) != 0
  {
    var r := NormalRules(cmp, clean);
    PairForm(r, a, x, b, y);
    PairForm(r, b, y, a, x);
    assert cmp(Name(a), Name(b)) < 0 <==> cmp(Name(b), Name(a)) > 0;
    assert cmp(Name(b), Name(a)) < 0 <==> cmp(Name(a), Name(b)) > 0;
    hide Canon, IsCollation;
    assert Pair(a, x, b, y).fields[0] != Pair(b, y, a, x).fields[0];
  }

  /** A pair keeps its order unless its keys collate the other way round. */
  lemma PairForm(r: Rules, a: string, x: bool, b: string, y: bool)
    requires r.maxDepth == Some(MAXIMUM_DEPTH) && r.maxFields == Some(MAXIMUM_FIELDS)
    ensures Canon(r, Pair(a, x, b, y), 0) == Some(if r.cmp(Name(a), Name(b)) <= 0 then Pair(a, x, b, y) else Pair(b, y, a, x))
  {
    var f, g := Field(Name(a), Bool(x)), Field(Name(b), Bool(y));
    hide Canon, Sort, FromEntries, T.CanonFields, T.FieldsOk;
    T.CanonOfObject(r, [f, g], 0);
    BoolForm(r, x);
    BoolForm(r, y);
    T.SettledFields(r, [f, g], 1);
    SortPair(r.cmp, f, g);
    NamesStay([f, g]);
    NamesStay([g, f]);
  }

  lemma BoolForm(r: Rules, x: bool)
    requires r.maxDepth == Some(MAXIMUM_DEPTH)
    ensures Canon(r, Bool(x), 1) == Some(Bool(x))
  {
  }

  lemma SortAppend(cmp: Collation, s: seq<Field>, f: Field)
    ensures Sort(cmp, s + [f]) == Insert(cmp, Sort(cmp, s), f)
  {
    assert (s + [f])[..|s|] == s;
  }

  lemma InsertIntoOne(cmp: Collation, f: Field, g: Field)
    ensures Insert(cmp, [f], g) == if cmp(f.key, g.key) <= 0 then [f, g] else [g, f]
  {
    var one := [f];
    assert one[..0] == [];
    InsertIntoNone(cmp, g);
    if cmp(f.key, g.key) > 0 {
      assert Insert(cmp, one, g) == Insert(cmp, one[..0], g) + [f];
    } else {
      assert Insert(cmp, one, g) == one + [g];
    }
  }

  lemma InsertIntoNone(cmp: Collation, f: Field)
    ensures Insert(cmp, [], f) == [f]
  {
  }

  lemma SortPair(cmp: Collation, f: Field, g: Field)
    ensures Sort(cmp, [f, g]) == if cmp(f.key, g.key) <= 0 then [f, g] else [g, f]
  {
    SortAppend(cmp, [], f);
    SortAppend(cmp, [f], g);
    assert [] + [f] == [f] && [f] + [g] == [f, g];
    assert Sort(cmp, []) == [];
    InsertIntoNone(cmp, f);
    hide Sort, Insert;
    InsertIntoOne(cmp, f, g);
  }

  lemma {:induction false} KeepNames(entries: seq<Field>)
    requires forall i :: 0 <= i < |entries| ==> entries[i].key.Name?
    ensures Keep(entries, true) == [] && Keep(entries, false) == entries
  {
    if entries != [] {
      KeepNames(entries[..|entries| - 1]);
    }
  }

  /** Rebuilding an object from named entries keeps their order. */
  lemma NamesStay(entries: seq<Field>)
    requires forall i :: 0 <= i < |entries| ==> entries[i].key.Name?
    ensures FromEntries(entries) == entries
  {
    KeepNames(entries);
    hide Keep;
    assert Sort(NumericOrder, []) == [];
    assert [] + entries == entries;
  }
}
