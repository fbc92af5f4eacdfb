/**
 * Canonical forms of assertion payloads: `normalizedValue` before hashing and `stableValue` before a proposal identity is
 * printed are one recursion with different rules. Collation, text normalisation and JSON printing are parameters.
 */
module CanonicalForms {
  import opened Prelude

  /** Property names: those that are array indices enumerate first, in numeric order. */
  datatype Key = Index(number: nat) | Name(text: string)

  /** A double: a whole number, another finite value known by some code, minus zero, or an infinity or NaN. */
  datatype Num = Whole(n: int) | Fraction(code: int) | NegativeZero | NotFinite

  datatype Field = Field(key: Key, value: Value)

  /** The fields of an object are in enumeration order. */
  datatype Value = Null | Bool(truth: bool) | Number(num: Num) | Text(text: string) | Arr(items: seq<Value>) | Obj(fields: seq<Field>)

  type Collation = (Key, Key) -> int

  /** What a collation may be: a total preorder. Distinct keys may compare as equal. */
  ghost predicate IsCollation(cmp: Collation) {
    && (forall a, b :: cmp(a, b) < 0 <==> cmp(b, a) > 0)
    && (forall a, b, c :: cmp(a, b) <= 0 && cmp(b, c) <= 0 ==> cmp(a, c) <= 0)
  }

  /** How scalars are rewritten or refused, and the limits on nesting and size. */
  datatype Rules = Rules(
    cmp: Collation, text: string -> Option<string>, number: Num -> Option<Num>, maxDepth: Option<nat>, maxFields: Option<nat>)

  // ----- sorting and rebuilding an object -----

  /** The place of a field in a sorted list, after the fields that do not collate behind it. */
  function Insert(cmp: Collation, sorted: seq<Field>, f: Field): (r: seq<Field>)
    ensures multiset(r) == multiset(sorted) + multiset{f}
  {
    if sorted == [] || cmp(sorted[|sorted| - 1].key, f.key) <= 0 then sorted + [f]
    else
      var last := sorted[|sorted| - 1];
      assert sorted == sorted[..|sorted| - 1] + [last];
      Insert(cmp, sorted[..|sorted| - 1], f) + [last]
  }

  function Sort(cmp: Collation, fields: seq<Field>): (r: seq<Field>)
    ensures multiset(r) == multiset(fields)
  {
    if fields == [] then []
    else
      assert fields == fields[..|fields| - 1] + [fields[|fields| - 1]];
      Insert(cmp, Sort(cmp, fields[..|fields| - 1]), fields[|fields| - 1])
  }

  function NumericOrder(a: Key, b: Key): int {
    if a.Index? && b.Index? then a.number - b.number else 0
  }

  function Keep(fields: seq<Field>, index: bool): seq<Field> {
    if fields == [] then []
    else
      var rest := Keep(fields[..|fields| - 1], index);
      if fields[|fields| - 1].key.Index? == index then rest + [fields[|fields| - 1]] else rest
  }

  /** Every field is kept by one of the two selections, as often as it occurs. */
  lemma KeepCounts(fields: seq<Field>, index: bool, f: Field)
    ensures multiset(Keep(fields, index))[f] == if f.key.Index? == index then multiset(fields)[f] else 0
  {
    if fields != [] {
      assert fields == fields[..|fields| - 1] + [fields[|fields| - 1]];
      KeepCounts(fields[..|fields| - 1], index, f);
    }
  }

  /** `Object.fromEntries`: index keys enumerate first, ascending, then the names in the order given. */
  function FromEntries(entries: seq<Field>): (r: seq<Field>)
    ensures multiset(r) == multiset(entries)
  {
    var r := Sort(NumericOrder, Keep(entries, true)) + Keep(entries, false);
    assert multiset(r) == multiset(entries) by { FromEntriesCounts(entries); }
    r
  }

  lemma FromEntriesCounts(entries: seq<Field>)
    ensures multiset(Sort(NumericOrder, Keep(entries, true)) + Keep(entries, false)) == multiset(entries)
  {
    var numbers, names := Keep(entries, true), Keep(entries, false);
    forall f ensures multiset(numbers)[f] + multiset(names)[f] == multiset(entries)[f] {
      KeepCounts(entries, true, f);
      KeepCounts(entries, false, f);
    }
    assert multiset(Sort(NumericOrder, numbers) + names) == multiset(numbers) + multiset(names);
  }

  // ----- the canonical form -----

  /** `None` is a thrown error. */
  function Canon(r: Rules, v: Value, depth: nat): Option<Value>
    decreases v
  {
    if r.maxDepth.Some? && depth > r.maxDepth.value then None
    else match v
      case Text(s) => (match r.text(s) case Some(t) => Some(Text(t)) case None => None)
      case Number(n) => (match r.number(n) case Some(m) => Some(Number(m)) case None => None)
      case Arr(items) =>
        if forall i :: 0 <= i < |items| ==> Canon(r, items[i], depth + 1).Some? then
          Some(Arr(seq(|items|, i requires 0 <= i < |items| && Canon(r, items[i], depth + 1).Some? => Canon(r, items[i], depth + 1).value)))
        else None
      case Obj(fields) =>
        if r.maxFields.Some? && |fields| > r.maxFields.value then None
        else if forall i :: 0 <= i < |fields| ==> Canon(r, fields[i].value, depth + 1).Some? then
          Some(Obj(FromEntries(Sort(r.cmp, seq(|fields|, i requires 0 <= i < |fields| && Canon(r, fields[i].value, depth + 1).Some? =>
            Field(fields[i].key, Canon(r, fields[i].value, depth + 1).value))))))
        else None
      case _ => Some(v)
  }

  /** Values that JSON can print without loss: every number is finite and none is minus zero. */
  ghost predicate Printable(v: Value)
    decreases v
  {
    match v
    case Number(n) => n.Whole? || n.Fraction?
    case Arr(items) => forall i :: 0 <= i < |items| ==> Printable(items[i])
    case Obj(fields) => forall i :: 0 <= i < |fields| ==> Printable(fields[i].value)
    case _ => true
  }
}
