/** A sum of counters that only grow, over rows that are only added with a positive count, pins every counter. */
module VersionSums {
  function Sum(s: seq<nat>): nat {
    if s == [] then 0 else Sum(s[..|s| - 1]) + s[|s| - 1]
  }

  /** `b` is a later reading of the counters `a`. */
  ghost predicate Later(a: seq<nat>, b: seq<nat>) {
    && |a| <= |b|
    && (forall i :: 0 <= i < |a| ==> a[i] <= b[i])
    && (forall i :: |a| <= i < |b| ==> b[i] > 0)
  }

  lemma {:induction false} SumsGrow(a: seq<nat>, b: seq<nat>)
    requires Later(a, b)
    ensures Sum(a) <= Sum(b)
    decreases |b|
  {
    if |b| > |a| {
      SumsGrow(a, b[..|b| - 1]);
    } else if b != [] {
      SumsGrow(a[..|a| - 1], b[..|b| - 1]);
    }
  }

  /** Equal sums mean equal counters, and no new row. */
  lemma {:induction false} SumsPinCounters(a: seq<nat>, b: seq<nat>)
    requires Later(a, b)
    ensures Sum(a) == Sum(b) <==> a == b
    decreases |b|
  {
    if |b| > |a| {
      SumsGrow(a, b[..|b| - 1]);
    } else if b != [] {
      var n := |b| - 1;
      SumsGrow(a[..n], b[..n]);
      SumsPinCounters(a[..n], b[..n]);
      if Sum(a) == Sum(b) {
        assert a == a[..n] + [a[n]] && b == b[..n] + [b[n]];
      }
    }
  }
}
