/** The frontier value objects: the ordered Source frontier and the contiguous Candidate watermark. */
module Frontiers {
  import opened Prelude

  datatype SourceFrontier = SourceFrontier(
    observed: Option<nat>, desired: Option<nat>, ingested: Option<nat>, reconciled: Option<nat>)

  datatype Verdict = Accepted | SkipsStage | OutOfOrder

  /** reconciled <= ingested <= desired <= observed, and a null stage is followed only by null later stages. */
  predicate Ordered(f: SourceFrontier) {
    && (f.reconciled.Some? ==> f.ingested.Some? && f.reconciled.value <= f.ingested.value)
    && (f.ingested.Some? ==> f.desired.Some? && f.ingested.value <= f.desired.value)
    && (f.desired.Some? ==> f.observed.Some? && f.desired.value <= f.observed.value)
  }

  /** No stage moves back, and none is forgotten. */
  predicate GuardAllows(before: SourceFrontier, after: SourceFrontier) {
    && NotBack(before.observed, after.observed) && NotBack(before.desired, after.desired)
    && NotBack(before.ingested, after.ingested) && NotBack(before.reconciled, after.reconciled)
  }

  predicate NotBack(before: Option<nat>, after: Option<nat>) {
    before.Some? ==> after.Some? && before.value <= after.value
  }

  /** The stages from the latest to the earliest. */
  function Stages(f: SourceFrontier): seq<Option<nat>> {
    [f.reconciled, f.ingested, f.desired, f.observed]
  }

  /** The first `n` stages are in order, and none of them is null after one that is not. */
  ghost predicate OrderedUpTo(s: seq<Option<nat>>, n: nat)
    requires n <= |s|
  {
    forall k :: 1 <= k < n && s[k - 1].Some? ==> s[k].Some? && s[k - 1].value <= s[k].value
  }

  /** Stage `i` is null or too small, after a stage that is neither, and it is the first such one. */
  ghost predicate FirstFault(s: seq<Option<nat>>, i: int) {
    && 1 <= i < |s| && OrderedUpTo(s, i) && s[i - 1].Some?
    && (s[i].Some? ==> s[i].value < s[i - 1].value)
  }

  /** Walks from the latest stage to the earliest, remembering the last value it saw; the first fault decides. */
  method CheckSourceFrontier(f: SourceFrontier) returns (verdict: Verdict)
    ensures verdict == Accepted <==> Ordered(f)
    ensures verdict == SkipsStage <==> exists i :: FirstFault(Stages(f), i) && Stages(f)[i].None?
    ensures verdict == OutOfOrder <==> exists i :: FirstFault(Stages(f), i) && Stages(f)[i].Some?
  {
    var stages := Stages(f);
    var previous: Option<nat> := None;
    var i := 0;
    while i < 4
      invariant 0 <= i <= 4 && OrderedUpTo(stages, i)
      invariant previous.Some? <==> exists k :: 0 <= k < i && stages[k].Some?
      invariant previous.Some? ==> i > 0 && stages[i - 1] == previous
    {
      if stages[i].None? {
        if previous.Some? {
          FirstFaultDecides(stages, i);
          return SkipsStage;
        }
      } else {
        if previous.Some? && stages[i].value < previous.value {
          FirstFaultDecides(stages, i);
          return OutOfOrder;
        }
        previous := stages[i];
      }
      i := i + 1;
    }
    assert stages[0] == f.reconciled && stages[1] == f.ingested && stages[2] == f.desired && stages[3] == f.observed;
    verdict := Accepted;
  }

  /** No other stage can be the first fault. */
  lemma FirstFaultDecides(s: seq<Option<nat>>, i: nat)
    requires FirstFault(s, i)
    ensures forall j :: FirstFault(s, j) ==> j == i
  {
  }
}
