/** What every run of the ingestion protocol guarantees: fencing, frozen history, coverage, and silent guards. */
module IngestionTheorems {
  import opened Prelude
  import opened Ingestion
  import opened IngestionRuns
  import F = Frontiers
  import PU = ProcessingUnits

  // ----- fencing -----

  /** The lease token a step presents, if it presents one. */
  function Presents(step: Step): Option<Id> {
    match step
    case DoSchedule(_, _, _, _) => None
    case DoAcquire(_, _, _, _) => None
    case DoRenew(token, _, _) => Some(token)
    case DoRecord(_, _, _, token, _, _) => Some(token)
    case DoComplete(_, _, _, token, _, _, _) => Some(token)
    case DoRetry(token, _, _, _, _) => Some(token)
  }

  function CurrentToken(u: Unit): Option<Id> {
    if u.processing.None? then None else u.processing.value.leaseToken
  }

  /** A token that was issued and is no longer the current one. */
  predicate Fenced(u: Unit, token: Id) {
    token < u.nextId && CurrentToken(u) != Some(token)
  }

  /** Nobody acts with a token unless it is the current one. */
  lemma OnlyTheHolderActs(u: Unit, step: Step)
    requires Inv(u) && Presents(step).Some? && Outcome(u, step).Ok?
    ensures CurrentToken(u) == Presents(step)
  {}

  lemma FencedStays(u: Unit, step: Step, token: Id)
    requires Inv(u) && Fenced(u, token)
    ensures Fenced(Apply(u, step), token)
  {}

  lemma {:induction false} FencedForever(u: Unit, steps: seq<Step>, token: Id)
    requires Inv(u) && Fenced(u, token)
    ensures Fenced(Run(u, steps), token)
    decreases |steps|
  {
    if steps != [] {
      FencedStays(u, steps[0], token);
      FencedForever(Apply(u, steps[0]), steps[1..], token);
    }
  }

  /** Once the unit has been leased again, the older token never succeeds at anything, whatever happens in between. */
  lemma ReacquiredTokenIsDead(u: Unit, older: Id, acquire: Step, between: seq<Step>, late: Step)
    requires Inv(u) && CurrentToken(u) == Some(older)
    requires acquire.DoAcquire? && Outcome(u, acquire).Ok? && Outcome(u, acquire).value != u
    requires Presents(late) == Some(older)
    ensures Outcome(Run(Apply(u, acquire), between), late).Err?
  {
    FencedForever(Apply(u, acquire), between, older);
  }

  /** Completing or retrying spends the token: it cannot be used a second time. */
  lemma SpentTokenIsDead(u: Unit, spend: Step, between: seq<Step>, late: Step)
    requires Inv(u) && (spend.DoComplete? || spend.DoRetry?) && Outcome(u, spend).Ok?
    requires Presents(late) == Presents(spend)
    ensures Outcome(Run(Apply(u, spend), between), late).Err?
  {
    FencedForever(Apply(u, spend), between, Presents(spend).value);
  }

  // ----- history -----

  /** `v` keeps all of `u`'s observations and dispositions, and exactly `u`'s evidence below `u`'s ingested frontier. */
  ghost predicate Extends(u: Unit, v: Unit) {
    && IngestedThrough(u) <= IngestedThrough(v) && Observed(u) <= Observed(v)
    && (forall k :: k in u.observations ==> k in v.observations && v.observations[k] == u.observations[k])
    && (forall k :: k in u.dispositions ==> k in v.dispositions && v.dispositions[k] == u.dispositions[k])
    && SettledEvidence(v, IngestedThrough(u)) == SettledEvidence(u, IngestedThrough(u))
  }

  function SettledEvidence(u: Unit, through: nat): map<Id, Evidence> {
    map i | i in u.evidence && u.evidence[i].sequence <= through :: u.evidence[i]
  }

  lemma ExtendsReflexive(u: Unit)
    ensures Extends(u, u)
  {
  }

  lemma StepExtends(u: Unit, step: Step)
    requires Inv(u)
    ensures Extends(u, Apply(u, step))
    ensures forall i :: i in u.evidence && i !in Apply(u, step).evidence ==> u.evidence[i].sequence !in u.dispositions
  {
    if Outcome(u, step).Ok? {
      if step.DoRecord? { RecordExtends(u, step); }
      else if step.DoComplete? { CompleteExtends(u, step); }
      else { QuietExtends(u, step); }
    }
  }

  /** Every step but recording and completing leaves the evidence, the dispositions and the ingested frontier alone. */
  lemma QuietExtends(u: Unit, step: Step)
    requires Inv(u) && !step.DoRecord? && !step.DoComplete? && Outcome(u, step).Ok?
    ensures Extends(u, Outcome(u, step).value)
    ensures Outcome(u, step).value.evidence == u.evidence
  {
    var v := Outcome(u, step).value;
    assert v.evidence == u.evidence && v.dispositions == u.dispositions && v.ingested == u.ingested;
  }

  lemma NextIdIsFresh(u: Unit)
    requires Inv(u)
    ensures u.nextId !in u.evidence
  {
    assert EvidenceInv(u);
    hide Inv;
    assert forall i :: i in u.evidence ==> EvidenceRowInv(u, i);
  }

  lemma RecordExtends(u: Unit, step: Step)
    requires Inv(u) && step.DoRecord? && Outcome(u, step).Ok?
    ensures Extends(u, Outcome(u, step).value)
    ensures forall i :: i in u.evidence ==> i in Outcome(u, step).value.evidence
  {
    var v := Outcome(u, step).value;
    NextIdIsFresh(u);
    hide Inv;
    if v != u {
      assert v.evidence == u.evidence[u.nextId := v.evidence[u.nextId]] && v.evidence[u.nextId].sequence > IngestedThrough(u);
      assert SettledEvidence(v, IngestedThrough(u)) == SettledEvidence(u, IngestedThrough(u));
    }
  }

  lemma CompleteExtends(u: Unit, step: Step)
    requires Inv(u) && step.DoComplete? && Outcome(u, step).Ok?
    ensures Extends(u, Outcome(u, step).value)
    ensures var v := Outcome(u, step).value;
      forall i :: i in u.evidence && i !in v.evidence ==> u.evidence[i].sequence !in u.dispositions
  {
    var v := Outcome(u, step).value;
    assert SettledEvidence(v, IngestedThrough(u)) == SettledEvidence(u, IngestedThrough(u));
  }

  lemma ExtendsTransitive(u: Unit, v: Unit, w: Unit)
    requires Extends(u, v) && Extends(v, w)
    ensures Extends(u, w)
  {
    var n := IngestedThrough(u);
    forall i ensures i in SettledEvidence(w, n) <==> i in SettledEvidence(u, n) {
      assert i in SettledEvidence(w, IngestedThrough(v)) <==> i in SettledEvidence(v, IngestedThrough(v));
      assert i in SettledEvidence(v, n) <==> i in SettledEvidence(u, n);
    }
    forall i | i in SettledEvidence(w, n) ensures SettledEvidence(w, n)[i] == SettledEvidence(u, n)[i] {
      assert i in SettledEvidence(v, n);
      assert SettledEvidence(w, IngestedThrough(v))[i] == SettledEvidence(v, IngestedThrough(v))[i];
      assert SettledEvidence(v, n)[i] == SettledEvidence(u, n)[i];
    }
  }

  /** No run rewrites history: what was observed, disposed of, or settled as evidence stays, and gains nothing. */
  lemma {:induction false} RunExtends(u: Unit, steps: seq<Step>)
    requires Inv(u)
    ensures Extends(u, Run(u, steps))
    decreases |steps|
  {
    if steps != [] {
      StepExtends(u, steps[0]);
      RunExtends(Apply(u, steps[0]), steps[1..]);
      ExtendsTransitive(u, Apply(u, steps[0]), Run(u, steps));
    }
  }

  // ----- coverage -----

  /** The observation whose ingestion settled `k`: the first at or above `k` that was not coalesced. */
  function Cover(u: Unit, k: nat): (c: nat)
    requires Inv(u) && 1 <= k <= IngestedThrough(u)
    ensures k <= c <= IngestedThrough(u)
    ensures u.dispositions[c].kind != Coalesced
    ensures forall j :: k <= j < c ==> u.dispositions[j].kind == Coalesced
    ensures u.dispositions[k].kind == Coalesced ==> k < c && u.dispositions[k].coveredBy == Some(u.observations[c].id)
    decreases IngestedThrough(u) - k
  {
    assert DispositionRowInv(u, k);
    if u.dispositions[k].kind == Coalesced then Cover(u, k + 1) else k
  }

  /** A settled evidence row belongs to an observation that was ingested, never to one coalesced away or deleted. */
  lemma SettledEvidenceIsIngested(u: Unit, steps: seq<Step>, i: Id)
    requires Inv(u)
    requires i in Run(u, steps).evidence && Run(u, steps).evidence[i].sequence <= IngestedThrough(Run(u, steps))
    ensures var v := Run(u, steps); var k := v.evidence[i].sequence;
            k in v.dispositions && v.dispositions[k].kind == Ingested && Cover(v, k) == k
  {
    var v := Run(u, steps);
    assert EvidenceRowInv(v, i);
    assert IdsGrow(v, v.evidence[i].sequence);
  }

  // ----- constraints and triggers -----

  function FrontierOf(u: Unit): F.SourceFrontier {
    F.SourceFrontier(u.observed, u.desired, u.ingested, None)
  }

  /** The insert trigger: a coalesced row must name a later observation of the unit. */
  ghost predicate DispositionInsertAllowed(v: Unit, k: nat)
    requires k in v.dispositions
  {
    v.dispositions[k].kind == Coalesced ==>
      exists c :: c > k && c in v.observations && v.dispositions[k].coveredBy == Some(v.observations[c].id)
  }

  /**
   * What the tables check of a reachable unit never rejects a transaction that the functions themselves let through: the
   * checks and update guards of the processing and frontier rows, the coverage guard, and the guard against deleting
   * evidence that a disposition has settled. The shape of an evidence row is checked by `Record`, which may refuse it.
   */
  lemma GuardsNeverReject(u: Unit, step: Step)
    requires Inv(u)
    ensures var v := Apply(u, step);
      && (v.processing.Some? ==> PU.Checks(v.processing.value))
      && (u.processing.Some? ==> v.processing.Some? && PU.GuardAllows(u.processing.value, v.processing.value))
      && F.Ordered(FrontierOf(v)) && F.GuardAllows(FrontierOf(u), FrontierOf(v))
      && (forall k :: k in v.dispositions && k !in u.dispositions ==> DispositionInsertAllowed(v, k))
      && (forall i :: i in u.evidence && i !in v.evidence ==> u.evidence[i].sequence !in u.dispositions)
  {
    if u.processing.Some? { RowGuardNeverRejects(u, step); }
    StepExtends(u, step);
    var v := Apply(u, step);
    forall k | k in v.dispositions && k !in u.dispositions ensures DispositionInsertAllowed(v, k) {
      assert Cover(v, k) in v.observations;
    }
  }

  lemma RowGuardNeverRejects(u: Unit, step: Step)
    requires Inv(u) && u.processing.Some?
    ensures Apply(u, step).processing.Some? && PU.GuardAllows(u.processing.value, Apply(u, step).processing.value)
  {}

  // ----- completion -----

  /** Exactly when completion commits, and what it reports: work remains iff something newer was observed. */
  lemma CompletesExactlyWhen(u: Unit, active: bool, k: nat, worker: Id, token: Id, summary: Summary, now: Time, later: Time)
    requires Inv(u) && k in u.observations
    ensures var r := Complete(u, active, u.observations[k].id, worker, token, summary, now, later);
      && (r.Ok? <==> active && SummaryAccepted(summary) && LeaseMatches(u, worker, token, k, now)
                     && (summary.mode.DeletedRef? <==> u.observations[k].revision.None?)
                     && PU.Holds(u.processing.value, token, later))
      && (r.Ok? ==> r.value.0.ingested == Some(k) && r.value.1 == (Observed(u) > k)
                    && r.value.0.processing.value.followUp == r.value.1)
      && (r.Err? ==> r.error != FrontierGap && r.error != TargetMismatch)
  {
    assert Identifies(u, k, u.observations[k].id);
    IdNamesOne(u, SequenceOf(u, u.observations[k].id).value, k);
  }

  lemma {:induction false} IdsIncrease(u: Unit, j: nat, k: nat)
    requires Inv(u) && 1 <= j < k <= Observed(u)
    ensures u.observations[j].id < u.observations[k].id
    decreases k
  {
    assert IdsGrow(u, k);
    if j < k - 1 { IdsIncrease(u, j, k - 1); }
  }

  lemma IdNamesOne(u: Unit, j: nat, k: nat)
    requires Inv(u) && j in u.observations && k in u.observations && u.observations[j].id == u.observations[k].id
    ensures j == k
  {
    if j < k { IdsIncrease(u, j, k); }
    if k < j { IdsIncrease(u, k, j); }
  }

  /** A due unit whose lease nobody disputes is drained by one acquisition and one completion. */
  lemma OnePassDrains(u: Unit, worker: Id, seconds: int, now: Time, done: Time, later: Time, summary: Summary)
    requires Inv(u) && u.processing.Some? && PU.Due(u.processing.value, now)
    requires 1 <= seconds <= 3600 && done < now + seconds && later < now + seconds
    requires SummaryAccepted(summary) && (summary.mode.DeletedRef? <==> u.observations[Observed(u)].revision.None?)
    ensures var a := Acquire(u, true, worker, seconds, now);
      && a.Ok? && a.value.1.Some? && Inv(a.value.0)
      && var t := a.value.1.value;
         t.sequence == Observed(u)
         && var c := Complete(a.value.0, true, t.observationId, worker, t.token, summary, done, later);
            c.Ok? && !c.value.1 && IngestedThrough(c.value.0) == Observed(c.value.0) == Observed(u)
  {
    AcquireKeepsInv(u, true, worker, seconds, now);
    var a := Acquire(u, true, worker, seconds, now);
    CompletesExactlyWhen(a.value.0, true, Observed(u), worker, a.value.1.value.token, summary, done, later);
  }
}
