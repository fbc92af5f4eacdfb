/** What a commit may rely on, over every run of the protocols around it. */
module ReconciliationTheorems {
  import opened Prelude
  import opened VersionSums
  import AH = AuthorityHistory
  import AT = AuthorityHistoryTheorems
  import U = Ingestion
  import UR = IngestionRuns
  import UT = IngestionTheorems
  import CR = ContextRecords
  import CS = ContextRuns
  import CT = ContextTheorems
  import opened Reconciliation

  // ----- every step keeps the invariant -----

  lemma EmptyInv()
    ensures Inv(EMPTY)
  {
    AH.EmptyInv();
    CS.EmptyInv();
  }

  lemma RecordedKeepsRecords(w: World, req: Request, now: Time)
    requires RecordsInv(w) && FindRecord(w.records, req.basis.candidate, req.hash) == None
    ensures RecordsInv(Recorded(w, req, now).0)
  {
  }

  lemma IngestedKeepsUnits(w: World, ref: nat, step: UR.Step)
    requires UnitsInv(w)
    ensures UnitsInv(w.(units := Ingested(w.units, ref, step)))
  {
    if ref < |w.units| {
      UT.StepExtends(w.units[ref], step);
    }
  }

  lemma StepKeepsInv(w: World, step: Step)
    requires Inv(w)
    ensures Inv(Apply(w, step))
  {
    hide AH.Inv, CR.Inv, UnitsInv, RecordsInv, U.Inv;
    match step
    case AuthorityStep(s) => AH.StepKeepsInv(w.authority, s); Irrelevant(w, Apply(w, step));
    case IngestionStep(ref, s) => IngestedKeepsUnits(w, ref, s); Irrelevant(w, Apply(w, step));
    case ContextStep(s) => CS.StepKeepsInv(w.context, s); Irrelevant(w, Apply(w, step));
    case IntegrityStep(_, _) => Irrelevant(w, Apply(w, step));
    case SubmitStep(_) => Irrelevant(w, Apply(w, step));
    case CommitStep(req, now) =>
      if Commit(w, req, now).Ok? && !Commit(w, req, now).value.1.replayed {
        RecordedKeepsRecords(w, req, now);
        Irrelevant(w, Apply(w, step));
      }
  }

  lemma Irrelevant(w: World, v: World)
    ensures v.units == w.units && UnitsInv(w) ==> UnitsInv(v)
    ensures v.records == w.records && v.latest == w.latest && RecordsInv(w) ==> RecordsInv(v)
  {
  }

  ghost function Run(w: World, steps: seq<Step>): (v: World)
    requires Inv(w)
    ensures Inv(v)
    decreases |steps|
  {
    if steps == [] then w
    else
      StepKeepsInv(w, steps[0]);
      Run(Apply(w, steps[0]), steps[1..])
  }

  // ----- what later worlds keep -----

  ghost predicate UnitsGrow(a: seq<U.Unit>, b: seq<U.Unit>) {
    |a| <= |b| && forall i :: 0 <= i < |a| ==> UT.Extends(a[i], b[i])
  }

  ghost predicate Grows(w: World, v: World) {
    AT.Grows(w.authority, v.authority) && UnitsGrow(w.units, v.units) && CT.Grows(w.context, v.context) && w.records <= v.records
  }

  lemma IngestedGrows(units: seq<U.Unit>, ref: nat, step: UR.Step)
    requires forall i :: 0 <= i < |units| ==> U.Inv(units[i])
    ensures UnitsGrow(units, Ingested(units, ref, step))
  {
    var after := Ingested(units, ref, step);
    forall i | 0 <= i < |units| ensures UT.Extends(units[i], after[i]) {
      UT.ExtendsReflexive(units[i]);
      if i == ref { UT.StepExtends(units[i], step); }
    }
  }

  lemma UnitsStay(units: seq<U.Unit>)
    ensures UnitsGrow(units, units)
  {
    forall i | 0 <= i < |units| ensures UT.Extends(units[i], units[i]) { UT.ExtendsReflexive(units[i]); }
  }

  lemma StepGrows(w: World, step: Step)
    requires Inv(w)
    ensures Grows(w, Apply(w, step))
  {
    hide AH.Inv, CR.Inv, U.Inv, RecordsInv, UT.Extends, AH.Apply, CS.Apply, Ingested;
    UnitsStay(w.units);
    hide UnitsGrow;
    match step
    case AuthorityStep(s) => AT.StepGrows(w.authority, s);
    case IngestionStep(ref, s) => IngestedGrows(w.units, ref, s);
    case ContextStep(s) => CT.StepGrows(w.context, s);
    case IntegrityStep(_, _) =>
    case SubmitStep(_) =>
    case CommitStep(_, _) =>
  }

  lemma UnitsGrowTransitive(a: seq<U.Unit>, b: seq<U.Unit>, c: seq<U.Unit>)
    requires UnitsGrow(a, b) && UnitsGrow(b, c)
    ensures UnitsGrow(a, c)
  {
    forall i | 0 <= i < |a| ensures UT.Extends(a[i], c[i]) { UT.ExtendsTransitive(a[i], b[i], c[i]); }
  }

  lemma ContextGrowsTransitive(a: CR.Project, b: CR.Project, c: CR.Project)
    requires CT.Grows(a, b) && CT.Grows(b, c)
    ensures CT.Grows(a, c)
  {
    assert forall i :: 0 <= i < |a.identities| ==> CT.IdentityGrows(a.identities[i], b.identities[i]) && CT.IdentityGrows(b.identities[i], c.identities[i]);
  }

  lemma AuthorityGrowsTransitive(a: AH.History, b: AH.History, c: AH.History)
    requires AT.Grows(a, b) && AT.Grows(b, c)
    ensures AT.Grows(a, c)
  {
    assert forall s :: 0 <= s < |a.scopes| ==> AT.ScopeGrows(a.scopes[s], b.scopes[s]) && AT.ScopeGrows(b.scopes[s], c.scopes[s]);
  }

  lemma {:induction false} RunGrows(w: World, steps: seq<Step>)
    requires Inv(w)
    ensures Grows(w, Run(w, steps))
    decreases |steps|
  {
    hide Inv, Apply, UnitsGrow, AT.Grows, CT.Grows;
    if steps == [] {
      UnitsStay(w.units);
      NothingGrows(w);
    } else {
      var v := Apply(w, steps[0]);
      StepKeepsInv(w, steps[0]);
      StepGrows(w, steps[0]);
      RunGrows(v, steps[1..]);
      var u := Run(w, steps);
      UnitsGrowTransitive(w.units, v.units, u.units);
      ContextGrowsTransitive(w.context, v.context, u.context);
      AuthorityGrowsTransitive(w.authority, v.authority, u.authority);
    }
  }

  lemma NothingGrows(w: World)
    ensures AT.Grows(w.authority, w.authority) && CT.Grows(w.context, w.context)
  {
  }

  // ----- the sums are a sound stamp -----

  /** The authority sum is unchanged exactly when no scope was set, revoked or added. */
  lemma AuthoritySumIsSound(g: AH.History, h: AH.History)
    requires AT.Grows(g, h) && AH.Inv(h)
    ensures Sum(ScopeVersions(g)) == Sum(ScopeVersions(h)) <==> g.scopes == h.scopes
  {
    var a, b := ScopeVersions(g), ScopeVersions(h);
    forall s | |g.scopes| <= s < |h.scopes| ensures b[s] > 0 { assert AH.ScopeInv(h, s); }
    forall s | 0 <= s < |g.scopes| ensures a[s] <= b[s] { assert AT.ScopeGrows(g.scopes[s], h.scopes[s]); }
    SumsPinCounters(a, b);
    if Sum(a) == Sum(b) {
      assert |a| == |b|;
      forall s | 0 <= s < |g.scopes| ensures g.scopes[s] == h.scopes[s] {
        assert a[s] == b[s] && AT.ScopeGrows(g.scopes[s], h.scopes[s]);
      }
    }
  }

  /** What ingestion has settled for a ref: its observations, its dispositions, and the evidence below its frontier. */
  ghost predicate SameSource(u: U.Unit, v: U.Unit) {
    && u.observed == v.observed && u.desired == v.desired && u.ingested == v.ingested
    && u.observations == v.observations && u.dispositions == v.dispositions
    && UT.SettledEvidence(u, U.IngestedThrough(u)) == UT.SettledEvidence(v, U.IngestedThrough(v))
  }

  lemma SameCountSameSource(u: U.Unit, v: U.Unit)
    requires U.Inv(u) && U.Inv(v) && UT.Extends(u, v)
    ensures FrontierCount(u) <= FrontierCount(v)
    ensures FrontierCount(u) == FrontierCount(v) ==> SameSource(u, v)
  {
    assert U.ObservationInv(u) && U.ObservationInv(v) && U.FrontierInv(u) && U.FrontierInv(v);
    hide U.Inv;
    if FrontierCount(u) == FrontierCount(v) {
      assert U.Observed(u) == U.Observed(v) && U.IngestedThrough(u) == U.IngestedThrough(v);
      assert u.observations == v.observations;
      assert u.dispositions == v.dispositions;
    }
  }

  /** The frontier sum is unchanged only when no ref was observed, ingested or added. */
  lemma FrontierSumIsSound(w: World, v: World)
    requires UnitsInv(w) && UnitsInv(v) && UnitsGrow(w.units, v.units)
    requires Sum(FrontierCounts(w.units)) == Sum(FrontierCounts(v.units))
    ensures |w.units| == |v.units| && forall i :: 0 <= i < |w.units| ==> SameSource(w.units[i], v.units[i])
  {
    hide U.Inv, SameSource, UT.Extends;
    var a, b := FrontierCounts(w.units), FrontierCounts(v.units);
    forall i | |w.units| <= i < |v.units| ensures b[i] > 0 { FirstObservationCounts(v.units[i]); }
    forall i | 0 <= i < |w.units| ensures a[i] <= b[i] { SameCountSameSource(w.units[i], v.units[i]); }
    SumsPinCounters(a, b);
    assert |a| == |b|;
    forall i | 0 <= i < |w.units| ensures SameSource(w.units[i], v.units[i]) {
      assert a[i] == b[i];
      SameCountSameSource(w.units[i], v.units[i]);
    }
  }

  lemma FirstObservationCounts(u: U.Unit)
    requires U.Inv(u) && u.observed.Some?
    ensures FrontierCount(u) > 0
  {
    assert U.ObservationInv(u);
  }

  /**
   * A result that commits, however long after its material was loaded and whatever ran in between, commits on the very
   * authority scopes, source frontiers, identity and current record that the material was loaded from.
   */
  lemma CommitSeesItsBasis(w: World, steps: seq<Step>, candidate: Id, identity: Id, req: Request, now: Time)
    requires Inv(w) && identity < |w.context.identities| && req.basis == BasisOf(w, candidate, identity)
    requires var v := Run(w, steps); Commit(v, req, now).Ok? && !Commit(v, req, now).value.1.replayed
    ensures
      var v := Run(w, steps);
      && v.authority.scopes == w.authority.scopes
      && |v.units| == |w.units| && (forall i :: 0 <= i < |w.units| ==> SameSource(w.units[i], v.units[i]))
      && identity < |v.context.identities| && v.context.identities[identity] == w.context.identities[identity]
      && CurrentRecord(v.context, identity) == CurrentRecord(w.context, identity)
  {
    var v := Run(w, steps);
    RunGrows(w, steps);
    assert Staleness(v, req.basis).None?;
    hide AH.Inv, CR.Inv, UnitsGrow, UnitsInv, RecordsInv, AT.Grows;
    AuthoritySumIsSound(w.authority, v.authority);
    FrontierSumIsSound(w, v);
    assert CT.IdentityGrows(w.context.identities[identity], v.context.identities[identity]);
  }

  // ----- one record per basis -----

  /** A result that commits is on record under its candidate and basis. */
  lemma CommitRecords(w: World, req: Request, now: Time)
    requires Commit(w, req, now).Ok?
    ensures
      var (v, receipt) := Commit(w, req, now).value;
      receipt.record < |v.records| && v.records[receipt.record].candidate == req.basis.candidate
      && v.records[receipt.record].hash == req.hash && v.records[receipt.record].item == receipt.item
      && (receipt.replayed ==> v == w)
  {
  }

  /** A recorded result is found again for ever, by its candidate and basis, whatever else the repetition says. */
  lemma RecordsReplayForever(w: World, r: Id, steps: seq<Step>, again: Request, later: Time)
    requires Inv(w) && r < |w.records|
    requires WellFormed(again) && again.basis.candidate == w.records[r].candidate && again.hash == w.records[r].hash
    ensures var u := Run(w, steps); Commit(u, again, later) == Ok((u, Receipt(r, w.records[r].item, true)))
  {
    RunGrows(w, steps);
    var u := Run(w, steps);
    hide AH.Inv, CR.Inv, UnitsGrow, UnitsInv, AT.Grows, CT.Grows;
    assert u.records[r] == w.records[r];
    FindsRecord(u, r);
  }

  lemma FindsRecord(w: World, r: Id)
    requires RecordsInv(w) && r < |w.records|
    ensures FindRecord(w.records, w.records[r].candidate, w.records[r].hash) == Some(r)
  {
  }

  /** The current pointer always moves to another record, so its trigger never rejects. */
  lemma CurrentPointerMoves(w: World, req: Request, now: Time)
    requires Inv(w) && Commit(w, req, now).Ok? && !Commit(w, req, now).value.1.replayed
    ensures
      var v := Commit(w, req, now).value.0;
      var c := req.basis.candidate;
      c in v.latest && (c in w.latest ==> v.latest[c] > w.latest[c]) && v.latest[c] < |v.records|
      && forall i :: 0 <= i < |v.records| && v.records[i].candidate == c ==> i <= v.latest[c]
  {
  }
}
