/** An undisturbed pass of the worker succeeds: it drains its ref, and what the provider reported is on record. */
module IngestionSuccess {
  import opened Prelude
  import opened Ingestion
  import opened IngestionRuns
  import opened IngestionWorker
  import opened IngestionPasses
  import opened IngestionLaws
  import PU = ProcessingUnits

  /** Nobody else commits, the connection stays active, and every later reading of the clock is within the lease. */
  ghost predicate Calm(world: World, seconds: int) {
    && Undisturbed(world) && (forall i: nat :: world.active(i))
    && (forall i: nat :: i >= 1 ==> world.clock(i) < world.clock(0) + seconds)
  }

  /** References that can be recorded for observation `k`: in shape, of its revision, within the limit, and never two different ones under one key. */
  ghost predicate Recordable(u: Unit, k: nat, references: seq<Draft>)
    requires k in u.observations
  {
    var o := u.observations[k].id;
    && (forall i :: 0 <= i < |references| ==> WellShaped(references[i]) && u.observations[k].revision == Some(references[i].revision))
    && |References(u, o)| + |references| <= 2000
    && (forall i, j :: 0 <= i < j < |references| && KeyOf(o, references[i]) == KeyOf(o, references[j]) ==> references[i] == references[j])
    && (forall i, e :: 0 <= i < |references| && e in u.evidence && RowKey(u.evidence[e]) == KeyOf(o, references[i]) ==>
          u.evidence[e].draft == references[i])
  }

  /** The evidence holds the reference under observation `k`. */
  ghost predicate OnRecord(u: Unit, k: nat, draft: Draft)
    requires k in u.observations
  {
    exists i :: i in u.evidence && u.evidence[i] == Evidence(k, u.observations[k].id, draft)
  }

  /** The state of the loop over the references: the first `n` are on record and nothing else has come. */
  ghost predicate RecordedSoFar(u: Unit, v: Unit, k: nat, references: seq<Draft>, n: nat)
    requires k in u.observations && n <= |references|
  {
    var o := u.observations[k].id;
    && Inv(v) && v.observations == u.observations && v.observed == u.observed && v.ingested == u.ingested && v.processing == u.processing
    && (forall i :: 0 <= i < n ==> OnRecord(v, k, references[i]))
    && (forall e :: e in v.evidence && e !in u.evidence ==> exists i :: 0 <= i < n && v.evidence[e] == Evidence(k, o, references[i]))
    && (forall e :: e in u.evidence ==> e in v.evidence && v.evidence[e] == u.evidence[e])
    && |References(v, o)| <= |References(u, o)| + n
  }

  lemma OneMoreReference(u: Unit, v: Unit, o: Id, i: Id)
    requires forall j :: j in u.evidence ==> j in v.evidence && v.evidence[j] == u.evidence[j]
    requires forall j :: j in v.evidence && j !in u.evidence ==> j == i
    ensures |References(v, o)| <= |References(u, o)| + 1
  {
    assert References(v, o) <= References(u, o) + {i};
    SubsetSize(References(v, o), References(u, o) + {i});
    hide References;
  }

  lemma RecordOneMore(u: Unit, v: Unit, actor: Id, t: Target, references: seq<Draft>, n: nat, now: Time)
    requires Inv(u) && t.sequence in u.observations && t.observationId == u.observations[t.sequence].id
    requires n < |references| && Recordable(u, t.sequence, references) && RecordedSoFar(u, v, t.sequence, references, n)
    requires HeldFor(u, actor, t.token, t.sequence, now)
    ensures
      var r := Record(v, true, t.observationId, actor, t.token, references[n], now);
      r.Ok? && RecordedSoFar(u, r.value.0, t.sequence, references, n + 1)
  {
    var k, o, d := t.sequence, t.observationId, references[n];
    hide Inv, Record;
    assert HeldFor(v, actor, t.token, k, now);
    assert |References(v, o)| < 2000 && WellShaped(d) && u.observations[k].revision == Some(d.revision);
    if Known(v, o, d) {
      var e :| e in v.evidence && RowKey(v.evidence[e]) == KeyOf(o, d);
      KnownIsSame(u, v, k, references, n, e);
    }
    RecordMeans(v, true, k, actor, t.token, d, now);
    RecordKeepsInv(v, true, o, actor, t.token, d, now);
    var (w, i) := Record(v, true, o, actor, t.token, d, now).value;
    OneMoreReference(v, w, o, i);
    hide Recordable, Known, RowKey, KeyOf, References, WellShaped, HeldFor;
    SoFarExtends(u, v, w, k, references, n, i);
  }

  lemma SoFarExtends(u: Unit, v: Unit, w: Unit, k: nat, references: seq<Draft>, n: nat, i: Id)
    requires k in u.observations && n < |references| && RecordedSoFar(u, v, k, references, n) && Inv(w)
    requires i in w.evidence && w.evidence[i] == Evidence(k, u.observations[k].id, references[n])
    requires w.processing == v.processing && w.observations == v.observations && w.observed == v.observed && w.ingested == v.ingested
    requires forall j :: j in v.evidence ==> j in w.evidence && w.evidence[j] == v.evidence[j]
    requires forall j :: j in w.evidence && j !in v.evidence ==> j == i
    requires |References(w, u.observations[k].id)| <= |References(v, u.observations[k].id)| + 1
    ensures RecordedSoFar(u, w, k, references, n + 1)
  {
    hide Inv, References;
    var o := u.observations[k].id;
    forall m | 0 <= m < n + 1 ensures OnRecord(w, k, references[m]) {
      if m < n {
        assert OnRecord(v, k, references[m]);
        var e :| e in v.evidence && v.evidence[e] == Evidence(k, o, references[m]);
        assert w.evidence[e] == Evidence(k, o, references[m]);
      }
    }
    forall e | e in w.evidence && e !in u.evidence ensures exists m :: 0 <= m < n + 1 && w.evidence[e] == Evidence(k, o, references[m]) {
      if e in v.evidence {
        var m :| 0 <= m < n && v.evidence[e] == Evidence(k, o, references[m]);
        assert w.evidence[e] == Evidence(k, o, references[m]);
      } else {
        assert w.evidence[e] == Evidence(k, o, references[n]);
      }
    }
  }

  lemma KnownIsSame(u: Unit, v: Unit, k: nat, references: seq<Draft>, n: nat, e: Id)
    requires Inv(u) && k in u.observations && n < |references| && Recordable(u, k, references) && RecordedSoFar(u, v, k, references, n)
    requires e in v.evidence && RowKey(v.evidence[e]) == KeyOf(u.observations[k].id, references[n])
    ensures v.evidence[e] == Evidence(k, u.observations[k].id, references[n])
  {
    var o := u.observations[k].id;
    if e in u.evidence {
      assert u.evidence[e].draft == references[n];
      assert EvidenceRowInv(u, e);
      IngestionTheorems.IdNamesOne(u, u.evidence[e].sequence, k);
    } else {
      var m :| 0 <= m < n && v.evidence[e] == Evidence(k, o, references[m]);
      assert KeyOf(o, references[m]) == KeyOf(o, references[n]);
    }
  }

  lemma {:induction false} ReferencesRecorded(u: Unit, actor: Id, t: Target, references: seq<Draft>, world: World, seconds: int, n: nat)
    requires Inv(u) && t.sequence in u.observations && t.observationId == u.observations[t.sequence].id
    requires n <= |references| && Recordable(u, t.sequence, references) && Calm(world, seconds)
    requires LeaseIs(u, t.token, actor, t.sequence, world.clock(0) + seconds)
    ensures
      var r := AfterReferences(u, actor, t, references, world, n);
      r.Ok? && RecordedSoFar(u, r.value, t.sequence, references, n)
  {
    hide Inv, Recordable, Record, Apply;
    if n == 0 {
      NothingRecorded(u, t.sequence, references);
    } else {
      ReferencesRecorded(u, actor, t, references, world, seconds, n - 1);
      var v := AfterReferences(u, actor, t, references, world, n - 1).value;
      assert Inv(v);
      hide RecordedSoFar;
      var i := n + 1;
      assert world.active(i) && world.clock(i) < world.clock(0) + seconds;
      UndisturbedStays(v, world, i);
      hide Calm, Run;
      RecordOneMore(u, v, actor, t, references, n - 1, world.clock(i));
    }
  }

  lemma NothingRecorded(u: Unit, k: nat, references: seq<Draft>)
    requires Inv(u) && k in u.observations
    ensures RecordedSoFar(u, u, k, references, 0)
  {
    hide Inv;
  }

  /** The revision that was ingested last. */
  function BaseOf(u: Unit): Option<string> {
    if u.ingested.Some? && u.ingested.value in u.observations then u.observations[u.ingested.value].revision else None
  }

  /** The references that a pass over a target records, and the summary it completes with. */
  ghost predicate Reported(u: Unit, k: nat, world: World, references: seq<Draft>, summary: Summary)
    requires k in u.observations
  {
    if u.observations[k].revision == None then references == []
    else
      && world.extraction(u.observations[k].revision.value, BaseOf(u)) == Extracted(references, summary) && summary.mode != DeletedRef
      && SummaryAccepted(summary) && Recordable(u, k, references)
  }

  lemma CompletionSucceeds(u: Unit, actor: Id, t: Target, references: seq<Draft>, summary: Summary, world: World, seconds: int)
    requires Inv(u) && t.sequence in u.observations && t.observationId == u.observations[t.sequence].id
    requires t.sequence == Observed(u) && Recordable(u, t.sequence, references) && Calm(world, seconds)
    requires LeaseIs(u, t.token, actor, t.sequence, world.clock(0) + seconds)
    requires SummaryAccepted(summary) && (summary.mode == DeletedRef <==> u.observations[t.sequence].revision == None)
    ensures
      var (r, v) := CompletePass(u, actor, t, references, summary, world);
      r == Done(true, false) && Drained(u, v, references)
  {
    hide Inv, Complete, Recordable, Run, RecordedSoFar, AfterReferences, Drained;
    ReferencesRecorded(u, actor, t, references, world, seconds, |references|);
    var w := AfterReferences(u, actor, t, references, world, |references|).value;
    var last := 2 + |references|;
    assert world.active(last) && world.clock(last) < world.clock(0) + seconds && world.clock(last + 1) < world.clock(0) + seconds;
    hide Calm;
    assert Inv(w) by { SoFarKeepsInv(u, w, t.sequence, references, |references|); }
    CalmIsUndisturbed(world, seconds);
    UndisturbedStays(w, world, last);
    CompletionDrains(u, w, actor, t, references, summary, world.clock(last), world.clock(last + 1), world.clock(0) + seconds);
  }

  lemma SoFarKeepsInv(u: Unit, v: Unit, k: nat, references: seq<Draft>, n: nat)
    requires k in u.observations && n <= |references| && RecordedSoFar(u, v, k, references, n)
    ensures Inv(v)
  {
    hide Inv;
  }

  lemma CalmIsUndisturbed(world: World, seconds: int)
    requires Calm(world, seconds)
    ensures Undisturbed(world)
  {
  }

  /** Completing the recorded target. */
  lemma CompletionDrains(u: Unit, w: Unit, actor: Id, t: Target, references: seq<Draft>, summary: Summary, now: Time, later: Time, expires: Time)
    requires Inv(u) && Inv(w) && t.sequence in u.observations && t.observationId == u.observations[t.sequence].id
    requires t.sequence == Observed(u) && RecordedSoFar(u, w, t.sequence, references, |references|)
    requires LeaseIs(u, t.token, actor, t.sequence, expires) && now < expires && later < expires
    requires SummaryAccepted(summary) && (summary.mode == DeletedRef <==> u.observations[t.sequence].revision == None)
    ensures
      var r := Complete(w, true, t.observationId, actor, t.token, summary, now, later);
      r.Ok? && !r.value.1 && Drained(u, r.value.0, references) && Inv(r.value.0)
  {
    hide Inv, Complete;
    CompleteMeans(w, true, t.sequence, actor, t.token, summary, now, later);
    CompleteKeepsInv(w, true, t.observationId, actor, t.token, summary, now, later);
    var v := Complete(w, true, t.observationId, actor, t.token, summary, now, later).value.0;
    assert SettledBy(w, v, t.sequence, t.sequence, actor, t.token) by { NewestUnsettled(w, t.token, actor, t.sequence, expires); }
    forall i | 0 <= i < |references| ensures OnRecord(v, t.sequence, references[i]) {
      assert OnRecord(w, t.sequence, references[i]);
      var e :| e in w.evidence && w.evidence[e] == Evidence(t.sequence, u.observations[t.sequence].id, references[i]);
      assert e in v.evidence && v.evidence[e] == w.evidence[e];
    }
  }

  /** A leased target is above everything ingested. */
  lemma NewestUnsettled(u: Unit, token: Id, owner: Id, target: nat, expires: Time)
    requires Inv(u) && LeaseIs(u, token, owner, target, expires)
    ensures IngestedThrough(u) < target <= Observed(u)
  {
    assert ProcessingInv(u);
  }

  /** Everything observed is ingested, and each reference is on record under the newest observation. */
  ghost predicate Drained(u: Unit, v: Unit, references: seq<Draft>) {
    && v.observations == u.observations && Observed(v) == Observed(u) && IngestedThrough(v) == Observed(u)
    && Observed(u) in v.observations && Observed(u) in v.dispositions
    && v.dispositions[Observed(u)].kind == (if v.observations[Observed(u)].revision == None then RefDeleted else Ingested)
    && (forall i :: 0 <= i < |references| ==> OnRecord(v, Observed(u), references[i]))
  }

  /**
   * A calm pass over due work succeeds with nothing left to do. For a deleted ref it asks nothing of the provider; for any
   * other it needs references that can be recorded and an accepted summary, and then each reference is on record.
   */
  lemma {:induction false} CalmPassDrains(u: Unit, actor: Id, seconds: int, world: World, references: seq<Draft>, summary: Summary)
    requires Inv(u) && u.observed.Some? && Observed(u) > IngestedThrough(u) && Observed(u) in u.observations
    requires !LeasedAt(u, world.clock(0)) && !WaitsAt(u, world.clock(0)) && 1 <= seconds <= 3600
    requires Calm(world, seconds) && Reported(u, Observed(u), world, references, summary)
    ensures
      var (r, v) := PassOf(u, actor, seconds, world);
      r == Done(true, false) && Drained(u, v, references)
  {
    var now := world.clock(0);
    assert world.active(0);
    UndisturbedStays(u, world, 0);
    GrantsExactlyWhen(u, true, actor, seconds, now);
    GrantedTarget(u, true, actor, seconds, now);
    AcquireKeepsInv(u, true, actor, seconds, now);
    var (v, t) := (Acquire(u, true, actor, seconds, now).value.0, Acquire(u, true, actor, seconds, now).value.1.value);
    UndisturbedStays(v, world, 1);
    hide Inv, Acquire, Run, Calm;
    LeasedPassDrains(u, v, actor, t, seconds, world, references, summary);
  }

  lemma LeasedPassDrains(u: Unit, v: Unit, actor: Id, t: Target, seconds: int, world: World, references: seq<Draft>, summary: Summary)
    requires Inv(u) && Inv(v) && v.observations == u.observations && v.evidence == u.evidence && v.observed == u.observed
    requires t.sequence == Observed(u) && t.sequence in u.observations
    requires t.observationId == u.observations[t.sequence].id && t.revision == u.observations[t.sequence].revision && t.base == BaseOf(u)
    requires Calm(world, seconds) && Reported(u, Observed(u), world, references, summary)
    requires LeaseIs(v, t.token, actor, t.sequence, world.clock(0) + seconds)
    requires world.others(1) == [] && Run(v, world.others(1)) == v
    ensures
      var (r, w) := LeasedPass(v, actor, t, world);
      r == Done(true, false) && Drained(u, w, references)
  {
    hide Inv, Run, CompletePass, Calm, LeaseIs;
    if u.observations[t.sequence].revision == None { NoReferencesRecordable(v, t.sequence); }
    else { RecordableStays(u, v, t.sequence, references); }
    hide Recordable;
    match Extract(t, world)
    case Extracted(given, reported) =>
      assert given == references;
      CompletionSucceeds(v, actor, t, references, reported, world, seconds);
    case Failed(_) =>
  }

  lemma RecordableStays(u: Unit, v: Unit, k: nat, references: seq<Draft>)
    requires v.observations == u.observations && v.evidence == u.evidence && k in u.observations && Recordable(u, k, references)
    ensures Recordable(v, k, references)
  {
  }

  lemma NoReferencesRecordable(u: Unit, k: nat)
    requires Inv(u) && k in u.observations
    ensures Recordable(u, k, [])
  {
    assert ReferencesBounded(u);
  }

  // ----- the whole drive -----

  /**
   * Driving one ref of a signal, with nobody in the way: the sighting is on record as the newest observation and
   * everything observed is ingested, in one pass at most, and no signal is needed.
   */
  lemma CalmDriveDrains(u: Unit, actor: Id, sighting: Sighting, worlds: nat -> World, references: seq<Draft>, summary: Summary)
    requires Inv(u) && !LeasedAt(u, worlds(0).clock(0)) && !WaitsAt(u, worlds(0).clock(0)) && Calm(worlds(0), 300)
    requires
      var v := Schedule(u, true, sighting.revision, sighting.isDefaultRef, sighting.observedAt).value.0;
      Observed(v) in v.observations && (Observed(v) > IngestedThrough(v) ==> Reported(v, Observed(v), worlds(0), references, summary))
    ensures
      var (passes, ending, w) := Drive(u, actor, true, Some(sighting), worlds);
      && passes <= 1 && ending == Quiet && IngestedThrough(w) == Observed(w) && Observed(w) in w.observations
      && w.observations[Observed(w)].revision == sighting.revision
      && w.observations[Observed(w)].isDefaultRef == sighting.isDefaultRef
  {
    ScheduleMeans(u, true, sighting.revision, sighting.isDefaultRef, sighting.observedAt);
    ScheduleKeepsInv(u, true, sighting.revision, sighting.isDefaultRef, sighting.observedAt);
    var v := Schedule(u, true, sighting.revision, sighting.isDefaultRef, sighting.observedAt).value.0;
    ScheduleKeepsQuiet(u, v, worlds(0).clock(0));
    hide Inv, Schedule, PassOf, Calm, Reported;
    if Observed(v) > IngestedThrough(v) {
      CalmPassDrains(v, actor, 300, worlds(0), references, summary);
    } else {
      IdlePass(v, actor, 300, worlds(0));
    }
  }

  lemma ScheduleKeepsQuiet(u: Unit, v: Unit, now: Time)
    requires Inv(u) && Inv(v) && (u.processing.Some? && v.processing.Some? ==>
      v.processing.value.leaseExpires == u.processing.value.leaseExpires && v.processing.value.retryAt == u.processing.value.retryAt)
    requires u.processing.None? && v.processing.Some? ==> v.processing.value.leaseExpires == None && v.processing.value.retryAt == None
    requires !LeasedAt(u, now) && !WaitsAt(u, now)
    ensures !LeasedAt(v, now) && !WaitsAt(v, now)
    ensures Observed(v) > IngestedThrough(v) ==> v.observed.Some?
    ensures IngestedThrough(v) <= Observed(v)
  {
  }

  /** With everything ingested a pass finds nothing to lease. */
  lemma {:induction false} IdlePass(u: Unit, actor: Id, seconds: int, world: World)
    requires Inv(u) && Observed(u) <= IngestedThrough(u) && 1 <= seconds <= 3600 && Calm(world, seconds)
    ensures PassOf(u, actor, seconds, world) == (Done(false, false), u)
  {
    assert world.active(0);
    UndisturbedStays(u, world, 0);
    GrantsExactlyWhen(u, true, actor, seconds, world.clock(0));
    hide Inv, Acquire, Run, Calm;
  }

  // ----- a provider that fails -----

  /** A calm pass whose extraction fails gives its lease back, and the ref waits for a minute under the failure's code. */
  lemma {:induction false} CalmFailureWaits(u: Unit, actor: Id, seconds: int, world: World, code: string)
    requires Inv(u) && Observed(u) > IngestedThrough(u) && Observed(u) in u.observations && u.observations[Observed(u)].revision.Some?
    requires !LeasedAt(u, world.clock(0)) && !WaitsAt(u, world.clock(0)) && 1 <= seconds <= 3600 && Calm(world, seconds)
    requires world.extraction(u.observations[Observed(u)].revision.value, BaseOf(u)) == Failed(code)
    ensures
      var (r, v) := PassOf(u, actor, seconds, world);
      && r.Threw? && r.lease.Some? && v.processing.Some? && v.processing.value.leaseToken == None
      && v.processing.value.retryAt == Some(world.clock(1) + 60) && v.processing.value.failure == Some(code)
      && v.evidence == u.evidence && v.ingested == u.ingested && v.observed == u.observed
  {
    var now := world.clock(0);
    assert world.active(0) && world.clock(1) < now + seconds;
    UndisturbedStays(u, world, 0);
    GrantsExactlyWhen(u, true, actor, seconds, now);
    GrantedTarget(u, true, actor, seconds, now);
    AcquireKeepsInv(u, true, actor, seconds, now);
    var (v, t) := (Acquire(u, true, actor, seconds, now).value.0, Acquire(u, true, actor, seconds, now).value.1.value);
    UndisturbedStays(v, world, 1);
    hide Inv, Acquire, Run, Calm;
    assert t.base == BaseOf(u);
    RetryMeans(v, t.token, world.clock(1) + RETRY_DELAY, Some(code), true, world.clock(1));
    hide Retry, BaseOf;
  }
}
