/** The worker's own code over the store: one pass, and the bounded loop over one ref, with others interleaved. */
module IngestionWorker {
  import opened Prelude
  import opened Ingestion
  import opened IngestionRuns
  import opened IngestionStore
  import opened IngestionRuntime
  import IngestionTheorems

  datatype Extraction = Extracted(references: seq<Draft>, summary: Summary) | Failed(code: string)

  /**
   * Everything a pass does not control: what the provider answers about a revision over a base revision, and, before
   * its n-th database call, the transactions that others commit, the clock, and whether the connection is still active.
   */
  datatype World = World(
    extraction: (string, Option<string>) -> Extraction, others: nat -> seq<Step>, clock: nat -> Time, active: nat -> bool)

  /** A pass that throws holds a lease by then, or it could not acquire. */
  datatype Pass = Done(processed: bool, followUp: bool) | Threw(lease: Option<Id>)

  const RETRY_DELAY: Time := 60
  const NO_REFERENCES := Extracted([], Summary(DeletedRef, 0, 0, true))

  /** One transaction of another caller, with its result discarded. */
  method ExecuteOne(store: Store, step: Step)
    requires store.Valid()
    modifies store
    ensures store.Valid() && store.Rows() == Apply(old(store.Rows()), step)
  {
    match step {
      case DoSchedule(active, revision, isDefaultRef, observedAt) =>
        var _ := store.Schedule(active, revision, isDefaultRef, observedAt);
      case DoAcquire(active, worker, seconds, now) => var _ := store.Acquire(active, worker, seconds, now);
      case DoRenew(token, seconds, now) => var _ := store.Renew(token, seconds, now);
      case DoRecord(active, observationId, worker, token, draft, now) =>
        var _ := store.Record(active, observationId, worker, token, draft, now);
      case DoComplete(active, observationId, worker, token, summary, now, later) =>
        var _ := store.Complete(active, observationId, worker, token, summary, now, later);
      case DoRetry(token, retryAt, failure, sanitized, now) =>
        var _ := store.Retry(token, retryAt, failure, sanitized, now);
    }
  }

  /** Executes other callers' transactions in order; what they leave is the run the specification describes. */
  method Execute(store: Store, steps: seq<Step>)
    requires store.Valid()
    modifies store
    ensures store.Valid() && store.Rows() == Run(old(store.Rows()), steps)
    decreases |steps|
  {
    if steps != [] {
      ExecuteOne(store, steps[0]);
      Execute(store, steps[1..]);
    }
  }

  // ----- one pass as a function of what it does not control -----

  function Extract(target: Target, world: World): Extraction {
    match target.revision
    case None => NO_REFERENCES
    case Some(revision) => world.extraction(revision, target.base)
  }

  /** The rows after the first `n` references are recorded, or after the first recording that was rejected. */
  ghost function AfterReferences(u: Unit, actor: Id, t: Target, references: seq<Draft>, world: World, n: nat): (r: Result<Unit, Unit>)
    requires Inv(u) && n <= |references|
    ensures Inv(if r.Ok? then r.value else r.error)
  {
    if n == 0 then Ok(u)
    else
      match AfterReferences(u, actor, t, references, world, n - 1)
      case Err(v) => Err(v)
      case Ok(v) =>
        var i := n + 1;
        var before := Run(v, world.others(i));
        RecordKeepsInv(before, world.active(i), t.observationId, actor, t.token, references[n - 1], world.clock(i));
        match Record(before, world.active(i), t.observationId, actor, t.token, references[n - 1], world.clock(i))
        case Err(_) => Err(before)
        case Ok((w, _)) => Ok(w)
  }

  ghost function CompletePass(u: Unit, actor: Id, t: Target, references: seq<Draft>, summary: Summary, world: World): (r: (Pass, Unit))
    requires Inv(u)
    ensures Inv(r.1)
  {
    match AfterReferences(u, actor, t, references, world, |references|)
    case Err(v) => (Threw(Some(t.token)), v)
    case Ok(v) =>
      var last := 2 + |references|;
      var before := Run(v, world.others(last));
      CompleteKeepsInv(before, world.active(last), t.observationId, actor, t.token, summary, world.clock(last), world.clock(last + 1));
      match Complete(before, world.active(last), t.observationId, actor, t.token, summary, world.clock(last), world.clock(last + 1))
      case Err(_) => (Threw(Some(t.token)), before)
      case Ok((w, followUp)) => (Done(true, followUp), w)
  }

  /** A pass that has leased `t`. */
  ghost function LeasedPass(u: Unit, actor: Id, t: Target, world: World): (r: (Pass, Unit))
    requires Inv(u)
    ensures Inv(r.1)
  {
    var held := Run(u, world.others(1));
    match Extract(t, world)
    case Failed(code) => (Threw(Some(t.token)), Apply(held, RetryOf(t, code, world)))
    case Extracted(references, summary) => CompletePass(held, actor, t, references, summary, world)
  }

  /** What a pass reports, and the rows it leaves. */
  ghost function PassOf(u: Unit, actor: Id, seconds: int, world: World): (r: (Pass, Unit))
    requires Inv(u)
    ensures Inv(r.1)
  {
    var before := Run(u, world.others(0));
    AcquireKeepsInv(before, world.active(0), actor, seconds, world.clock(0));
    match Acquire(before, world.active(0), actor, seconds, world.clock(0))
    case Err(_) => (Threw(None), before)
    case Ok((v, None)) => (Done(false, false), v)
    case Ok((v, Some(t))) => LeasedPass(v, actor, t, world)
  }

  function RetryOf(t: Target, code: string, world: World): Step {
    DoRetry(t.token, world.clock(1) + RETRY_DELAY, Some(code), true, world.clock(1))
  }

  // ----- what a pass leaves behind -----

  /** A token that was issued is the current one, and the row is parked under it, or it is fenced. */
  ghost predicate ParkedOrFenced(u: Unit, token: Id) {
    token < u.nextId && (Parked(u) || IngestionTheorems.Fenced(u, token))
  }

  lemma IdsNeverReturn(u: Unit, step: Step)
    requires Inv(u)
    ensures u.nextId <= Apply(u, step).nextId
  {
  }

  lemma {:induction false} RunIdsNeverReturn(u: Unit, steps: seq<Step>)
    requires Inv(u)
    ensures u.nextId <= Run(u, steps).nextId
    decreases |steps|
  {
    hide Inv, Apply;
    if steps != [] {
      IdsNeverReturn(u, steps[0]);
      RunIdsNeverReturn(Apply(u, steps[0]), steps[1..]);
    }
  }

  /** Nobody else commits anything once the pass holds its lease. */
  ghost predicate Alone(world: World) {
    forall i: nat :: i >= 1 ==> world.others(i) == []
  }

  lemma RecordKeepsLease(u: Unit, active: bool, observationId: Id, actor: Id, token: Id, draft: Draft, now: Time)
    requires Inv(u) && Record(u, active, observationId, actor, token, draft, now).Ok?
    ensures var v := Record(u, active, observationId, actor, token, draft, now).value.0;
            v.processing == u.processing && u.nextId <= v.nextId
  {
    hide Inv;
  }

  lemma {:induction false} ReferencesKeepLease(u: Unit, actor: Id, t: Target, references: seq<Draft>, world: World, n: nat)
    requires Inv(u) && n <= |references|
    ensures
      var r := AfterReferences(u, actor, t, references, world, n);
      var v := if r.Ok? then r.value else r.error;
      u.nextId <= v.nextId && (Alone(world) ==> v.processing == u.processing)
  {
    hide Inv, Record, Apply;
    if n > 0 {
      ReferencesKeepLease(u, actor, t, references, world, n - 1);
      var r := AfterReferences(u, actor, t, references, world, n - 1);
      if r.Ok? {
        var i := n + 1;
        RunIdsNeverReturn(r.value, world.others(i));
        var before := Run(r.value, world.others(i));
        assert Alone(world) ==> before == r.value;
        hide Run, Alone;
        if Record(before, world.active(i), t.observationId, actor, t.token, references[n - 1], world.clock(i)).Ok? {
          RecordKeepsLease(before, world.active(i), t.observationId, actor, t.token, references[n - 1], world.clock(i));
        }
      }
    }
  }

  /** A completed pass reports follow-up exactly when work is left; an idle one leaves nothing due, or a parked row. */
  lemma {:induction false} DonePassMeans(u: Unit, actor: Id, seconds: int, world: World)
    requires Inv(u) && PassOf(u, actor, seconds, world).0.Done?
    ensures
      var (r, v) := PassOf(u, actor, seconds, world);
      if r.processed then r.followUp == NeedsWork(v)
      else !r.followUp && v == Run(u, world.others(0)) && (NeedsWork(v) ==> Parked(v))
  {
    hide Run, Inv, Acquire, LeasedPass, NeedsWork, Parked;
    var before := Run(u, world.others(0));
    AcquireMeans(before, world.active(0), actor, seconds, world.clock(0));
    var a := Acquire(before, world.active(0), actor, seconds, world.clock(0));
    if a.Ok? && a.value.1.Some? { DoneLease(a.value.0, actor, a.value.1.value, world); }
  }

  lemma DoneLease(u: Unit, actor: Id, t: Target, world: World)
    requires Inv(u) && LeasedPass(u, actor, t, world).0.Done?
    ensures
      var (r, v) := LeasedPass(u, actor, t, world);
      r.processed && r.followUp == NeedsWork(v)
  {
    hide Run, Inv, CompletePass;
    var held := Run(u, world.others(1));
    match Extract(t, world)
    case Extracted(references, summary) => DoneCompletion(held, actor, t, references, summary, world);
    case Failed(_) =>
  }

  lemma DoneCompletion(held: Unit, actor: Id, t: Target, references: seq<Draft>, summary: Summary, world: World)
    requires Inv(held) && CompletePass(held, actor, t, references, summary, world).0.Done?
    ensures
      var (r, v) := CompletePass(held, actor, t, references, summary, world);
      r.processed && r.followUp == NeedsWork(v)
  {
    var last := 2 + |references|;
    var v := AfterReferences(held, actor, t, references, world, |references|).value;
    var before := Run(v, world.others(last));
    hide Run, AfterReferences, Inv;
    CompletionReports(before, world.active(last), t.observationId, actor, t.token, summary, world.clock(last), world.clock(last + 1));
    hide Complete;
  }

  lemma CompletionReports(u: Unit, active: bool, observationId: Id, actor: Id, token: Id, summary: Summary, now: Time, later: Time)
    requires Inv(u) && Complete(u, active, observationId, actor, token, summary, now, later).Ok?
    ensures var (v, followUp) := Complete(u, active, observationId, actor, token, summary, now, later).value;
            followUp == NeedsWork(v)
  {
    hide Inv;
  }

  lemma AcquireMeans(u: Unit, active: bool, actor: Id, seconds: int, now: Time)
    requires Inv(u) && Acquire(u, active, actor, seconds, now).Ok?
    ensures var (v, t) := Acquire(u, active, actor, seconds, now).value;
            Inv(v) && match t
                      case None => v == u && (NeedsWork(u) ==> Parked(u))
                      case Some(target) => target.token < v.nextId && Parked(v)
  {
    AcquireKeepsInv(u, active, actor, seconds, now);
  }

  /**
   * A pass that throws could not lease at all and changed nothing, or it leaves its own lease, a retry time, or a unit
   * that someone else has taken over. If nobody else commits under its lease the row is parked: the next scan after
   * that returns to it.
   */
  lemma {:induction false} ThrownPassMeans(u: Unit, actor: Id, seconds: int, world: World)
    requires Inv(u) && PassOf(u, actor, seconds, world).0.Threw?
    ensures
      var (r, v) := PassOf(u, actor, seconds, world);
      var before := Run(u, world.others(0));
      match r.lease
      case None => v == before && Acquire(before, world.active(0), actor, seconds, world.clock(0)).Err?
      case Some(token) => ParkedOrFenced(v, token) && (Alone(world) ==> Parked(v))
  {
    hide Run, Inv, Acquire, LeasedPass, NeedsWork, Parked, Alone, ParkedOrFenced;
    var before := Run(u, world.others(0));
    var a := Acquire(before, world.active(0), actor, seconds, world.clock(0));
    if a.Ok? { AcquireMeans(before, world.active(0), actor, seconds, world.clock(0)); }
    if a.Ok? && a.value.1.Some? { ThrownLease(a.value.0, actor, a.value.1.value, world); }
  }

  lemma ThrownLease(u: Unit, actor: Id, t: Target, world: World)
    requires Inv(u) && t.token < u.nextId && Parked(u) && LeasedPass(u, actor, t, world).0.Threw?
    ensures
      var (r, v) := LeasedPass(u, actor, t, world);
      r.lease == Some(t.token) && ParkedOrFenced(v, t.token) && (Alone(world) ==> Parked(v))
  {
    var held := Run(u, world.others(1));
    RunIdsNeverReturn(u, world.others(1));
    assert Alone(world) ==> held == u;
    hide Run, Inv, Alone, Apply, Parked, ParkedOrFenced;
    match Extract(t, world)
    case Failed(code) => FailedExtractionParks(held, t, code, world);
    case Extracted(references, summary) =>
      ThrownCompletion(held, actor, t, references, summary, world);
      SameRowParked(u, CompletePass(held, actor, t, references, summary, world).1);
      ThrownNames(held, actor, t, references, summary, world);
      hide CompletePass;
  }

  lemma ThrownNames(held: Unit, actor: Id, t: Target, references: seq<Draft>, summary: Summary, world: World)
    requires Inv(held) && CompletePass(held, actor, t, references, summary, world).0.Threw?
    ensures CompletePass(held, actor, t, references, summary, world).0.lease == Some(t.token)
  {
  }

  lemma SameRowParked(u: Unit, v: Unit)
    ensures u.processing == v.processing ==> Parked(u) == Parked(v)
  {
  }

  /** A failed extraction whose retry commits leaves the retry time; otherwise it leaves the rows as they were. */
  lemma FailedExtractionParks(held: Unit, t: Target, code: string, world: World)
    requires Inv(held) && t.token < held.nextId
    ensures
      var step := RetryOf(t, code, world);
      if Outcome(held, step).Ok? then
        var row := Apply(held, step).processing;
        row.Some? && row.value.retryAt == Some(world.clock(1) + RETRY_DELAY) && Parked(Apply(held, step))
      else Apply(held, step) == held
    ensures ParkedOrFenced(Apply(held, RetryOf(t, code, world)), t.token)
    ensures Parked(held) ==> Parked(Apply(held, RetryOf(t, code, world)))
  {
    hide Inv;
  }

  lemma ThrownCompletion(held: Unit, actor: Id, t: Target, references: seq<Draft>, summary: Summary, world: World)
    requires Inv(held) && t.token < held.nextId && CompletePass(held, actor, t, references, summary, world).0.Threw?
    ensures ParkedOrFenced(CompletePass(held, actor, t, references, summary, world).1, t.token)
    ensures Alone(world) ==> CompletePass(held, actor, t, references, summary, world).1.processing == held.processing
  {
    ReferencesKeepLease(held, actor, t, references, world, |references|);
    var r := AfterReferences(held, actor, t, references, world, |references|);
    if r.Ok? { RunIdsNeverReturn(r.value, world.others(2 + |references|)); }
  }

  // ----- the code -----

  /** One pass: acquire, extract, record each reference, complete; a failed extraction gives the lease back for later. */
  method ProcessNext(store: Store, actor: Id, seconds: int, world: World) returns (r: Pass)
    requires store.Valid()
    modifies store
    ensures store.Valid() && (r, store.Rows()) == PassOf(old(store.Rows()), actor, seconds, world)
  {
    hide Inv, Acquire, Complete, Record, Run;
    Execute(store, world.others(0));
    var acquired := store.Acquire(world.active(0), actor, seconds, world.clock(0));
    if acquired.Err? { return Threw(None); }
    if acquired.value.None? { return Done(false, false); }
    var target := acquired.value.value;
    var extraction := if target.revision.None? then NO_REFERENCES else world.extraction(target.revision.value, target.base);
    Execute(store, world.others(1));
    match extraction {
      case Failed(code) =>
        var _ := store.Retry(target.token, world.clock(1) + RETRY_DELAY, Some(code), true, world.clock(1));
        return Threw(Some(target.token));
      case Extracted(references, summary) =>
        r := RecordAndComplete(store, actor, target, references, summary, world);
    }
  }

  /** Records the references one by one and completes; any rejection ends the pass. */
  method RecordAndComplete(store: Store, actor: Id, target: Target, references: seq<Draft>, summary: Summary, world: World)
    returns (r: Pass)
    requires store.Valid()
    modifies store
    ensures store.Valid() && (r, store.Rows()) == CompletePass(old(store.Rows()), actor, target, references, summary, world)
  {
    hide Inv, Complete, Record, Run;
    ghost var start := store.Rows();
    for i := 0 to |references|
      invariant store.Valid() && AfterReferences(start, actor, target, references, world, i) == Ok(store.Rows())
    {
      Execute(store, world.others(2 + i));
      var recorded := store.Record(world.active(2 + i), target.observationId, actor, target.token, references[i], world.clock(2 + i));
      if recorded.Err? {
        StaysRejected(start, actor, target, references, world, i + 1, |references|);
        return Threw(Some(target.token));
      }
    }
    var last := 2 + |references|;
    Execute(store, world.others(last));
    var completed := store.Complete(world.active(last), target.observationId, actor, target.token, summary,
                                    world.clock(last), world.clock(last + 1));
    if completed.Err? { return Threw(Some(target.token)); }
    return Done(true, completed.value);
  }

  lemma {:induction false} StaysRejected(u: Unit, actor: Id, t: Target, references: seq<Draft>, world: World, m: nat, n: nat)
    requires Inv(u) && m <= n <= |references| && AfterReferences(u, actor, t, references, world, m).Err?
    ensures AfterReferences(u, actor, t, references, world, n) == AfterReferences(u, actor, t, references, world, m)
  {
    if m < n { StaysRejected(u, actor, t, references, world, m, n - 1); }
  }

  /** What the provider says about the ref: its revision, or nothing once it is deleted, and whether it is the default. */
  datatype Sighting = Sighting(revision: Option<string>, isDefaultRef: bool, observedAt: Time)

  /** How the work on one ref ends. */
  datatype Ending = Quiet | Signalled | Thrown(lease: Option<Id>)

  /** The passes over one ref from the `passes`-th on, while follow-up is required. */
  ghost function DriveFrom(u: Unit, actor: Id, worlds: nat -> World, passes: nat): (r: (nat, Ending, Unit))
    requires Inv(u) && passes <= MAXIMUM_PASSES
    ensures Inv(r.2)
    decreases MAXIMUM_PASSES - passes
  {
    if passes == MAXIMUM_PASSES then (passes, Signalled, u)
    else
      var (p, v) := PassOf(u, actor, 300, worlds(passes));
      match p
      case Threw(lease) => (passes, Thrown(lease), v)
      case Done(processed, followUp) =>
        if !processed then (passes, if followUp then Signalled else Quiet, v)
        else if followUp then DriveFrom(v, actor, worlds, passes + 1)
        else (passes + 1, Quiet, v)
  }

  /** Observing a ref, and the passes that follow. */
  ghost function Drive(u: Unit, actor: Id, active: bool, sighting: Option<Sighting>, worlds: nat -> World): (nat, Ending, Unit)
    requires Inv(u)
  {
    if sighting.None? then (0, Thrown(None), u)
    else
      ScheduleKeepsInv(u, active, sighting.value.revision, sighting.value.isDefaultRef, sighting.value.observedAt);
      match Schedule(u, active, sighting.value.revision, sighting.value.isDefaultRef, sighting.value.observedAt)
      case Err(_) => (0, Thrown(None), u)
      case Ok((v, _)) => DriveFrom(v, actor, worlds, 0)
  }

  /**
   * One ref of a signal: observe it, then loop. It ends quietly only when nothing is due or the row is parked;
   * otherwise all ten passes completed and work remained, and a recovery signal is sent, or an error ended it.
   */
  method DriveRef(store: Store, actor: Id, active: bool, sighting: Option<Sighting>, worlds: nat -> World)
    returns (passes: nat, ending: Ending)
    requires store.Valid()
    modifies store
    ensures store.Valid() && passes <= 10
    ensures (passes, ending, store.Rows()) == Drive(old(store.Rows()), actor, active, sighting, worlds)
    ensures sighting.None? || !active ==> ending == Thrown(None) && passes == 0 && store.Rows() == old(store.Rows())
    ensures ending.Quiet? && NeedsWork(store.Rows()) ==> Parked(store.Rows())
    ensures ending.Signalled? ==> passes == 10 && NeedsWork(store.Rows())
    ensures ending.Thrown? && ending.lease.Some? ==>
              ParkedOrFenced(store.Rows(), ending.lease.value) && (Alone(worlds(passes)) ==> Parked(store.Rows()))
  {
    hide Inv, PassOf, Acquire, ParkedOrFenced, Alone, Run;
    passes, ending := 0, Thrown(None);
    if sighting.None? { return; }
    var scheduled := store.Schedule(active, sighting.value.revision, sighting.value.isDefaultRef, sighting.value.observedAt);
    if scheduled.Err? { return; }
    assert active;
    hide Schedule;
    var followUp := true;
    ghost var start := store.Rows();
    while followUp && passes < MAXIMUM_PASSES
      invariant store.Valid() && 0 <= passes <= MAXIMUM_PASSES
      invariant passes > 0 ==> followUp == NeedsWork(store.Rows())
      invariant passes == 0 ==> followUp
      invariant DriveFrom(start, actor, worlds, 0)
             == if followUp then DriveFrom(store.Rows(), actor, worlds, passes) else (passes, Quiet, store.Rows())
      decreases MAXIMUM_PASSES - passes
    {
      ghost var before := store.Rows();
      var result := ProcessNext(store, actor, 300, worlds(passes));
      if result.Threw? {
        ThrownPassMeans(before, actor, 300, worlds(passes));
        return passes, Thrown(result.lease);
      }
      DonePassMeans(before, actor, 300, worlds(passes));
      followUp := result.followUp;
      if !result.processed { break; }
      passes := passes + 1;
    }
    ending := if followUp then Signalled else Quiet;
  }
}
