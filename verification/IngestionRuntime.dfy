/** The worker loop over one ref, and exactly when a crash or a dropped signal leaves work until the next scan. */
module IngestionRuntime {
  import opened Prelude
  import opened Ingestion
  import opened IngestionRuns
  import IngestionTheorems
  import PU = ProcessingUnits

  const MAXIMUM_PASSES := 10

  /** Where a worker stands: told about the ref, at the head of its loop, or working under a lease. */
  datatype Pc = Listed | AtHead(passes: nat) | Holding(passes: nat, target: Target)

  /** The unit, the workers busy with it, and the number of queued signals that would list its ref. */
  datatype System = System(unit: Unit, workers: map<nat, Pc>, signals: nat)

  const INITIAL := System(EMPTY, map[], 0)

  /**
   * `Scan` is any job that lists the ref: the one sent every five minutes, the one sent at start-up, a webhook, or a
   * job that threw and is delivered again. `SignalMissesRef` is a job that fails before it comes to the ref.
   */
  datatype Event =
    | Scan
    | Begin(w: nat)
    | SignalMissesRef
    | Observe(w: nat, reached: bool, active: bool, revision: Option<string>, isDefaultRef: bool, observedAt: Time)
    | AcquireNext(w: nat, active: bool, actor: Id, seconds: int, now: Time)
    | RecordOne(w: nat, active: bool, actor: Id, draft: Draft, now: Time)
    | CompleteNext(w: nat, active: bool, actor: Id, summary: Summary, now: Time, later: Time, sent: bool)
    | ExtractionFails(w: nat, retryAt: Time, failure: Option<string>, now: Time)
    | Crash(w: nat)

  function Without(workers: map<nat, Pc>, w: nat): map<nat, Pc> { workers - {w} }

  ghost predicate Enabled(s: System, e: Event) {
    match e
    case Scan => true
    case Begin(w) => w !in s.workers && s.signals > 0
    case SignalMissesRef => s.signals > 0
    case Observe(w, _, _, _, _, _) => w in s.workers && s.workers[w].Listed?
    case AcquireNext(w, _, _, _, _) => w in s.workers && s.workers[w].AtHead?
    case RecordOne(w, _, _, _, _) => w in s.workers && s.workers[w].Holding?
    case CompleteNext(w, _, _, _, _, _, _) => w in s.workers && s.workers[w].Holding?
    case ExtractionFails(w, _, _, _) => w in s.workers && s.workers[w].Holding?
    case Crash(w) => w in s.workers
  }

  /** The completion that a worker attempts, and whether it leaves the worker with nothing but a signal to send. */
  ghost function Completion(s: System, e: Event): Result<(Unit, bool), Error>
    requires Inv(s.unit) && e.CompleteNext? && Enabled(s, e)
  {
    var t := s.workers[e.w].target;
    Complete(s.unit, e.active, t.observationId, e.actor, t.token, e.summary, e.now, e.later)
  }

  ghost predicate HandsOver(s: System, e: Event)
    requires Inv(s.unit) && e.CompleteNext? && Enabled(s, e)
  {
    Completion(s, e).Ok? && Completion(s, e).value.1 && s.workers[e.w].passes + 1 >= MAXIMUM_PASSES
  }

  /** One transition. An error thrown at any point ends the worker's job; only the extraction failure retries the lease. */
  ghost function Next(s: System, e: Event): (r: System)
    requires Inv(s.unit) && Enabled(s, e)
    ensures Inv(r.unit)
  {
    match e
    case Scan => s.(signals := s.signals + 1)
    case Begin(w) => s.(workers := s.workers[w := Listed], signals := s.signals - 1)
    case SignalMissesRef => s.(signals := s.signals - 1)
    case Observe(w, reached, active, revision, isDefaultRef, observedAt) =>
      ScheduleKeepsInv(s.unit, active, revision, isDefaultRef, observedAt);
      var r := Schedule(s.unit, active, revision, isDefaultRef, observedAt);
      if reached && r.Ok? then s.(unit := r.value.0, workers := s.workers[w := AtHead(0)])
      else s.(workers := Without(s.workers, w))
    case AcquireNext(w, active, actor, seconds, now) =>
      AcquireKeepsInv(s.unit, active, actor, seconds, now);
      (match Acquire(s.unit, active, actor, seconds, now)
       case Err(_) => s.(workers := Without(s.workers, w))
       case Ok((u, None)) => s.(workers := Without(s.workers, w))
       case Ok((u, Some(t))) => s.(unit := u, workers := s.workers[w := Holding(s.workers[w].passes, t)]))
    case RecordOne(w, active, actor, draft, now) =>
      var t := s.workers[w].target;
      RecordKeepsInv(s.unit, active, t.observationId, actor, t.token, draft, now);
      (match Record(s.unit, active, t.observationId, actor, t.token, draft, now)
       case Err(_) => s.(workers := Without(s.workers, w))
       case Ok((u, _)) => s.(unit := u))
    case CompleteNext(w, active, actor, summary, now, later, sent) =>
      var t := s.workers[w].target;
      CompleteKeepsInv(s.unit, active, t.observationId, actor, t.token, summary, now, later);
      (match Completion(s, e)
       case Err(_) => s.(workers := Without(s.workers, w))
       case Ok((u, followUp)) =>
         if HandsOver(s, e) then s.(unit := u, workers := Without(s.workers, w), signals := s.signals + if sent then 1 else 0)
         else if followUp then s.(unit := u, workers := s.workers[w := AtHead(s.workers[w].passes + 1)])
         else s.(unit := u, workers := Without(s.workers, w)))
    case ExtractionFails(w, retryAt, failure, now) =>
      var step := DoRetry(s.workers[w].target.token, retryAt, failure, true, now);
      s.(unit := Apply(s.unit, step), workers := Without(s.workers, w))
    case Crash(w) => s.(workers := Without(s.workers, w))
  }

  /** A run: every event is enabled when it happens. */
  ghost predicate IsRun(s: System, events: seq<Event>)
    requires Inv(s.unit)
    decreases |events|
  {
    events == [] || (Enabled(s, events[0]) && IsRun(Next(s, events[0]), events[1..]))
  }

  ghost function After(s: System, events: seq<Event>): (r: System)
    requires Inv(s.unit) && IsRun(s, events)
    ensures Inv(r.unit)
    decreases |events|
  {
    if events == [] then s else After(Next(s, events[0]), events[1..])
  }

  lemma {:induction false} RunsConcatenate(s: System, a: seq<Event>, b: seq<Event>)
    requires Inv(s.unit) && IsRun(s, a) && IsRun(After(s, a), b)
    ensures IsRun(s, a + b) && After(s, a + b) == After(After(s, a), b)
    decreases |a|
  {
    hide Enabled, Next, Inv;
    if a == [] {
      assert a + b == b;
    } else {
      assert (a + b)[1..] == a[1..] + b;
      RunsConcatenate(Next(s, a[0]), a[1..], b);
    }
  }

  lemma RunsAppend(s: System, events: seq<Event>, e: Event)
    requires Inv(s.unit) && IsRun(s, events) && Enabled(After(s, events), e)
    ensures IsRun(s, events + [e]) && After(s, events + [e]) == Next(After(s, events), e)
  {
    hide Enabled, Next, Inv;
    var t := After(s, events);
    assert [e][1..] == [] && IsRun(Next(t, e), []) && After(Next(t, e), []) == Next(t, e);
    RunsConcatenate(s, events, [e]);
  }

  /** Every event is one transaction on the unit, or none: the workers' runs are runs of the ingestion protocol. */
  lemma EventIsTransaction(s: System, e: Event)
    requires Inv(s.unit) && Enabled(s, e)
    ensures Next(s, e).unit == s.unit || exists step :: Next(s, e).unit == IngestionRuns.Apply(s.unit, step)
  {
    hide Inv, Schedule, Acquire, Record, Complete, Retry;
    var step :=
      match e
      case Observe(_, _, active, revision, isDefaultRef, observedAt) => DoSchedule(active, revision, isDefaultRef, observedAt)
      case AcquireNext(_, active, actor, seconds, now) => DoAcquire(active, actor, seconds, now)
      case RecordOne(w, active, actor, draft, now) =>
        DoRecord(active, s.workers[w].target.observationId, actor, s.workers[w].target.token, draft, now)
      case CompleteNext(w, active, actor, summary, now, later, _) =>
        DoComplete(active, s.workers[w].target.observationId, actor, s.workers[w].target.token, summary, now, later)
      case ExtractionFails(w, retryAt, failure, now) => DoRetry(s.workers[w].target.token, retryAt, failure, true, now)
      case _ => DoRetry(0, 0, None, true, 0);
    assert Next(s, e).unit == s.unit || Next(s, e).unit == IngestionRuns.Apply(s.unit, step);
  }

  // ----- when due work is left to the next scan -----

  predicate NeedsWork(u: Unit) {
    u.processing.Some? && u.processing.value.desired > u.processing.value.processed
  }

  /** The row itself says what comes next, once a scan looks at it: a lease runs out, or a retry falls due. */
  predicate Parked(u: Unit) {
    u.processing.Some? && (u.processing.value.leaseToken.Some? || u.processing.value.retryAt.Some?)
  }

  /** Due work that nobody has been told of. */
  predicate Stranded(u: Unit) { NeedsWork(u) && !Parked(u) }

  /** Every worker is under a lease, so none will look at the head of its loop again unless it completes. */
  predicate AllHolding(workers: map<nat, Pc>) {
    forall w | w in workers :: workers[w].Holding?
  }

  /** Work is due, nothing is parked, no signal is queued, and no worker is on its way to an acquisition. */
  ghost predicate Uncovered(s: System) {
    Stranded(s.unit) && s.signals == 0 && AllHolding(s.workers)
  }

  /**
   * The faults, each before an acquisition or after the tenth completion, and for each the state in which it leaves work
   * uncovered: the work is due and unparked, and no other signal or worker outside a lease is left.
   */
  ghost predicate Strands(s: System, e: Event)
    requires Inv(s.unit) && Enabled(s, e)
  {
    match e
    case SignalMissesRef => Stranded(s.unit) && s.signals == 1 && AllHolding(s.workers)
    case Observe(w, reached, active, _, _, _) =>
      (!reached || !active) && Stranded(s.unit) && s.signals == 0 && AllHolding(Without(s.workers, w))
    case AcquireNext(w, active, actor, seconds, now) =>
      Acquire(s.unit, active, actor, seconds, now).Err? && Stranded(s.unit) && s.signals == 0 && AllHolding(Without(s.workers, w))
    case CompleteNext(w, _, _, _, _, _, sent) => HandsOver(s, e) && !sent && s.signals == 0 && AllHolding(Without(s.workers, w))
    case Crash(w) => !s.workers[w].Holding? && Stranded(s.unit) && s.signals == 0 && AllHolding(Without(s.workers, w))
    case _ => false
  }

  lemma SomeoneStays(workers: map<nat, Pc>, w: nat)
    requires w in workers
    ensures AllHolding(workers) <==> workers[w].Holding? && AllHolding(Without(workers, w))
  {
    assert forall v | v in Without(workers, w) :: workers[v] == Without(workers, w)[v];
  }

  lemma SomeoneMoves(workers: map<nat, Pc>, w: nat, pc: Pc)
    requires w in workers
    ensures AllHolding(workers[w := pc]) <==> pc.Holding? && AllHolding(Without(workers, w))
  {
    var after := workers[w := pc];
    assert Without(after, w) == Without(workers, w);
    SomeoneStays(after, w);
  }

  lemma AcquireStrands(s: System, e: Event)
    requires Inv(s.unit) && e.AcquireNext? && Enabled(s, e)
    ensures Uncovered(Next(s, e)) <==> Strands(s, e)
  {
    SomeoneStays(s.workers, e.w);
    var r := Acquire(s.unit, e.active, e.actor, e.seconds, e.now);
    if r.Ok? && r.value.1.Some? { SomeoneMoves(s.workers, e.w, Holding(s.workers[e.w].passes, r.value.1.value)); }
    hide AllHolding;
    if r.Ok? && r.value.1.None? {
      assert NeedsWork(s.unit) ==> Parked(s.unit);
    }
  }

  lemma CompleteStrands(s: System, e: Event)
    requires Inv(s.unit) && e.CompleteNext? && Enabled(s, e)
    ensures Uncovered(Next(s, e)) <==> Uncovered(s) || Strands(s, e)
  {
    SomeoneStays(s.workers, e.w);
    hide AllHolding;
    var r := Completion(s, e);
    SomeoneMoves(s.workers, e.w, AtHead(s.workers[e.w].passes + 1));
    if r.Ok? {
      assert Parked(s.unit) && !Parked(r.value.0) && (NeedsWork(r.value.0) <==> r.value.1);
    }
    hide Complete, Completion;
  }

  lemma ObserveStrands(s: System, e: Event)
    requires Inv(s.unit) && e.Observe? && Enabled(s, e)
    ensures Uncovered(Next(s, e)) <==> Strands(s, e)
  {
    SomeoneStays(s.workers, e.w);
    SomeoneMoves(s.workers, e.w, AtHead(0));
    hide AllHolding;
    assert Schedule(s.unit, e.active, e.revision, e.isDefaultRef, e.observedAt).Ok? <==> e.active;
    hide Schedule;
  }

  lemma HolderStrands(s: System, e: Event)
    requires Inv(s.unit) && (e.RecordOne? || e.ExtractionFails?) && Enabled(s, e)
    ensures Uncovered(Next(s, e)) <==> Uncovered(s)
  {
    SomeoneStays(s.workers, e.w);
    hide AllHolding;
    var t := s.workers[e.w].target;
    if e.ExtractionFails? {
      var r := Retry(s.unit, t.token, e.retryAt, e.failure, true, e.now);
      assert r.Ok? ==> Parked(s.unit) && Parked(r.value);
    } else {
      var r := Record(s.unit, e.active, t.observationId, e.actor, t.token, e.draft, e.now);
      assert r.Ok? ==> r.value.0.processing == s.unit.processing;
    }
    hide Retry, Record;
  }

  /** One event: work is uncovered afterwards exactly when it was and no scan came, or when the event strands it. */
  lemma EventStrandsExactlyWhen(s: System, e: Event)
    requires Inv(s.unit) && Enabled(s, e)
    ensures Uncovered(Next(s, e)) <==> (Uncovered(s) && !e.Scan?) || Strands(s, e)
  {
    if e.AcquireNext? || e.Observe? { SomeoneStays(s.workers, e.w); }
    match e
    case AcquireNext(_, _, _, _, _) => AcquireStrands(s, e);
    case CompleteNext(_, _, _, _, _, _, _) => CompleteStrands(s, e);
    case Observe(_, _, _, _, _, _) => ObserveStrands(s, e);
    case RecordOne(_, _, _, _, _) => HolderStrands(s, e);
    case ExtractionFails(_, _, _, _) => HolderStrands(s, e);
    case Crash(w) => SomeoneStays(s.workers, w);
    case Begin(w) => assert Next(s, e).workers[w] == Listed;
    case _ =>
  }

  predicate NoScan(events: seq<Event>) {
    forall i :: 0 <= i < |events| ==> !events[i].Scan?
  }

  /** Some event strands the work, and no scan comes after it. */
  ghost predicate EndsStranded(s: System, events: seq<Event>)
    requires Inv(s.unit) && IsRun(s, events)
    decreases |events|
  {
    events != []
    && ((Strands(s, events[0]) && NoScan(events[1..])) || EndsStranded(Next(s, events[0]), events[1..]))
  }

  /**
   * Over any interleaving of workers, expiries, failures, crashes and signals: due work is uncovered exactly when it was
   * from the start and no scan came, or when one of the faults stranded it and no scan has come since.
   */
  lemma {:induction false} WakeupsAreNeverLost(s: System, events: seq<Event>)
    requires Inv(s.unit) && IsRun(s, events)
    ensures Uncovered(After(s, events)) <==> (Uncovered(s) && NoScan(events)) || EndsStranded(s, events)
    decreases |events|
  {
    hide Inv, Uncovered, Strands, Next, Enabled;
    if events != [] {
      EventStrandsExactlyWhen(s, events[0]);
      WakeupsAreNeverLost(Next(s, events[0]), events[1..]);
      assert NoScan(events) <==> !events[0].Scan? && NoScan(events[1..]) by { NoScanSplits(events); }
    }
  }

  lemma NoScanSplits(events: seq<Event>)
    requires events != []
    ensures NoScan(events) <==> !events[0].Scan? && NoScan(events[1..])
  {
    assert events == [events[0]] + events[1..];
  }

  /** The events that can strand work, wherever they happen. */
  ghost predicate Fault(s: System, e: Event)
    requires Inv(s.unit) && Enabled(s, e)
  {
    match e
    case SignalMissesRef => true
    case Observe(_, reached, active, _, _, _) => !reached || !active
    case AcquireNext(_, active, actor, seconds, now) => Acquire(s.unit, active, actor, seconds, now).Err?
    case CompleteNext(_, _, _, _, _, _, sent) => !sent
    case Crash(w) => !s.workers[w].Holding?
    case _ => false
  }

  ghost predicate Faultless(s: System, events: seq<Event>)
    requires Inv(s.unit) && IsRun(s, events)
    decreases |events|
  {
    events == [] || (!Fault(s, events[0]) && Faultless(Next(s, events[0]), events[1..]))
  }

  /** Without those faults the guarantee is unconditional: leases, expiries, throws under a lease and retries are all safe. */
  lemma {:induction false} FaultlessRunsCoverWork(s: System, events: seq<Event>)
    requires Inv(s.unit) && !Uncovered(s) && IsRun(s, events) && Faultless(s, events)
    ensures !Uncovered(After(s, events))
    decreases |events|
  {
    hide Inv, Uncovered, Next, Enabled;
    if events != [] {
      EventStrandsExactlyWhen(s, events[0]);
      FaultlessRunsCoverWork(Next(s, events[0]), events[1..]);
    }
  }

  // ----- the next scan -----

  /** The lease and the retry time of the unit have run out. */
  predicate Lapsed(u: Unit, now: Time) {
    u.processing.Some? ==>
      (u.processing.value.retryAt.Some? ==> u.processing.value.retryAt.value <= now) && !PU.LeaseLive(u.processing.value, now)
  }

  /**
   * Whatever happened before, parked rows included, the first scan after the lease and the retry time have run out
   * drains the ref in one pass, if the provider answers and nobody interferes.
   */
  lemma ScanDrains(s: System, w: nat, actor: Id, sighting: Event, now: Time, summary: Summary, sent: bool)
    requires Inv(s.unit) && w !in s.workers && Lapsed(s.unit, now)
    requires sighting.Observe? && sighting.w == w && sighting.reached && sighting.active
    requires SummaryAccepted(summary) && (summary.mode.DeletedRef? <==> sighting.revision.None?)
    ensures
      var acquire := AcquireNext(w, true, actor, 300, now);
      var complete := CompleteNext(w, true, actor, summary, now, now, sent);
      var s3 := Next(Next(Next(s, Scan), Begin(w)), sighting);
      && Enabled(s3, acquire)
      && (NeedsWork(s3.unit) ==> Enabled(Next(s3, acquire), complete) && !NeedsWork(Next(Next(s3, acquire), complete).unit))
  {
    var s3 := Next(Next(Next(s, Scan), Begin(w)), sighting);
    ObservedLast(s.unit, sighting, now);
    if NeedsWork(s3.unit) {
      IngestionTheorems.OnePassDrains(s3.unit, actor, 300, now, now, now, summary);
      hide Inv, Schedule;
    }
  }

  lemma ObservedLast(u: Unit, sighting: Event, now: Time)
    requires Inv(u) && sighting.Observe? && sighting.active && Lapsed(u, now)
    ensures
      var r := Schedule(u, true, sighting.revision, sighting.isDefaultRef, sighting.observedAt);
      && r.Ok? && Lapsed(r.value.0, now) && Observed(r.value.0) in r.value.0.observations
      && r.value.0.observations[Observed(r.value.0)].revision == sighting.revision
  {
  }

}
