/** Two runs from the empty system whose last event leaves due work to the next scan. */
module IngestionStranding {
  import opened Prelude
  import opened Ingestion
  import opened IngestionRuns
  import opened IngestionRuntime
  import IngestionTheorems

  /** `t` is reached from the empty system by a run without faults. */
  ghost predicate Reachable(t: System) {
    Inv(INITIAL.unit) && exists events :: IsRun(INITIAL, events) && After(INITIAL, events) == t && Faultless(INITIAL, events)
  }

  lemma InitialReachable()
    ensures Inv(INITIAL.unit) && Reachable(INITIAL)
  {
    IngestionRuns.EmptyInv();
    assert IsRun(INITIAL, []) && After(INITIAL, []) == INITIAL && Faultless(INITIAL, []);
  }

  lemma {:induction false} FaultlessAppend(s: System, events: seq<Event>, e: Event)
    requires Inv(s.unit) && IsRun(s, events) && Faultless(s, events)
    requires Enabled(After(s, events), e) && !Fault(After(s, events), e) && IsRun(s, events + [e])
    ensures Faultless(s, events + [e])
    decreases |events|
  {
    hide Enabled, Fault, Next, Inv;
    if events == [] {
      assert [] + [e] == [e] && [e][1..] == [];
      assert Faultless(Next(s, e), []);
    } else {
      assert (events + [e])[1..] == events[1..] + [e];
      FaultlessAppend(Next(s, events[0]), events[1..], e);
    }
  }

  lemma LeadsOn(t: System, e: Event)
    requires Inv(t.unit) && Reachable(t) && Enabled(t, e) && !Fault(t, e)
    ensures Reachable(Next(t, e))
  {
    hide Enabled, Fault, Next, Inv;
    var events :| IsRun(INITIAL, events) && After(INITIAL, events) == t && Faultless(INITIAL, events);
    RunsAppend(INITIAL, events, e);
    FaultlessAppend(INITIAL, events, e);
  }

  /** A worker at the head of its `n`-th pass, alone, over one newer observation that nobody has leased. */
  ghost predicate Ready(s: System, n: nat) {
    && Inv(s.unit) && s.workers == map[0 := AtHead(n)] && s.signals == 0
    && s.unit.processing.Some? && s.unit.processing.value.followUp
    && s.unit.processing.value.leaseToken.None? && s.unit.processing.value.retryAt.None?
    && Observed(s.unit) in s.unit.observations
    && s.unit.observations[Observed(s.unit)].revision == Some("") && s.unit.observations[Observed(s.unit)].isDefaultRef == (n % 2 == 0)
  }

  function Sighting(w: nat, n: nat): Event { Observe(w, true, true, Some(""), n % 2 == 0, 0) }

  const ACQUIRE_FIRST := AcquireNext(0, true, 0, 300, 0)
  const ACCEPTED := Summary(InitialTree, 0, 0, true)

  function Finish(sent: bool): Event { CompleteNext(0, true, 0, ACCEPTED, 0, 0, sent) }

  lemma FirstPass()
    ensures exists s: System :: Reachable(s) && Ready(s, 0)
  {
    InitialReachable();
    hide Reachable, Inv;
    var s1 := Next(INITIAL, Scan);
    var s2 := Next(s1, Begin(0));
    var s3 := Next(s2, Sighting(0, 0));
    assert s2 == System(EMPTY, map[0 := Listed], 0);
    LeadsOn(INITIAL, Scan);
    LeadsOn(s1, Begin(0));
    FirstObservation(s2);
    hide Next, Enabled, Fault, Ready;
    LeadsOn(s2, Sighting(0, 0));
  }

  lemma FirstObservation(s: System)
    requires Inv(s.unit) && s.unit == EMPTY && s.workers == map[0 := Listed] && s.signals == 0
    ensures Enabled(s, Sighting(0, 0)) && !Fault(s, Sighting(0, 0)) && Ready(Next(s, Sighting(0, 0)), 0)
  {
    assert s.workers[0 := AtHead(0)] == map[0 := AtHead(0)];
    hide Inv;
  }

  /** While the worker holds its lease, a second one is told of a new observation and finds the lease taken. */
  lemma Overtaken(s: System, n: nat)
    requires Ready(s, n)
    ensures Enabled(s, ACQUIRE_FIRST) && !Fault(s, ACQUIRE_FIRST)
    ensures
      var s1 := Next(s, ACQUIRE_FIRST);
      var s2 := Next(s1, Scan);
      var s3 := Next(s2, Begin(1));
      && Enabled(s2, Begin(1)) && Enabled(s3, Sighting(1, n + 1)) && !Fault(s3, Sighting(1, n + 1))
      && s3.workers.Keys == {0, 1} && s3.workers[0].Holding? && s3.workers[0].passes == n && s3.workers[1].Listed?
      && s3.signals == 0 && Granted(s3.unit, s3.workers[0].target, n)
  {
  }

  /** The unit under the first worker's lease on its newest observation. */
  ghost predicate Granted(u: Unit, t: Target, n: nat) {
    && u.processing.Some? && u.processing.value.leaseToken == Some(t.token)
    && u.processing.value.leaseOwner == Some(0) && u.processing.value.leaseTarget == Some(t.sequence)
    && u.processing.value.leaseExpires == Some(300) && u.processing.value.retryAt.None?
    && t.sequence in u.observations && t.observationId == u.observations[t.sequence].id
    && t.sequence == Observed(u)
    && u.observations[t.sequence].revision == Some("") && u.observations[t.sequence].isDefaultRef == (n % 2 == 0)
  }

  ghost predicate Superseded(u: Unit, t: Target, n: nat) {
    && u.processing.Some? && u.processing.value.leaseToken == Some(t.token)
    && u.processing.value.leaseOwner == Some(0) && u.processing.value.leaseTarget == Some(t.sequence)
    && u.processing.value.leaseExpires == Some(300) && u.processing.value.retryAt.None?
    && t.sequence in u.observations && t.observationId == u.observations[t.sequence].id
    && u.observations[t.sequence].revision == Some("")
    && t.sequence < Observed(u) && Observed(u) in u.observations
    && u.observations[Observed(u)].revision == Some("") && u.observations[Observed(u)].isDefaultRef == ((n + 1) % 2 == 0)
  }

  const ACQUIRE_SECOND := AcquireNext(1, true, 0, 300, 0)

  lemma SecondLeaves(s: System, n: nat)
    requires Inv(s.unit) && s.workers.Keys == {0, 1} && s.workers[0].Holding? && s.workers[0].passes == n && s.workers[1].Listed?
    requires s.signals == 0 && Granted(s.unit, s.workers[0].target, n)
    ensures Enabled(s, Sighting(1, n + 1))
    ensures
      var s1 := Next(s, Sighting(1, n + 1));
      var s2 := Next(s1, ACQUIRE_SECOND);
      && Enabled(s1, ACQUIRE_SECOND) && !Fault(s1, ACQUIRE_SECOND)
      && s2.workers == map[0 := s.workers[0]] && s2.signals == 0 && Superseded(s2.unit, s.workers[0].target, n)
  {
    assert (n + 1) % 2 == 0 <==> n % 2 != 0;
    var s1 := Next(s, Sighting(1, n + 1));
    assert s1.workers == s.workers[1 := AtHead(0)];
    assert Superseded(s1.unit, s.workers[0].target, n);
  }

  lemma FirstFinishes(s: System, n: nat, sent: bool)
    requires Inv(s.unit) && s.workers.Keys == {0} && s.workers[0].Holding? && s.workers[0].passes == n && s.signals == 0
    requires Superseded(s.unit, s.workers[0].target, n)
    ensures Enabled(s, Finish(sent))
    ensures n + 1 < MAXIMUM_PASSES ==> Ready(Next(s, Finish(sent)), n + 1)
    ensures n + 1 >= MAXIMUM_PASSES && !sent ==> Strands(s, Finish(sent))
  {
    var t := s.workers[0].target;
    IngestionTheorems.CompletesExactlyWhen(s.unit, true, t.sequence, 0, t.token, ACCEPTED, 0, 0);
    var r := Completion(s, Finish(sent));
    assert r.Ok? && r.value.1;
    assert r.value.0.observations == s.unit.observations && r.value.0.observed == s.unit.observed;
    assert Without(s.workers, 0) == map[];
    hide Inv, Completion, Complete;
  }


  /** The first worker is under its lease in pass `n`, alone again, and a newer observation waits. */
  ghost predicate Waiting(s: System, n: nat) {
    && Inv(s.unit) && s.workers.Keys == {0} && s.workers[0].Holding? && s.workers[0].passes == n && s.signals == 0
    && Superseded(s.unit, s.workers[0].target, n)
  }

  lemma PassWaits(s: System, n: nat)
    requires Reachable(s) && Ready(s, n)
    ensures exists t: System :: Reachable(t) && Waiting(t, n)
  {
    hide Reachable, Inv, Granted, Superseded;
    var s1 := Next(s, ACQUIRE_FIRST);
    var s2 := Next(s1, Scan);
    var s3 := Next(s2, Begin(1));
    Overtaken(s, n);
    hide Ready, Next, Fault, Enabled;
    LeadsOn(s, ACQUIRE_FIRST);
    QuietSteps(s1);
    LeadsOn(s1, Scan);
    LeadsOn(s2, Begin(1));
    var s4 := Next(s3, Sighting(1, n + 1));
    var s5 := Next(s4, ACQUIRE_SECOND);
    SecondLeaves(s3, n);
    LeadsOn(s3, Sighting(1, n + 1));
    LeadsOn(s4, ACQUIRE_SECOND);
    assert s5.workers.Keys == {0};
    assert Waiting(s5, n);
  }

  lemma QuietSteps(s: System)
    requires Inv(s.unit)
    ensures Enabled(s, Scan) && !Fault(s, Scan)
    ensures forall t: System | Inv(t.unit) && Enabled(t, Begin(1)) :: !Fault(t, Begin(1))
  {
  }

  lemma {:induction false} PassAfterPass(n: nat)
    requires n < MAXIMUM_PASSES
    ensures exists s: System :: Reachable(s) && Ready(s, n)
  {
    if n == 0 {
      FirstPass();
    } else {
      PassAfterPass(n - 1);
      hide Reachable, Ready, Waiting, Inv;
      var s: System :| Reachable(s) && Ready(s, n - 1);
      PassWaits(s, n - 1);
      var t: System :| Reachable(t) && Waiting(t, n - 1);
      WaitingInv(t, n - 1);
      FirstFinishes(t, n - 1, true);
      FinishIsQuiet(t);
      hide Next, Enabled, Fault;
      LeadsOn(t, Finish(true));
    }
  }

  lemma WaitingInv(s: System, n: nat)
    requires Waiting(s, n)
    ensures Inv(s.unit) && s.workers.Keys == {0} && s.workers[0].Holding? && s.workers[0].passes == n && s.signals == 0
    ensures Superseded(s.unit, s.workers[0].target, n)
  {
    hide Inv, Superseded;
  }

  lemma FinishIsQuiet(s: System)
    requires Inv(s.unit) && Enabled(s, Finish(true))
    ensures !Fault(s, Finish(true))
  {
  }

  /**
   * The tenth completion of a worker that was overtaken in each of its passes: when the queue drops its signal, as it
   * does to a second one within the minute, the newest observation waits for the next scan.
   */
  lemma DroppedSignalStrandsWork()
    ensures exists s: System :: Reachable(s) && Inv(s.unit) && Enabled(s, Finish(false)) && Uncovered(Next(s, Finish(false)))
  {
    PassAfterPass(MAXIMUM_PASSES - 1);
    hide Reachable, Ready, Waiting, Inv;
    var s: System :| Reachable(s) && Ready(s, MAXIMUM_PASSES - 1);
    PassWaits(s, MAXIMUM_PASSES - 1);
    var t: System :| Reachable(t) && Waiting(t, MAXIMUM_PASSES - 1);
    WaitingInv(t, MAXIMUM_PASSES - 1);
    FirstFinishes(t, MAXIMUM_PASSES - 1, false);
    EventStrandsExactlyWhen(t, Finish(false));
    hide Next, Enabled, Uncovered, Strands;
  }

  /** A crash between observing a ref and the first acquisition: the observation waits for the next scan. */
  lemma CrashBeforeAcquisitionStrandsWork()
    ensures exists s: System :: Reachable(s) && Inv(s.unit) && Enabled(s, Crash(0)) && Uncovered(Next(s, Crash(0)))
  {
    FirstPass();
    var s: System :| Reachable(s) && Ready(s, 0);
    hide Reachable, Inv;
    assert Without(s.workers, 0) == map[];
    assert Strands(s, Crash(0));
    EventStrandsExactlyWhen(s, Crash(0));
  }
}
