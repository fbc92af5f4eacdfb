/** The worker's code and the worker of the concurrent system are the same: an undisturbed pass is a run of its events. */
module IngestionPasses {
  import opened Prelude
  import opened Ingestion
  import opened IngestionRuns
  import opened IngestionRuntime
  import opened IngestionWorker

  ghost predicate LeadsTo(s: System, t: System)
    requires Inv(s.unit)
  {
    exists events :: IsRun(s, events) && After(s, events) == t
  }

  lemma Stays(s: System)
    requires Inv(s.unit)
    ensures LeadsTo(s, s)
  {
    assert IsRun(s, []) && After(s, []) == s;
  }

  lemma LeadsOn(s: System, t: System, e: Event)
    requires Inv(s.unit) && Inv(t.unit) && LeadsTo(s, t) && Enabled(t, e)
    ensures LeadsTo(s, Next(t, e))
  {
    hide Enabled, Next, Inv;
    var events :| IsRun(s, events) && After(s, events) == t;
    RunsAppend(s, events, e);
  }

  /** Nobody else commits anything during the pass. */
  ghost predicate Undisturbed(world: World) {
    forall i: nat :: world.others(i) == []
  }

  lemma RecordIsEvent(s: System, w: nat, actor: Id, draft: Draft, active: bool, now: Time)
    requires Inv(s.unit) && w in s.workers && s.workers[w].Holding?
    ensures
      var t := s.workers[w].target;
      var r := Record(s.unit, active, t.observationId, actor, t.token, draft, now);
      var e := RecordOne(w, active, actor, draft, now);
      Enabled(s, e) && Next(s, e) == if r.Ok? then s.(unit := r.value.0) else s.(workers := Without(s.workers, w))
  {
    hide Inv, Record;
  }

  /** Where the system stands after `r` of `AfterReferences`. */
  ghost function Recorded(s: System, w: nat, r: Result<Unit, Unit>): System {
    match r
    case Ok(v) => s.(unit := v)
    case Err(v) => s.(unit := v, workers := Without(s.workers, w))
  }

  lemma {:induction false} ReferencesAreEvents(s: System, w: nat, actor: Id, references: seq<Draft>, world: World, n: nat)
    requires Inv(s.unit) && w in s.workers && s.workers[w].Holding? && Undisturbed(world) && n <= |references|
    ensures LeadsTo(s, Recorded(s, w, AfterReferences(s.unit, actor, s.workers[w].target, references, world, n)))
  {
    hide Inv, Record, LeadsTo, Next;
    if n == 0 {
      Stays(s);
      assert Recorded(s, w, Ok(s.unit)) == s;
    } else {
      ReferencesAreEvents(s, w, actor, references, world, n - 1);
      var r := AfterReferences(s.unit, actor, s.workers[w].target, references, world, n - 1);
      if r.Ok? {
        var i, t := n + 1, s.(unit := r.value);
        assert world.others(i) == [] && Run(r.value, []) == r.value;
        RecordIsEvent(t, w, actor, references[n - 1], world.active(i), world.clock(i));
        LeadsOn(s, t, RecordOne(w, world.active(i), actor, references[n - 1], world.clock(i)));
      }
    }
  }

  /** Where the system stands after a pass of worker `w`: at its loop head again, or gone, having signalled after the tenth. */
  ghost function Passed(s: System, w: nat, passes: nat, r: (Pass, Unit)): System {
    if r.0 == Done(true, true) then
      if passes + 1 < MAXIMUM_PASSES then s.(unit := r.1, workers := s.workers[w := AtHead(passes + 1)])
      else s.(unit := r.1, workers := Without(s.workers, w), signals := s.signals + 1)
    else s.(unit := r.1, workers := Without(s.workers, w))
  }

  lemma CompleteIsEvent(s: System, w: nat, actor: Id, summary: Summary, active: bool, now: Time, later: Time)
    requires Inv(s.unit) && w in s.workers && s.workers[w].Holding?
    ensures
      var t := s.workers[w].target;
      var r := Complete(s.unit, active, t.observationId, actor, t.token, summary, now, later);
      var e := CompleteNext(w, active, actor, summary, now, later, true);
      Enabled(s, e) && Next(s, e) == Passed(s, w, s.workers[w].passes, if r.Ok? then (Done(true, r.value.1), r.value.0) else (Threw(None), s.unit))
  {
    hide Inv, Complete;
  }

  lemma CompletionIsEvents(s: System, w: nat, actor: Id, references: seq<Draft>, summary: Summary, world: World)
    requires Inv(s.unit) && w in s.workers && s.workers[w].Holding? && Undisturbed(world)
    ensures LeadsTo(s, Passed(s, w, s.workers[w].passes, CompletePass(s.unit, actor, s.workers[w].target, references, summary, world)))
  {
    hide Inv, Complete, LeadsTo, Next, AfterReferences;
    ReferencesAreEvents(s, w, actor, references, world, |references|);
    var r := AfterReferences(s.unit, actor, s.workers[w].target, references, world, |references|);
    if r.Ok? {
      var last, t := 2 + |references|, s.(unit := r.value);
      assert world.others(last) == [] && Run(r.value, []) == r.value;
      CompleteIsEvent(t, w, actor, summary, world.active(last), world.clock(last), world.clock(last + 1));
      LeadsOn(s, t, CompleteNext(w, world.active(last), actor, summary, world.clock(last), world.clock(last + 1), true));
    }
  }

  lemma AcquireIsEvent(s: System, w: nat, actor: Id, seconds: int, active: bool, now: Time)
    requires Inv(s.unit) && w in s.workers && s.workers[w].AtHead?
    ensures
      var a := Acquire(s.unit, active, actor, seconds, now);
      var e := AcquireNext(w, active, actor, seconds, now);
      && Enabled(s, e)
      && Next(s, e) == match a
                       case Ok((v, Some(t))) => s.(unit := v, workers := s.workers[w := Holding(s.workers[w].passes, t)])
                       case _ => s.(workers := Without(s.workers, w))
  {
    hide Inv, Acquire;
  }

  /** A pass of the worker's code over an undisturbed store is a run of the system's events by that worker. */
  lemma PassIsEvents(s: System, w: nat, actor: Id, seconds: int, world: World)
    requires Inv(s.unit) && w in s.workers && s.workers[w].AtHead? && Undisturbed(world)
    ensures LeadsTo(s, Passed(s, w, s.workers[w].passes, PassOf(s.unit, actor, seconds, world)))
  {
    hide Inv, Acquire, LeadsTo, Next, LeasedPass, Undisturbed;
    assert world.others(0) == [] && Run(s.unit, []) == s.unit by { UndisturbedStays(s.unit, world, 0); }
    var e := AcquireNext(w, world.active(0), actor, seconds, world.clock(0));
    AcquireIsEvent(s, w, actor, seconds, world.active(0), world.clock(0));
    Stays(s);
    LeadsOn(s, s, e);
    var a := Acquire(s.unit, world.active(0), actor, seconds, world.clock(0));
    if a.Ok? { AcquireMeans(s.unit, world.active(0), actor, seconds, world.clock(0)); }
    if a.Ok? && a.value.1.Some? { LeaseIsEvents(s, w, a.value.0, a.value.1.value, actor, world); }
  }

  lemma UndisturbedStays(u: Unit, world: World, i: nat)
    requires Inv(u) && Undisturbed(world)
    ensures world.others(i) == [] && Run(u, world.others(i)) == u
  {
  }

  lemma LeaseIsEvents(s: System, w: nat, v: Unit, t: Target, actor: Id, world: World)
    requires Inv(s.unit) && Inv(v) && w in s.workers && s.workers[w].AtHead? && Undisturbed(world)
    requires LeadsTo(s, s.(unit := v, workers := s.workers[w := Holding(s.workers[w].passes, t)]))
    ensures LeadsTo(s, Passed(s, w, s.workers[w].passes, LeasedPass(v, actor, t, world)))
  {
    hide Inv, LeadsTo, Next, CompletePass, Undisturbed;
    UndisturbedStays(v, world, 1);
    var held := s.(unit := v, workers := s.workers[w := Holding(s.workers[w].passes, t)]);
    assert Without(held.workers, w) == Without(s.workers, w);
    assert held.workers[w := AtHead(s.workers[w].passes + 1)] == s.workers[w := AtHead(s.workers[w].passes + 1)];
    match Extract(t, world)
    case Failed(code) =>
      var e := ExtractionFails(w, world.clock(1) + RETRY_DELAY, Some(code), world.clock(1));
      RetryIsEvent(held, w, t, code, world);
      LeadsOn(s, held, e);
    case Extracted(references, summary) =>
      CompletionIsEvents(held, w, actor, references, summary, world);
      LeadsAcross(s, held, Passed(held, w, s.workers[w].passes, CompletePass(v, actor, t, references, summary, world)));
  }

  lemma RetryIsEvent(s: System, w: nat, t: Target, code: string, world: World)
    requires Inv(s.unit) && w in s.workers && s.workers[w].Holding? && s.workers[w].target == t
    ensures var e := ExtractionFails(w, world.clock(1) + RETRY_DELAY, Some(code), world.clock(1));
            Enabled(s, e) && Next(s, e) == s.(unit := Apply(s.unit, RetryOf(t, code, world)), workers := Without(s.workers, w))
  {
    hide Inv, Apply;
  }

  lemma LeadsAcross(s: System, t: System, u: System)
    requires Inv(s.unit) && Inv(t.unit) && LeadsTo(s, t) && LeadsTo(t, u)
    ensures LeadsTo(s, u)
  {
    hide Enabled, Next, Inv;
    var a :| IsRun(s, a) && After(s, a) == t;
    var b :| IsRun(t, b) && After(t, b) == u;
    RunsConcatenate(s, a, b);
  }
}
