/**
 * The working stamp of a commit. It is a time, not a counter: the newest write of an identity's items. Which writes
 * move it, which runs it protects, and two runs that it does not.
 */
module WorkingStamp {
  import opened Prelude
  import AH = AuthorityHistory
  import CR = ContextRecords
  import CS = ContextRuns
  import opened Reconciliation
  import opened ReconciliationTheorems

  /** Some item of the identity other than item `i` was last written at `t`. */
  predicate CarriedElsewhere(items: seq<Item>, i: nat, identity: Id, t: Time) {
    exists j :: 0 <= j < |items| && j != i && items[j].identity == identity && items[j].at == t
  }

  lemma HasItemOfPrefix(items: seq<Item>, item: Item, identity: Id)
    ensures HasItem(items + [item], identity) <==> HasItem(items, identity) || item.identity == identity
  {
    var all := items + [item];
    if HasItem(items, identity) {
      var j :| 0 <= j < |items| && items[j].identity == identity;
      assert all[j] == items[j];
    }
    if item.identity == identity { assert all[|items|] == item; }
    if HasItem(all, identity) && item.identity != identity {
      var j :| 0 <= j < |all| && all[j].identity == identity;
      assert items[j] == all[j];
    }
  }

  /** The stamp is the time of some item of the identity, and none is later; without items it is zero. */
  lemma {:induction false} WorkingMeans(items: seq<Item>, identity: Id)
    ensures HasItem(items, identity) ==> CarriedElsewhere(items, |items|, identity, WorkingVersion(items, identity))
    ensures forall j :: 0 <= j < |items| && items[j].identity == identity ==> items[j].at <= WorkingVersion(items, identity)
    ensures !HasItem(items, identity) ==> WorkingVersion(items, identity) == 0
  {
    if items != [] {
      var n := |items| - 1;
      var rest := items[..n];
      WorkingMeans(rest, identity);
      assert items == rest + [items[n]];
      HasItemOfPrefix(rest, items[n], identity);
      if HasItem(rest, identity) {
        var t := WorkingVersion(rest, identity);
        var j :| 0 <= j < |rest| && rest[j].identity == identity && rest[j].at == t;
        assert items[j] == rest[j];
      } else {
        assert forall j :: 0 <= j < n ==> items[j] == rest[j];
      }
    }
  }

  /** A time that an item of the identity carries and no item exceeds is the stamp. */
  lemma StampIs(items: seq<Item>, identity: Id, j: nat, t: Time)
    requires j < |items| && items[j].identity == identity && items[j].at == t
    requires forall k :: 0 <= k < |items| && items[k].identity == identity ==> items[k].at <= t
    ensures WorkingVersion(items, identity) == t
  {
    WorkingMeans(items, identity);
  }

  // ----- one write -----

  /** Exactly when an inserted item moves the stamp of an identity. */
  lemma InsertMovesWorkingStamp(items: seq<Item>, item: Item, identity: Id)
    ensures WorkingVersion(items + [item], identity) != WorkingVersion(items, identity)
      <==> item.identity == identity
           && (HasItem(items, identity) ==> item.at > WorkingVersion(items, identity))
           && (!HasItem(items, identity) ==> item.at != 0)
  {
    assert (items + [item])[..|items|] == items;
    WorkingMeans(items, identity);
  }

  /**
   * Exactly when rewriting an item moves the stamp of an identity: it is later than every item of the identity, or it
   * was the only one to carry the stamp and does not carry it any more.
   */
  lemma UpdateMovesWorkingStamp(items: seq<Item>, i: nat, item: Item, identity: Id)
    requires i < |items| && HasItem(items, identity)
    ensures
      var stamp := WorkingVersion(items, identity);
      var joins := item.identity == identity;
      var leavesEmpty := !HasItem(items[i := item], identity);
      var dropped := !CarriedElsewhere(items, i, identity, stamp) && (joins ==> item.at < stamp) && (leavesEmpty ==> stamp != 0);
      WorkingVersion(items[i := item], identity) != stamp <==> (joins && item.at > stamp) || dropped
  {
    var after, stamp := items[i := item], WorkingVersion(items, identity);
    WorkingMeans(items, identity);
    WorkingMeans(after, identity);
    hide WorkingVersion;
    assert after[i] == item && forall j :: 0 <= j < |items| && j != i ==> after[j] == items[j];
    if item.identity == identity && item.at > stamp {
    } else if CarriedElsewhere(items, i, identity, stamp) {
      var j :| 0 <= j < |items| && j != i && items[j].identity == identity && items[j].at == stamp;
      StampIs(after, identity, j, stamp);
    } else if item.identity == identity && item.at == stamp {
      StampIs(after, identity, i, stamp);
    }
  }

  /** Rewriting an item of another identity is inserting, as far as an identity without items is concerned. */
  lemma UpdateGivesFirstItem(items: seq<Item>, i: nat, item: Item, identity: Id)
    requires i < |items| && !HasItem(items, identity)
    ensures WorkingVersion(items[i := item], identity) != WorkingVersion(items, identity)
      <==> item.identity == identity && item.at != 0
  {
    var after := items[i := item];
    WorkingMeans(items, identity);
    WorkingMeans(after, identity);
    hide WorkingVersion;
    if item.identity == identity { assert after[i].identity == identity; }
  }

  /** Whatever was written, an identity with items keeps its stamp exactly when one still carries it and none is later. */
  lemma StampStandsExactlyWhen(items: seq<Item>, after: seq<Item>, identity: Id)
    requires HasItem(after, identity)
    ensures
      var stamp := WorkingVersion(items, identity);
      var noneLater := forall j :: 0 <= j < |after| && after[j].identity == identity ==> after[j].at <= stamp;
      WorkingVersion(after, identity) == stamp <==> CarriedElsewhere(after, |after|, identity, stamp) && noneLater
  {
    var stamp := WorkingVersion(items, identity);
    WorkingMeans(after, identity);
    if CarriedElsewhere(after, |after|, identity, stamp)
       && forall j :: 0 <= j < |after| && after[j].identity == identity ==> after[j].at <= stamp {
      var j :| 0 <= j < |after| && after[j].identity == identity && after[j].at == stamp;
      StampIs(after, identity, j, stamp);
    }
  }

  // ----- runs -----

  /** The item that a step writes, and where: a submission appends, a commit rewrites its candidate's item or appends. */
  function WriteOf(w: World, step: Step): Option<(nat, Item)> {
    match step
    case SubmitStep(item) => Some((|w.items|, item))
    case CommitStep(req, now) =>
      if Commit(w, req, now).Err? || Commit(w, req, now).value.1.replayed || req.assertion.None? then None
      else
        var item := Item(req.basis.candidate, req.basis.identity, req.assertion.value, now);
        Some((FindItem(w.items, req.basis.candidate).GetOr(|w.items|), item))
    case _ => None
  }

  function Written(items: seq<Item>, write: Option<(nat, Item)>): seq<Item>
    requires write.Some? ==> write.value.0 <= |items|
  {
    match write
    case None => items
    case Some((k, item)) => if k < |items| then items[k := item] else items + [item]
  }

  lemma StepWrites(w: World, step: Step)
    requires Inv(w)
    ensures WriteOf(w, step).Some? ==> WriteOf(w, step).value.0 <= |w.items|
    ensures Apply(w, step).items == Written(w.items, WriteOf(w, step))
  {
    hide Inv, Staleness;
  }

  /** A write of the identity is later than `stamp`, and no item is moved away from the identity. */
  predicate LaterWrite(items: seq<Item>, write: Option<(nat, Item)>, identity: Id, stamp: Time) {
    match write
    case None => true
    case Some((k, item)) =>
      && (item.identity == identity ==> item.at > stamp)
      && (k < |items| && items[k].identity == identity ==> item.identity == identity)
  }

  ghost predicate LaterWrites(w: World, steps: seq<Step>, identity: Id, stamp: Time)
    requires Inv(w)
    decreases |steps|
  {
    steps == []
    || (StepKeepsInv(w, steps[0]);
        LaterWrite(w.items, WriteOf(w, steps[0]), identity, stamp) && LaterWrites(Apply(w, steps[0]), steps[1..], identity, stamp))
  }

  /** The identity has the same items, with the same assertions, in both lists. */
  ghost predicate SameItems(items: seq<Item>, after: seq<Item>, identity: Id) {
    && |items| <= |after|
    && (forall j :: 0 <= j < |items| && (items[j].identity == identity || after[j].identity == identity) ==> after[j] == items[j])
    && (forall j :: |items| <= j < |after| ==> after[j].identity != identity)
  }

  ghost predicate SomeLater(items: seq<Item>, identity: Id, stamp: Time) {
    exists j :: 0 <= j < |items| && items[j].identity == identity && items[j].at > stamp
  }

  lemma WriteTells(start: seq<Item>, items: seq<Item>, write: Option<(nat, Item)>, identity: Id, stamp: Time)
    requires write.Some? ==> write.value.0 <= |items|
    requires LaterWrite(items, write, identity, stamp)
    requires SameItems(start, items, identity) || SomeLater(items, identity, stamp)
    ensures SameItems(start, Written(items, write), identity) || SomeLater(Written(items, write), identity, stamp)
  {
    if write.Some? {
      var (k, item) := write.value;
      var after := Written(items, write);
      assert after[k] == item;
      if item.identity != identity && SomeLater(items, identity, stamp) {
        var j :| 0 <= j < |items| && items[j].identity == identity && items[j].at > stamp;
        assert after[j] == items[j];
      }
    }
  }

  lemma {:induction false} RunTells(start: seq<Item>, w: World, steps: seq<Step>, identity: Id, stamp: Time)
    requires Inv(w) && LaterWrites(w, steps, identity, stamp)
    requires SameItems(start, w.items, identity) || SomeLater(w.items, identity, stamp)
    ensures SameItems(start, Run(w, steps).items, identity) || SomeLater(Run(w, steps).items, identity, stamp)
    decreases |steps|
  {
    hide Inv, Apply, SameItems, SomeLater, WriteOf, LaterWrite;
    if steps != [] {
      StepKeepsInv(w, steps[0]);
      StepWrites(w, steps[0]);
      WriteTells(start, w.items, WriteOf(w, steps[0]), identity, stamp);
      RunTells(start, Apply(w, steps[0]), steps[1..], identity, stamp);
    }
  }

  lemma SameItemsSameStamp(items: seq<Item>, after: seq<Item>, identity: Id)
    requires SameItems(items, after, identity)
    ensures WorkingVersion(after, identity) == WorkingVersion(items, identity)
  {
    WorkingMeans(items, identity);
    WorkingMeans(after, identity);
    hide WorkingVersion;
    forall j | 0 <= j < |after| && after[j].identity == identity ensures j < |items| && items[j] == after[j] {}
    if HasItem(items, identity) {
      var t := WorkingVersion(items, identity);
      var j :| 0 <= j < |items| && items[j].identity == identity && items[j].at == t;
      StampIs(after, identity, j, t);
    } else {
      assert !HasItem(after, identity);
    }
  }

  /**
   * Over a run whose writes of the identity come later than the stamp and move no item away from it, the stamp stands
   * exactly when the identity's items are untouched.
   */
  lemma {:induction false} StampIsSoundUnderLaterWrites(w: World, steps: seq<Step>, identity: Id)
    requires Inv(w) && LaterWrites(w, steps, identity, WorkingVersion(w.items, identity))
    ensures WorkingVersion(Run(w, steps).items, identity) == WorkingVersion(w.items, identity)
      <==> SameItems(w.items, Run(w, steps).items, identity)
  {
    var stamp, v := WorkingVersion(w.items, identity), Run(w, steps);
    RunTells(w.items, w, steps, identity, stamp);
    if SameItems(w.items, v.items, identity) {
      SameItemsSameStamp(w.items, v.items, identity);
    } else {
      WorkingMeans(v.items, identity);
    }
  }

  /** Then a result that commits sees the very items that its material was loaded from. */
  lemma {:induction false} CommitSeesItsItems(w: World, steps: seq<Step>, candidate: Id, identity: Id, req: Request, now: Time)
    requires Inv(w) && identity < |w.context.identities| && req.basis == BasisOf(w, candidate, identity)
    requires LaterWrites(w, steps, identity, WorkingVersion(w.items, identity))
    requires var v := Run(w, steps); Commit(v, req, now).Ok? && !Commit(v, req, now).value.1.replayed
    ensures SameItems(w.items, Run(w, steps).items, identity)
  {
    StampIsSoundUnderLaterWrites(w, steps, identity);
    assert Staleness(Run(w, steps), req.basis).None?;
  }

  // ----- two runs that the stamp does not protect -----

  /** A request of a candidate whose material is loaded in `w`. */
  function Loaded(w: World, candidate: Id, identity: Id, hash: nat, assertion: nat): Request
    requires identity < |w.context.identities|
  {
    Request(BasisOf(w, candidate, identity), hash, Changed, false, false, Some(assertion))
  }

  /** One candidate's item is written before another's; identity and clock readings are free. */
  function TwoItems(p: CR.Project, identity: Id, first: Item, second: Item): World {
    World(AH.EMPTY, [], p, map[], [first, second], [], map[])
  }

  lemma TwoItemsStamp(first: Item, second: Item, identity: Id)
    requires second.identity == identity && (first.identity == identity ==> first.at <= second.at)
    ensures WorkingVersion([first, second], identity) == second.at
  {
    StampIs([first, second], identity, 1, second.at);
  }

  /** Nothing but the clock reading differs from a run that the stamp protects: the first item is rewritten at the stamp. */
  lemma EqualReadingHidesAWrite(p: CR.Project, identity: Id, a: Id, b: Id, early: Time, at: Time, now: Time)
    requires CR.Inv(p) && identity < |p.identities| && !p.identities[identity].ended
    requires a != b && early <= at
    ensures
      var w := TwoItems(p, identity, Item(a, identity, 10, early), Item(b, identity, 20, at));
      var v := Apply(w, CommitStep(Loaded(w, a, identity, 1, 11), at));
      && Inv(w) && v.items == [Item(a, identity, 11, at), Item(b, identity, 20, at)]
      && Commit(v, Loaded(w, b, identity, 2, 21), now).Ok? && !SameItems(w.items, v.items, identity)
  {
    var w := TwoItems(p, identity, Item(a, identity, 10, early), Item(b, identity, 20, at));
    TwoItemsInv(w);
    OtherCommits(w, identity, identity, at);
    var v := Apply(w, CommitStep(Loaded(w, a, identity, 1, 11), at));
    TwoItemsStamp(w.items[0], w.items[1], identity);
    TwoItemsStamp(v.items[0], w.items[1], identity);
    assert v.items[0] != w.items[0];
    SecondCommits(w, v, identity, b, now);
  }

  /** However late it is written: an item that moves to another identity leaves the stamp of the first one behind. */
  lemma MovedItemHidesAWrite(p: CR.Project, identity: Id, other: Id, a: Id, b: Id, early: Time, at: Time, late: Time, now: Time)
    requires CR.Inv(p) && identity < |p.identities| && !p.identities[identity].ended
    requires other < |p.identities| && !p.identities[other].ended && other != identity
    requires a != b && early <= at < late
    ensures
      var w := TwoItems(p, identity, Item(a, identity, 10, early), Item(b, identity, 20, at));
      var v := Apply(w, CommitStep(Loaded(w, a, other, 1, 11), late));
      && Inv(w) && v.items == [Item(a, other, 11, late), Item(b, identity, 20, at)]
      && Commit(v, Loaded(w, b, identity, 2, 21), now).Ok? && !SameItems(w.items, v.items, identity)
  {
    var w := TwoItems(p, identity, Item(a, identity, 10, early), Item(b, identity, 20, at));
    TwoItemsInv(w);
    OtherCommits(w, identity, other, late);
    var v := Apply(w, CommitStep(Loaded(w, a, other, 1, 11), late));
    TwoItemsStamp(w.items[0], w.items[1], identity);
    TwoItemsStamp(v.items[0], w.items[1], identity);
    assert v.items[0] != w.items[0];
    SecondCommits(w, v, identity, b, now);
  }

  lemma TwoItemsInv(w: World)
    requires w.authority == AH.EMPTY && w.units == [] && w.records == [] && w.latest == map[] && CR.Inv(w.context)
    ensures Inv(w)
  {
    AH.EmptyInv();
    hide CR.Inv;
  }

  lemma OtherCommits(w: World, identity: Id, target: Id, at: Time)
    requires Inv(w) && |w.items| == 2 && w.records == [] && w.items[0].candidate != w.items[1].candidate
    requires target < |w.context.identities| && !w.context.identities[target].ended
    ensures var a := w.items[0].candidate;
            var v := Apply(w, CommitStep(Loaded(w, a, target, 1, 11), at));
            && v == w.(items := [Item(a, target, 11, at), w.items[1]], latest := v.latest,
                       records := [Record(a, 1, target, Changed, Some(0))])
  {
    hide Inv, CR.Inv;
    var a := w.items[0].candidate;
    assert FindItem(w.items, a) == Some(0) by { assert w.items[..1][0] == w.items[0]; }
    assert Staleness(w, BasisOf(w, a, target)).None?;
  }

  lemma SecondCommits(w: World, v: World, identity: Id, b: Id, now: Time)
    requires identity < |w.context.identities| && !w.context.identities[identity].ended
    requires v.authority == w.authority && v.units == w.units && v.context == w.context && v.integrity == w.integrity
    requires WorkingVersion(v.items, identity) == WorkingVersion(w.items, identity)
    requires |v.records| == 1 && v.records[0].candidate != b
    ensures Commit(v, Loaded(w, b, identity, 2, 21), now).Ok?
  {
    assert Staleness(v, BasisOf(w, b, identity)).None?;
  }

  /** The step that creates the first identity of a project, with its first record. */
  const FIRST_PUT := CS.DoPut(CR.PutRequest(0, 0, 0, CR.Semantic("", "", "", ""), 0, None, None, true), CR.Clocks(0, 0, 0))

  /** Such a world is reached: the first record of a project is put, and two candidates submit their items. */
  lemma {:induction false} TwoItemsAreReached(first: Item, second: Item)
    ensures Inv(EMPTY)
    ensures
      var p := CS.Apply(CR.EMPTY, FIRST_PUT);
      && CR.Inv(p) && |p.identities| == 1 && !p.identities[0].ended
      && Run(EMPTY, [ContextStep(FIRST_PUT), SubmitStep(first), SubmitStep(second)]) == TwoItems(p, 0, first, second)
  {
    ReconciliationTheorems.EmptyInv();
    FirstPutCreates();
    hide Inv, Run, CR.Inv, CS.Apply;
    PutAndSubmit(EMPTY, FIRST_PUT, first, second);
    assert EMPTY.items + [first] + [second] == [first, second];
  }

  lemma {:induction false} PutAndSubmit(w: World, put: CS.Step, first: Item, second: Item)
    requires Inv(w)
    ensures Run(w, [ContextStep(put), SubmitStep(first), SubmitStep(second)])
         == w.(context := CS.Apply(w.context, put), items := w.items + [first] + [second])
  {
    hide *;
    RunOfThree(w, ContextStep(put), SubmitStep(first), SubmitStep(second));
    PutApplies(w, put);
    var v := Apply(w, ContextStep(put));
    SubmitApplies(v, first);
    SubmitApplies(Apply(v, SubmitStep(first)), second);
  }

  lemma PutApplies(w: World, put: CS.Step)
    requires Inv(w)
    ensures Apply(w, ContextStep(put)) == w.(context := CS.Apply(w.context, put))
  {
    hide Inv, CS.Apply;
  }

  lemma SubmitApplies(w: World, item: Item)
    requires Inv(w)
    ensures Apply(w, SubmitStep(item)) == w.(items := w.items + [item])
  {
    hide Inv;
  }

  lemma {:induction false} RunOfThree(w: World, a: Step, b: Step, c: Step)
    requires Inv(w)
    ensures Inv(Apply(w, a)) && Inv(Apply(Apply(w, a), b)) && Run(w, [a, b, c]) == Apply(Apply(Apply(w, a), b), c)
  {
    StepKeepsInv(w, a);
    StepKeepsInv(Apply(w, a), b);
    StepKeepsInv(Apply(Apply(w, a), b), c);
    hide Apply, Inv;
    var w1, w2, w3 := Apply(w, a), Apply(Apply(w, a), b), Apply(Apply(Apply(w, a), b), c);
    assert [c][1..] == [] && Run(w2, [c]) == w3;
    assert [b, c][1..] == [c] && Run(w1, [b, c]) == w3;
    assert [a, b, c][1..] == [b, c];
  }

  lemma FirstPutCreates()
    ensures var p := CS.Apply(CR.EMPTY, FIRST_PUT);
            CR.Inv(CR.EMPTY) && CR.Inv(p) && |p.identities| == 1 && !p.identities[0].ended
  {
    CS.EmptyInv();
    CS.StepKeepsInv(CR.EMPTY, FIRST_PUT);
    CS.PutMeans(CR.EMPTY, FIRST_PUT.put, FIRST_PUT.putClocks);
  }
}
