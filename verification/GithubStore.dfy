/** The fence, receipt and connection rows as the lifecycle functions update them. */
module GithubStore {
  import opened Prelude
  import G = GithubLifecycle

  class Store {
    var fences: seq<G.Signal>
    var connections: map<G.Slot, G.Connection>
    var receipts: map<G.ReceiptKey, nat>

    ghost function Rows(): G.State
      reads this
    {
      G.State(fences, connections, receipts)
    }

    constructor ()
      ensures Rows() == G.EMPTY
    {
      fences, connections, receipts := [], map[], map[];
    }

    method FindFence(s: G.Signal) returns (found: Option<G.Signal>)
      ensures found == G.FindFence(fences, s)
    {
      var i := |fences|;
      assert fences[..i] == fences;
      while i > 0
        invariant 0 <= i <= |fences|
        invariant G.FindFence(fences, s) == G.FindFence(fences[..i], s)
      {
        assert fences[..i][..i - 1] == fences[..i - 1];
        if G.SameScope(fences[i - 1], s) { return Some(fences[i - 1]); }
        i := i - 1;
      }
      found := None;
    }

    /** What the loop has left behind once it has met the projects `done`. */
    ghost predicate Visited(before: G.State, s: G.Signal, done: set<Id>, now: G.State) {
      && now.connections.Keys == before.connections.Keys && done <= G.Reached(before.connections, s)
      && (forall q | q in now.connections ::
            now.connections[q] == if q.project in done then G.Degrade(before, q, s) else before.connections[q])
      && now.receipts == before.receipts + G.NewReceipts(before.receipts, done, s)
    }

    /** The update of every connection of a project. */
    function Updated(connections: map<G.Slot, G.Connection>, project: Id, s: G.Signal): map<G.Slot, G.Connection> {
      map p | p in connections ::
        if p.project == project && G.Severity(s.condition) >= G.Severity(connections[p].condition)
        then connections[p].(condition := s.condition) else connections[p]
    }

    /** A project whose receipt is there already: whether it was met before or not, its rows look the same. */
    lemma MeetingAgain(before: G.State, s: G.Signal, done: set<Id>, q: G.Slot, now: G.State)
      requires Visited(before, s, done, now) && q.project in G.Reached(before.connections, s)
      requires G.KeyOf(q.project, s) in now.receipts
      ensures Visited(before, s, done + {q.project}, now)
      ensures now.receipts[G.KeyOf(q.project, s)] == if G.Received(before.receipts, q.project, s) then before.receipts[G.KeyOf(q.project, s)] else s.hash
    {
      assert G.NewReceipts(before.receipts, done + {q.project}, s) == G.NewReceipts(before.receipts, done, s);
    }

    lemma MeetingFirst(before: G.State, s: G.Signal, done: set<Id>, q: G.Slot, now: G.State)
      requires Visited(before, s, done, now) && q.project in G.Reached(before.connections, s)
      requires G.KeyOf(q.project, s) !in now.receipts
      ensures Visited(before, s, done + {q.project},
                G.State(now.fences, Updated(now.connections, q.project, s), now.receipts[G.KeyOf(q.project, s) := s.hash]))
      ensures G.KeyOf(q.project, s) !in before.receipts
    {
      hide *;
      MeetingFirstReceipt(before, s, done, q, now);
      MeetingFirstUpdates(before, s, done, q, now);
    }

    lemma MeetingFirstReceipt(before: G.State, s: G.Signal, done: set<Id>, q: G.Slot, now: G.State)
      requires Visited(before, s, done, now) && G.KeyOf(q.project, s) !in now.receipts
      ensures G.KeyOf(q.project, s) !in before.receipts && q.project !in done
      ensures now.receipts[G.KeyOf(q.project, s) := s.hash] == before.receipts + G.NewReceipts(before.receipts, done + {q.project}, s)
    {
      hide G.Reached, G.Degrade;
      OneMoreReceipt(before.receipts, done, s, q.project);
      hide G.NewReceipts;
    }

    lemma MeetingFirstUpdates(before: G.State, s: G.Signal, done: set<Id>, q: G.Slot, now: G.State)
      requires Visited(before, s, done, now) && q.project in G.Reached(before.connections, s) && q.project !in done
      requires G.KeyOf(q.project, s) !in before.receipts
      requires now.receipts[G.KeyOf(q.project, s) := s.hash] == before.receipts + G.NewReceipts(before.receipts, done + {q.project}, s)
      ensures Visited(before, s, done + {q.project},
                G.State(now.fences, Updated(now.connections, q.project, s), now.receipts[G.KeyOf(q.project, s) := s.hash]))
    {
      hide G.Reached, G.Covers, G.NewReceipts;
      var after := Updated(now.connections, q.project, s);
      forall p | p in after
        ensures after[p] == if p.project in done + {q.project} then G.Degrade(before, p, s) else before.connections[p]
      {
      }
      hide G.Degrade, Updated;
    }

    lemma OneMoreReceipt(receipts: map<G.ReceiptKey, nat>, done: set<Id>, s: G.Signal, project: Id)
      requires G.KeyOf(project, s) !in receipts + G.NewReceipts(receipts, done, s)
      ensures project !in done
      ensures G.NewReceipts(receipts, done + {project}, s) == G.NewReceipts(receipts, done, s)[G.KeyOf(project, s) := s.hash]
    {
    }

    lemma NothingVisited(before: G.State, s: G.Signal, now: G.State)
      requires now.connections == before.connections && now.receipts == before.receipts
      ensures Visited(before, s, {}, now)
    {
      hide G.Reached, G.Degrade;
    }

    lemma CoveredIsReached(before: G.State, s: G.Signal, done: set<Id>)
      ensures forall q | q in before.connections && G.Covers(s, before.connections[q]) :: q.project in G.Reached(before.connections, s)
      ensures (forall q | q in before.connections && G.Covers(s, before.connections[q]) :: q.project in done)
        ==> G.Reached(before.connections, s) <= done
    {
    }

    /** The body of the loop over the matching connections: the receipt, then an update by project. */
    method Visit(before: G.State, s: G.Signal, q: G.Slot, ghost done: set<Id>) returns (conflict: bool, ghost met: set<Id>)
      requires q in before.connections && Visited(before, s, done, Rows())
      modifies `connections, `receipts
      ensures conflict == G.ReceiptConflicts(before, q, s)
      ensures met == if G.Covers(s, before.connections[q]) then done + {q.project} else done
      ensures !conflict ==> Visited(before, s, met, Rows())
    {
      ghost var now := Rows();
      CoveredIsReached(before, s, done);
      hide G.Reached, G.NewReceipts;
      assert G.Covers(s, connections[q]) == G.Covers(s, before.connections[q]);
      if !G.Covers(s, connections[q]) { return false, done; }
      met := done + {q.project};
      var k := G.KeyOf(q.project, s);
      if k in receipts {
        MeetingAgain(before, s, done, q, now);
        return receipts[k] != s.hash, met;
      }
      MeetingFirst(before, s, done, q, now);
      hide Visited, Updated;
      receipts := receipts[k := s.hash];
      connections := Updated(connections, q.project, s);
      conflict := false;
    }

    /** No conflict was met, and `done` has the projects of all the covered connections but the pending ones. */
    ghost predicate Met(before: G.State, s: G.Signal, pending: set<G.Slot>, done: set<Id>) {
      forall q | q in before.connections && q !in pending ::
        !G.ReceiptConflicts(before, q, s) && (G.Covers(s, before.connections[q]) ==> q.project in done)
    }

    lemma MeetOne(before: G.State, s: G.Signal, pending: set<G.Slot>, done: set<Id>, q: G.Slot, met: set<Id>)
      requires Met(before, s, pending, done) && q in before.connections && !G.ReceiptConflicts(before, q, s)
      requires met == if G.Covers(s, before.connections[q]) then done + {q.project} else done
      ensures Met(before, s, pending - {q}, met)
    {
    }

    lemma MetAll(before: G.State, s: G.Signal, done: set<Id>)
      requires Met(before, s, {}, done) && done <= G.Reached(before.connections, s)
      ensures done == G.Reached(before.connections, s) && forall q | q in before.connections :: !G.ReceiptConflicts(before, q, s)
    {
      CoveredIsReached(before, s, done);
      hide G.Reached, G.ReceiptConflicts;
    }

    /** The loop over the connections, in any order; it stops at a conflicting receipt. */
    method VisitAll(before: G.State, s: G.Signal) returns (conflict: bool)
      requires before.connections == connections && before.receipts == receipts
      modifies `connections, `receipts
      ensures conflict <==> exists q | q in before.connections :: G.ReceiptConflicts(before, q, s)
      ensures !conflict ==> Visited(before, s, G.Reached(before.connections, s), Rows())
    {
      var pending := connections.Keys;
      ghost var done: set<Id> := {};
      NothingVisited(before, s, Rows());
      assert Met(before, s, pending, done);
      assert done <= G.Reached(before.connections, s);
      hide *;
      while pending != {}
        invariant Visited(before, s, done, Rows()) && done <= G.Reached(before.connections, s)
        invariant Met(before, s, pending, done) && pending <= before.connections.Keys
        decreases |pending|
      {
        var q :| q in pending;
        ghost var earlier := done;
        CoveredIsReached(before, s, done);
        conflict, done := Visit(before, s, q, done);
        if conflict { return true; }
        MeetOne(before, s, pending, earlier, q, done);
        pending := pending - {q};
      }
      conflict := false;
      MetAll(before, s, done);
    }

    lemma VisitedEverywhere(before: G.State, s: G.Signal, now: G.State)
      requires Visited(before, s, G.Reached(before.connections, s), now)
      ensures now.connections == G.Delivered(before, s).connections && now.receipts == G.Delivered(before, s).receipts
    {
      forall q | q in before.connections ensures now.connections[q] == G.Degrade(before, q, s) {}
      hide G.Reached, G.Degrade;
    }

    /** One transaction: a conflicting receipt undoes the fence and every update. */
    method ApplySignal(s: G.Signal) returns (r: Result<(), G.Error>)
      modifies this
      ensures match G.ApplySignal(old(Rows()), s)
              case Ok(t) => r == Ok(()) && Rows() == t
              case Err(e) => r == Err(e) && Rows() == old(Rows())
    {
      hide Visited, G.ReceiptConflicts;
      var existing := FindFence(s);
      if existing.Some? {
        if existing.value.hash != s.hash { return Err(G.DeliveryConflict); }
        return Ok(());
      }
      var before := G.State(fences, connections, receipts);
      fences := fences + [s];
      var conflict := VisitAll(before, s);
      if conflict {
        fences, connections, receipts := before.fences, before.connections, before.receipts;
        return Err(G.DeliveryConflict);
      }
      VisitedEverywhere(before, s, Rows());
      r := Ok(());
    }

    /** `source` is what the query returns for a connected project, and what the insert draws for another. */
    method Connect(project: Id, source: Id, app: Id, installation: Id, repository: Id) returns (r: Result<(), G.Error>)
      requires G.CanConnect(Rows(), project, source)
      modifies `connections
      ensures match G.Connect(old(Rows()), project, source, app, installation, repository)
              case Ok(t) => r == Ok(()) && Rows() == t
              case Err(e) => r == Err(e) && Rows() == old(Rows())
    {
      for i := 0 to |fences|
        invariant connections == old(connections)
        invariant forall j :: 0 <= j < i ==> !G.Covers(fences[j], G.Connection(app, installation, repository, G.Active))
      {
        if G.Covers(fences[i], G.Connection(app, installation, repository, G.Active)) { return Err(G.ProviderStateChanged); }
      }
      var slot := G.Slot(project, source);
      if exists q | q in connections :: q.project == project {
        var existing := connections[slot];
        if existing.app != app || existing.installation != installation || existing.repository != repository {
          return Err(G.ReplacementRequired);
        }
        connections := map q | q in connections ::
          if q.project == project then connections[q].(condition := G.Active) else connections[q];
      } else {
        connections := connections[slot := G.Connection(app, installation, repository, G.Active)];
      }
      r := Ok(());
    }
  }
}
