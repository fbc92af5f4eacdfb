/** What GitHub signals leave on a connection, by the names of the conditions. */
module LifecycleLaws {
  import opened Prelude
  import opened GithubLifecycle

  /** A recorded signal of this condition is about the connection's repository, or about its whole installation. */
  ghost predicate Reported(t: State, c: Connection, condition: Condition) {
    exists f :: f in t.fences && f.condition == condition && f.app == c.app && f.installation == c.installation
                && (f.repository == None || f.repository == Some(c.repository))
  }

  lemma ShownIsReported(t: State, q: Slot)
    requires Shows(t) && q in t.connections
    ensures t.connections[q].condition != Active ==> Reported(t, t.connections[q], t.connections[q].condition)
    ensures forall x: Degraded :: Reported(t, t.connections[q], x) ==> Rank(x) <= Rank(t.connections[q].condition)
  {
    var c := t.connections[q];
    WorstMeans(t.fences, c);
    hide Worst;
    forall x: Degraded | Reported(t, c, x) ensures Rank(x) <= Rank(c.condition) {
      var f :| f in t.fences && f.condition == x && f.app == c.app && f.installation == c.installation
               && (f.repository == None || f.repository == Some(c.repository));
      assert Covers(f, c);
    }
    if c.condition != Active {
      var f :| f in t.fences && Covers(f, c) && f.condition == c.condition;
      assert f.repository == None || f.repository == Some(c.repository);
    }
  }

  /**
   * Over any run in which one payload means one condition, a connection shows the gravest thing that was recorded about
   * it: a deleted installation before a deleted repository, before removed access, before a suspension, before a need to
   * verify; and it is active exactly when nothing was.
   */
  lemma {:induction false} GravestReportShows(steps: seq<Step>, q: Slot)
    requires OneMeaning(Sent(steps)) && q in Run(EMPTY, steps).connections
    ensures
      var t := Run(EMPTY, steps);
      var c := t.connections[q];
      var deleted, gone, removed := Reported(t, c, InstallationDeleted), Reported(t, c, RepositoryDeleted), Reported(t, c, AccessRemoved);
      var suspended, unverified := Reported(t, c, Suspended), Reported(t, c, VerificationRequired);
      && (c.condition == InstallationDeleted <==> deleted)
      && (c.condition == RepositoryDeleted <==> gone && !deleted)
      && (c.condition == AccessRemoved <==> removed && !gone && !deleted)
      && (c.condition == Suspended <==> suspended && !removed && !gone && !deleted)
      && (c.condition == VerificationRequired <==> unverified && !suspended && !removed && !gone && !deleted)
      && (c.condition == Active <==> !unverified && !suspended && !removed && !gone && !deleted)
    ensures OneBody(Sent(steps)) ==> forall f :: f in Run(EMPTY, steps).fences <==> f in Sent(steps)
  {
    EmptyInv();
    SeverityNeverDecreases(EMPTY, steps, Sent(steps));
    RunShows(Run(EMPTY, steps), q);
  }

  /** The six conditions of a connection that shows its worst fence. */
  lemma RunShows(t: State, q: Slot)
    requires Inv(t) && q in t.connections
    ensures
      var c := t.connections[q];
      var deleted, gone, removed := Reported(t, c, InstallationDeleted), Reported(t, c, RepositoryDeleted), Reported(t, c, AccessRemoved);
      var suspended, unverified := Reported(t, c, Suspended), Reported(t, c, VerificationRequired);
      && (c.condition == InstallationDeleted <==> deleted)
      && (c.condition == RepositoryDeleted <==> gone && !deleted)
      && (c.condition == AccessRemoved <==> removed && !gone && !deleted)
      && (c.condition == Suspended <==> suspended && !removed && !gone && !deleted)
      && (c.condition == VerificationRequired <==> unverified && !suspended && !removed && !gone && !deleted)
      && (c.condition == Active <==> !unverified && !suspended && !removed && !gone && !deleted)
  {
    hide OneSource, FencesReceived, ReceiptInv;
    assert Shows(t);
    hide Shows, Reported, Inv;
    ShownIsReported(t, q);
  }

  /**
   * Connecting succeeds exactly when nothing was recorded about the repository or its installation, and the project has no
   * connection to another one. The connection is then active, and every other connection as it was.
   */
  lemma ConnectsExactlyWhen(t: State, project: Id, source: Id, app: Id, installation: Id, repository: Id)
    requires OneSource(t) && CanConnect(t, project, source)
    ensures
      var r := Connect(t, project, source, app, installation, repository);
      var slot := Slot(project, source);
      var blocked := exists f :: f in t.fences && f.app == app && f.installation == installation
                                 && (f.repository == None || f.repository == Some(repository));
      var other := slot in t.connections && (t.connections[slot].app != app || t.connections[slot].installation != installation
                                             || t.connections[slot].repository != repository);
      && (r.Ok? <==> !blocked && !other)
      && (r.Err? ==> r.error == if blocked then ProviderStateChanged else ReplacementRequired)
      && (r.Ok? ==> r.value == t.(connections := t.connections[slot := Connection(app, installation, repository, Active)]))
  {
    var slot := Slot(project, source);
    var c := Connection(app, installation, repository, Active);
    forall f | f in t.fences ensures Covers(f, c) <==>
      f.app == app && f.installation == installation && (f.repository == None || f.repository == Some(repository))
    {
    }
    var r := Connect(t, project, source, app, installation, repository);
    if r.Ok? && Connected(t, project) {
      assert r.value.connections == t.connections[slot := c];
    }
  }

  /** A new signal that is accepted adds its own fence, and a receipt for each project that it reaches. */
  lemma AcceptedSignalIsRecorded(t: State, s: Signal)
    requires ApplySignal(t, s).Ok? && FindFence(t.fences, s) == None
    ensures
      var u := ApplySignal(t, s).value;
      && u.fences == t.fences + [s] && u.connections.Keys == t.connections.Keys
      && (forall q :: q in t.connections && Covers(s, t.connections[q]) ==>
            KeyOf(q.project, s) in u.receipts && u.receipts[KeyOf(q.project, s)] == s.hash)
  {
    forall q | q in t.connections && Covers(s, t.connections[q])
      ensures KeyOf(q.project, s) in Delivered(t, s).receipts && Delivered(t, s).receipts[KeyOf(q.project, s)] == s.hash
    {
      assert !ReceiptConflicts(t, q, s);
    }
    assert Delivered(t, s).connections.Keys == t.connections.Keys;
  }
}
