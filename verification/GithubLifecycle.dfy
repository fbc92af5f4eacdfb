/**
 * GitHub lifecycle signals: each delivery leaves a fence and degrades the connections it matches; connecting a repository
 * is refused while a fence covers it. Deliveries carry no provider time, as the webhook handler sends them.
 */
module GithubLifecycle {
  import opened Prelude

  datatype Condition = Active | VerificationRequired | Suspended | AccessRemoved | RepositoryDeleted | InstallationDeleted

  /** The severity order of the update; an active connection ranks with one to be verified. */
  function Severity(c: Condition): nat {
    match c
    case InstallationDeleted => 5
    case RepositoryDeleted => 4
    case AccessRemoved => 3
    case Suspended => 2
    case _ => 1
  }

  /** The same order with the active state below every signal. */
  function Rank(c: Condition): nat {
    if c.Active? then 0 else Severity(c)
  }

  type Degraded = c: Condition | !c.Active? witness Suspended

  /** A signal, and the fence it leaves. */
  datatype Signal = Signal(app: Id, installation: Id, repository: Option<Id>, condition: Degraded, delivery: Id, hash: nat)

  datatype Connection = Connection(app: Id, installation: Id, repository: Id, condition: Condition)

  datatype ReceiptKey = ReceiptKey(project: Id, installation: Id, delivery: Id)

  /** The key of a connection row. */
  datatype Slot = Slot(project: Id, source: Id)

  datatype State = State(fences: seq<Signal>, connections: map<Slot, Connection>, receipts: map<ReceiptKey, nat>)

  datatype Error = DeliveryConflict | ProviderStateChanged | ReplacementRequired

  predicate Covers(f: Signal, c: Connection) {
    f.app == c.app && f.installation == c.installation && (f.repository.None? || f.repository.value == c.repository)
  }

  predicate SameScope(f: Signal, g: Signal) {
    f.app == g.app && f.installation == g.installation && f.repository == g.repository && f.delivery == g.delivery
  }

  function FindFence(fences: seq<Signal>, s: Signal): (r: Option<Signal>)
    ensures r.Some? ==> r.value in fences && SameScope(r.value, s)
    ensures r.None? ==> forall f | f in fences :: !SameScope(f, s)
  {
    if fences == [] then None
    else if SameScope(fences[|fences| - 1], s) then Some(fences[|fences| - 1])
    else FindFence(fences[..|fences| - 1], s)
  }

  function KeyOf(project: Id, s: Signal): ReceiptKey { ReceiptKey(project, s.installation, s.delivery) }

  /** A receipt of this delivery is already there for the project. */
  predicate Received(receipts: map<ReceiptKey, nat>, project: Id, s: Signal) {
    KeyOf(project, s) in receipts
  }

  /** The projects with a connection that the signal matches. */
  function Reached(connections: map<Slot, Connection>, s: Signal): set<Id> {
    set q | q in connections && Covers(s, connections[q]) :: q.project
  }

  predicate ReceiptConflicts(t: State, q: Slot, s: Signal) {
    q in t.connections && Covers(s, t.connections[q])
    && Received(t.receipts, q.project, s) && t.receipts[KeyOf(q.project, s)] != s.hash
  }

  /**
   * The connection after the signal. The update names the project only, so a signal that reaches one connection of a
   * project is written to all of them; a duplicate receipt or a lower severity leaves them alone.
   */
  function Degrade(t: State, q: Slot, s: Signal): Connection
    requires q in t.connections
  {
    var c := t.connections[q];
    if q.project in Reached(t.connections, s) && !Received(t.receipts, q.project, s) && Severity(s.condition) >= Severity(c.condition)
    then c.(condition := s.condition) else c
  }

  /** The receipts that the signal adds for the projects that have none of its delivery. */
  function NewReceipts(receipts: map<ReceiptKey, nat>, projects: set<Id>, s: Signal): map<ReceiptKey, nat> {
    map p | p in projects && !Received(receipts, p, s) :: KeyOf(p, s) := s.hash
  }

  function Delivered(t: State, s: Signal): State {
    State(t.fences + [s], map q | q in t.connections :: Degrade(t, q, s),
          t.receipts + NewReceipts(t.receipts, Reached(t.connections, s), s))
  }

  function ApplySignal(t: State, s: Signal): Result<State, Error> {
    match FindFence(t.fences, s)
    case Some(f) => if f.hash != s.hash then Err(DeliveryConflict) else Ok(t)
    case None =>
      if exists q | q in t.connections :: ReceiptConflicts(t, q, s) then Err(DeliveryConflict)
      else Ok(Delivered(t, s))
  }

  predicate Connected(t: State, project: Id) {
    exists q | q in t.connections :: q.project == project
  }

  /** `source` is the connection row that the query returns for a connected project, and the new identifier for another. */
  predicate CanConnect(t: State, project: Id, source: Id) {
    Connected(t, project) ==> Slot(project, source) in t.connections
  }

  /** Connecting, or verifying again, one repository of a project. Verifying again updates by project too. */
  function Connect(t: State, project: Id, source: Id, app: Id, installation: Id, repository: Id): Result<State, Error>
    requires CanConnect(t, project, source)
  {
    var slot, connection := Slot(project, source), Connection(app, installation, repository, Active);
    if exists f | f in t.fences :: Covers(f, connection) then Err(ProviderStateChanged)
    else if !Connected(t, project) then Ok(t.(connections := t.connections[slot := connection]))
    else if t.connections[slot].(condition := Active) != connection then Err(ReplacementRequired)
    else Ok(t.(connections := map q | q in t.connections ::
                 if q.project == project then t.connections[q].(condition := Active) else t.connections[q]))
  }

  // ----- the worst signal that covers a connection -----

  function Worse(a: Condition, b: Condition): Condition {
    if Rank(b) > Rank(a) then b else a
  }

  function Worst(fences: seq<Signal>, c: Connection): Condition {
    if fences == [] then Active
    else
      var rest, f := Worst(fences[..|fences| - 1], c), fences[|fences| - 1];
      if Covers(f, c) then Worse(rest, f.condition) else rest
  }

  /** The worst condition is that of some covering fence, and no covering fence is worse. */
  lemma {:induction false} WorstMeans(fences: seq<Signal>, c: Connection)
    ensures forall f | f in fences && Covers(f, c) :: Rank(f.condition) <= Rank(Worst(fences, c))
    ensures Worst(fences, c) != Active ==> exists f :: f in fences && Covers(f, c) && f.condition == Worst(fences, c)
  {
    if fences != [] {
      var rest := fences[..|fences| - 1];
      WorstMeans(rest, c);
      assert fences == rest + [fences[|fences| - 1]];
      if Worst(rest, c) != Active {
        var f :| f in rest && Covers(f, c) && f.condition == Worst(rest, c);
        assert f in fences;
      }
    }
  }

  /** Only which fences there are matters, and for which repository; not their order or number. */
  lemma WorstIgnoresOrder(a: seq<Signal>, b: seq<Signal>, c: Connection)
    requires forall f :: f in a <==> f in b
    ensures Worst(a, c) == Worst(b, c)
  {
    WorstMeans(a, c);
    WorstMeans(b, c);
  }

  lemma {:induction false} WorstIgnoresCondition(fences: seq<Signal>, c: Connection, condition: Condition)
    ensures Worst(fences, c.(condition := condition)) == Worst(fences, c)
  {
    if fences != [] { WorstIgnoresCondition(fences[..|fences| - 1], c, condition); }
  }

  // ----- one signal -----

  /** Every connection shows the worst fence over it. */
  ghost predicate Shows(t: State) {
    forall q | q in t.connections :: t.connections[q].condition == Worst(t.fences, t.connections[q])
  }

  /** A connection that a new signal should degrade, and does not: its delivery has a receipt already. */
  predicate Missed(t: State, q: Slot, s: Signal)
    requires q in t.connections
  {
    Covers(s, t.connections[q]) && Received(t.receipts, q.project, s) && Rank(s.condition) > Rank(t.connections[q].condition)
  }

  /** A connection that a new signal should leave alone, and degrades: it shares its project with one that is covered. */
  predicate Overrun(t: State, q: Slot, s: Signal)
    requires q in t.connections
  {
    && !Covers(s, t.connections[q]) && q.project in Reached(t.connections, s) && !Received(t.receipts, q.project, s)
    && Rank(s.condition) > Rank(t.connections[q].condition)
  }

  lemma WorstOfOneMore(fences: seq<Signal>, s: Signal, c: Connection)
    ensures Worst(fences + [s], c) == if Covers(s, c) then Worse(Worst(fences, c), s.condition) else Worst(fences, c)
  {
    assert (fences + [s])[..|fences|] == fences;
  }

  lemma DegradedShowsExactlyWhen(t: State, q: Slot, s: Signal)
    requires q in t.connections && t.connections[q].condition == Worst(t.fences, t.connections[q])
    ensures Degrade(t, q, s) == t.connections[q].(condition := Degrade(t, q, s).condition)
    ensures Degrade(t, q, s).condition == Worst(t.fences + [s], Degrade(t, q, s)) <==> !Missed(t, q, s) && !Overrun(t, q, s)
  {
    assert Covers(s, t.connections[q]) ==> q.project in Reached(t.connections, s);
    WorstOfOneMore(t.fences, s, t.connections[q]);
    WorstIgnoresCondition(t.fences + [s], t.connections[q], Degrade(t, q, s).condition);
    hide Worst, Reached, Received, Covers;
  }

  /** Exactly when a new signal leaves every connection at the worst fence over it. */
  lemma DeliveryShowsExactlyWhen(t: State, s: Signal)
    requires Shows(t) && FindFence(t.fences, s).None? && ApplySignal(t, s).Ok?
    ensures Shows(ApplySignal(t, s).value) <==> forall q | q in t.connections :: !Missed(t, q, s) && !Overrun(t, q, s)
  {
    hide Worst, Degrade, Missed, Overrun, FindFence;
    var u := Delivered(t, s);
    forall q | q in t.connections
      ensures u.connections[q].condition == Worst(u.fences, u.connections[q]) <==> !Missed(t, q, s) && !Overrun(t, q, s)
    {
      DegradedShowsExactlyWhen(t, q, s);
    }
    assert u.connections.Keys == t.connections.Keys;
  }

  // ----- the invariant -----

  /** Connecting is the only way to a connection, and it gives a project at most one. */
  ghost predicate OneSource(t: State) {
    forall p, q | p in t.connections && q in t.connections && p.project == q.project :: p == q
  }

  /** Every fence over a connection has left a receipt with its project, under its own payload. */
  ghost predicate FencesReceived(t: State) {
    forall f, q | f in t.fences && q in t.connections && Covers(f, t.connections[q]) ::
      Received(t.receipts, q.project, f) && t.receipts[KeyOf(q.project, f)] == f.hash
  }

  /** Every receipt comes from a fence over a connection of its project. */
  ghost predicate ReceiptInv(t: State, k: ReceiptKey)
    requires k in t.receipts
  {
    exists f, q :: f in t.fences && q in t.connections && k == KeyOf(q.project, f) && f.hash == t.receipts[k] && Covers(f, t.connections[q])
  }

  ghost predicate Inv(t: State) {
    OneSource(t) && Shows(t) && FencesReceived(t) && (forall k | k in t.receipts :: ReceiptInv(t, k))
  }

  const EMPTY := State([], map[], map[])

  lemma EmptyInv()
    ensures Inv(EMPTY)
  {}

  // ----- what the webhook handler sends -----

  /** One payload says one thing: the body holds the action, and its hash stands for the body. */
  ghost predicate OneMeaning(signals: set<Signal>) {
    forall f, g | f in signals && g in signals && f.hash == g.hash :: f.condition == g.condition
  }

  /** A delivery id of an installation is never used again with another payload. */
  ghost predicate OneBody(signals: set<Signal>) {
    forall f, g | f in signals && g in signals && f.installation == g.installation && f.delivery == g.delivery :: f.hash == g.hash
  }

  ghost predicate Known(t: State, signals: set<Signal>) {
    forall f | f in t.fences :: f in signals
  }

  // ----- steps -----

  datatype Step =
    | DoSignal(signal: Signal)
    | DoConnect(project: Id, source: Id, app: Id, installation: Id, repository: Id)

  function Apply(t: State, step: Step): State {
    match step
    case DoSignal(s) => (match ApplySignal(t, s) case Ok(u) => u case Err(_) => t)
    case DoConnect(p, q, a, i, r) =>
      if !CanConnect(t, p, q) then t
      else match Connect(t, p, q, a, i, r) case Ok(u) => u case Err(_) => t
  }

  function Run(t: State, steps: seq<Step>): State
    decreases |steps|
  {
    if steps == [] then t else Run(Apply(t, steps[0]), steps[1..])
  }

  /** A known fence with the same payload is the signal itself, so redelivery changes nothing. */
  lemma RedeliveryIsSilent(t: State, s: Signal, signals: set<Signal>)
    requires OneMeaning(signals) && s in signals && Known(t, signals)
    requires FindFence(t.fences, s).Some? && ApplySignal(t, s).Ok?
    ensures s in t.fences && ApplySignal(t, s) == Ok(t)
  {
    assert FindFence(t.fences, s).value in signals;
  }

  /** With one connection per project and one meaning per payload, nothing is missed and nothing overrun. */
  lemma NothingMissed(t: State, s: Signal, signals: set<Signal>, q: Slot)
    requires Inv(t) && OneMeaning(signals) && s in signals && Known(t, signals)
    requires q in t.connections && !ReceiptConflicts(t, q, s)
    ensures !Missed(t, q, s) && !Overrun(t, q, s)
  {
    if q.project in Reached(t.connections, s) {
      var p :| p in t.connections && p.project == q.project && Covers(s, t.connections[p]);
      assert p == q;
      if Received(t.receipts, q.project, s) {
        assert ReceiptInv(t, KeyOf(q.project, s));
        var f, r :| f in t.fences && r in t.connections && KeyOf(q.project, s) == KeyOf(r.project, f)
                    && f.hash == t.receipts[KeyOf(q.project, s)] && Covers(f, t.connections[r]);
        assert r == q && f.condition == s.condition;
        WorstMeans(t.fences, t.connections[q]);
      }
    }
  }

  lemma DeliveredFencesReceived(t: State, s: Signal)
    requires FencesReceived(t) && forall q | q in t.connections :: !ReceiptConflicts(t, q, s)
    ensures FencesReceived(Delivered(t, s))
  {
    var u := Delivered(t, s);
    forall f, q | f in u.fences && q in u.connections && Covers(f, u.connections[q])
      ensures Received(u.receipts, q.project, f) && u.receipts[KeyOf(q.project, f)] == f.hash
    {
      assert Covers(f, t.connections[q]);
      if f == s {
        if !Received(t.receipts, q.project, s) { assert KeyOf(q.project, s) in NewReceipts(t.receipts, Reached(t.connections, s), s); }
      } else {
        assert f in t.fences;
        assert KeyOf(q.project, f) !in NewReceipts(t.receipts, Reached(t.connections, s), s);
      }
    }
  }

  lemma ReceiptsStayCovered(t: State, s: Signal, k: ReceiptKey)
    requires (forall j | j in t.receipts :: ReceiptInv(t, j)) && k in Delivered(t, s).receipts
    ensures ReceiptInv(Delivered(t, s), k)
  {
    var u := Delivered(t, s);
    if k in NewReceipts(t.receipts, Reached(t.connections, s), s) {
      var q :| q in t.connections && Covers(s, t.connections[q]) && k == KeyOf(q.project, s);
      assert s in u.fences && Covers(s, u.connections[q]);
    } else {
      assert ReceiptInv(t, k);
      var f, q :| f in t.fences && q in t.connections && k == KeyOf(q.project, f) && f.hash == t.receipts[k] && Covers(f, t.connections[q]);
      assert f in u.fences && Covers(f, u.connections[q]);
    }
  }

  /** A new signal that is not refused leaves each connection at its worst fence. */
  lemma DeliveryKeepsInv(t: State, s: Signal, signals: set<Signal>)
    requires Inv(t) && OneMeaning(signals) && s in signals && Known(t, signals)
    requires FindFence(t.fences, s).None? && ApplySignal(t, s).Ok?
    ensures ApplySignal(t, s) == Ok(Delivered(t, s)) && Inv(Delivered(t, s))
  {
    hide OneMeaning, FindFence, ReceiptInv, Degrade;
    forall q | q in t.connections ensures !Missed(t, q, s) && !Overrun(t, q, s) { NothingMissed(t, s, signals, q); }
    DeliveryShowsExactlyWhen(t, s);
    DeliveredFencesReceived(t, s);
    hide Shows, FencesReceived, Missed, Overrun, ReceiptConflicts;
    forall k | k in Delivered(t, s).receipts ensures ReceiptInv(Delivered(t, s), k) { ReceiptsStayCovered(t, s, k); }
    assert Delivered(t, s).connections.Keys == t.connections.Keys;
  }

  /**
   * Exactly when a signal is refused: its delivery id has been recorded with another payload, for the same scope or over
   * a connection that it covers too. A refused signal leaves nothing behind, not even its fence.
   */
  lemma RefusedExactlyWhen(t: State, s: Signal)
    requires Inv(t)
    ensures
      var known := FindFence(t.fences, s);
      ApplySignal(t, s).Err? <==>
        if known.Some? then known.value.hash != s.hash
        else exists f, q :: f in t.fences && f.delivery == s.delivery && f.hash != s.hash
                            && q in t.connections && Covers(f, t.connections[q]) && Covers(s, t.connections[q])
  {
    hide Shows, FindFence, OneSource;
    if f, q :| f in t.fences && f.delivery == s.delivery && f.hash != s.hash
               && q in t.connections && Covers(f, t.connections[q]) && Covers(s, t.connections[q]) {
      assert KeyOf(q.project, f) == KeyOf(q.project, s);
      assert ReceiptConflicts(t, q, s);
    }
    if q :| q in t.connections && ReceiptConflicts(t, q, s) {
      ConflictHasFence(t, q, s);
    }
  }

  lemma ConflictHasFence(t: State, q: Slot, s: Signal)
    requires Inv(t) && ReceiptConflicts(t, q, s)
    ensures exists f :: f in t.fences && f.delivery == s.delivery && f.hash != s.hash && Covers(f, t.connections[q])
  {
    assert ReceiptInv(t, KeyOf(q.project, s));
    var f, r :| f in t.fences && r in t.connections && KeyOf(q.project, s) == KeyOf(r.project, f)
                && f.hash == t.receipts[KeyOf(q.project, s)] && Covers(f, t.connections[r]);
    assert r == q;
  }

  /** A fence over a repository stops it from being connected, so a connection that is not active stays that way. */
  lemma ConnectKeepsInv(t: State, project: Id, source: Id, app: Id, installation: Id, repository: Id)
    requires Inv(t) && CanConnect(t, project, source) && Connect(t, project, source, app, installation, repository).Ok?
    ensures Inv(Connect(t, project, source, app, installation, repository).value)
    ensures forall q | q in t.connections && q.project == project :: t.connections[q].condition == Active
  {
    var u := Connect(t, project, source, app, installation, repository).value;
    var c := Connection(app, installation, repository, Active);
    WorstMeans(t.fences, c);
    if Connected(t, project) {
      var q := Slot(project, source);
      WorstIgnoresCondition(t.fences, c, t.connections[q].condition);
      assert c.(condition := t.connections[q].condition) == t.connections[q];
      assert u.connections == t.connections;
    } else {
      ConnectionAddedKeepsReceipts(t, Slot(project, source), c);
    }
  }

  lemma ConnectionAddedKeepsReceipts(t: State, slot: Slot, c: Connection)
    requires (forall k | k in t.receipts :: ReceiptInv(t, k)) && slot !in t.connections
    ensures var u := t.(connections := t.connections[slot := c]); forall k | k in u.receipts :: ReceiptInv(u, k)
  {
    var u := t.(connections := t.connections[slot := c]);
    forall k | k in u.receipts ensures ReceiptInv(u, k) {
      assert ReceiptInv(t, k);
      var f, q :| f in t.fences && q in t.connections && k == KeyOf(q.project, f) && f.hash == t.receipts[k] && Covers(f, t.connections[q]);
      assert Covers(f, u.connections[q]);
    }
  }

  // ----- runs -----

  /** The signals that a run delivers. */
  function Sent(steps: seq<Step>): set<Signal> {
    set i | 0 <= i < |steps| && steps[i].DoSignal? :: steps[i].signal
  }

  /** A project never has two connections, whatever is delivered. */
  lemma StepKeepsOneSource(t: State, step: Step)
    requires OneSource(t)
    ensures OneSource(Apply(t, step))
  {
    var u := Apply(t, step);
    if step.DoSignal? { assert u.connections.Keys == t.connections.Keys; }
  }

  lemma {:induction false} ProjectsHaveOneSource(t: State, steps: seq<Step>)
    requires OneSource(t)
    ensures OneSource(Run(t, steps))
    decreases |steps|
  {
    hide OneSource, Apply;
    if steps != [] {
      StepKeepsOneSource(t, steps[0]);
      ProjectsHaveOneSource(Apply(t, steps[0]), steps[1..]);
    }
  }

  ghost predicate NoBetter(t: State, u: State) {
    forall q | q in t.connections ::
      q in u.connections && Rank(t.connections[q].condition) <= Rank(u.connections[q].condition)
      && u.connections[q] == t.connections[q].(condition := u.connections[q].condition)
  }

  lemma StepKeepsInv(t: State, step: Step, signals: set<Signal>)
    requires Inv(t) && OneMeaning(signals) && Known(t, signals) && (step.DoSignal? ==> step.signal in signals)
    ensures Inv(Apply(t, step)) && Known(Apply(t, step), signals) && NoBetter(t, Apply(t, step))
    ensures OneBody(signals) && step.DoSignal? ==> forall f :: f in Apply(t, step).fences <==> f in t.fences || f == step.signal
    ensures step.DoConnect? ==> Apply(t, step).fences == t.fences
  {
    match step
    case DoSignal(s) => SignalKeepsInv(t, s, signals);
    case DoConnect(p, q, a, i, r) =>
      if CanConnect(t, p, q) && Connect(t, p, q, a, i, r).Ok? { ConnectKeepsInv(t, p, q, a, i, r); }
      hide Inv, OneMeaning, Covers;
  }

  lemma SignalKeepsInv(t: State, s: Signal, signals: set<Signal>)
    requires Inv(t) && OneMeaning(signals) && Known(t, signals) && s in signals
    ensures var u := Apply(t, DoSignal(s)); Inv(u) && Known(u, signals) && NoBetter(t, u)
    ensures OneBody(signals) ==> forall f :: f in Apply(t, DoSignal(s)).fences <==> f in t.fences || f == s
  {
    hide Worst, ReceiptInv, Shows, OneSource, FencesReceived, Covers, Reached;
    if ApplySignal(t, s).Ok? {
      if FindFence(t.fences, s).Some? { RedeliveryIsSilent(t, s, signals); } else { DeliveryKeepsInv(t, s, signals); }
    } else if OneBody(signals) {
      RefusedExactlyWhen(t, s);
      OneBodyIsNotRefused(t, s, signals);
    }
  }

  /** Without reuse of delivery ids every signal is recorded. */
  lemma OneBodyIsNotRefused(t: State, s: Signal, signals: set<Signal>)
    requires Inv(t) && OneBody(signals) && Known(t, signals) && s in signals
    ensures ApplySignal(t, s).Ok?
  {
    RefusedExactlyWhen(t, s);
    hide Inv, ApplySignal;
  }

  /** Over any run of deliveries and connections, refused ones included, no connection's severity decreases. */
  lemma {:induction false} SeverityNeverDecreases(t: State, steps: seq<Step>, signals: set<Signal>)
    requires Inv(t) && OneMeaning(signals) && Known(t, signals) && Sent(steps) <= signals
    ensures Inv(Run(t, steps)) && Known(Run(t, steps), signals) && NoBetter(t, Run(t, steps))
    ensures OneBody(signals) ==> forall f :: f in Run(t, steps).fences <==> f in t.fences || f in Sent(steps)
    decreases |steps|
  {
    hide Inv, OneMeaning, OneBody, Apply;
    if steps != [] {
      assert steps[0].DoSignal? ==> steps[0].signal in Sent(steps);
      StepKeepsInv(t, steps[0], signals);
      SentSplits(steps);
      SeverityNeverDecreases(Apply(t, steps[0]), steps[1..], signals);
    }
  }

  lemma SentSplits(steps: seq<Step>)
    requires steps != []
    ensures Sent(steps) == Sent(steps[1..]) + if steps[0].DoSignal? then {steps[0].signal} else {}
  {
    forall s | s in Sent(steps) && !(steps[0].DoSignal? && s == steps[0].signal) ensures s in Sent(steps[1..]) {
      var i :| 0 <= i < |steps| && steps[i].DoSignal? && steps[i].signal == s;
      assert steps[1..][i - 1] == steps[i];
    }
    forall s | s in Sent(steps[1..]) ensures s in Sent(steps) {
      var i :| 0 <= i < |steps[1..]| && steps[1..][i].DoSignal? && steps[1..][i].signal == s;
      assert steps[i + 1] == steps[1..][i];
    }
  }

  /**
   * Confluence: without reuse of delivery ids, runs that delivered the same signals, in any order and any number of
   * times, leave a project that is connected to the same repository in the same condition, the worst one reported.
   */
  lemma SignalsAreConfluent(a: seq<Step>, b: seq<Step>, q: Slot)
    requires OneMeaning(Sent(a)) && OneBody(Sent(a)) && Sent(a) == Sent(b)
    requires
      var t, u := Run(EMPTY, a), Run(EMPTY, b);
      q in t.connections && q in u.connections
      && t.connections[q].(condition := Active) == u.connections[q].(condition := Active)
    ensures
      var t, u := Run(EMPTY, a), Run(EMPTY, b);
      && t.connections[q] == u.connections[q]
      && t.connections[q].condition == Worst(t.fences, t.connections[q])
  {
    EmptyInv();
    SeverityNeverDecreases(EMPTY, a, Sent(a));
    SeverityNeverDecreases(EMPTY, b, Sent(a));
    var t, u := Run(EMPTY, a), Run(EMPTY, b);
    hide Run, OneSource, FencesReceived, ReceiptInv, OneMeaning, OneBody, Worst;
    WorstIgnoresOrder(t.fences, u.fences, t.connections[q]);
    WorstIgnoresCondition(u.fences, t.connections[q], u.connections[q].condition);
    assert t.connections[q].(condition := u.connections[q].condition) == u.connections[q];
  }

  /**
   * Reuse breaks it exactly when it matters: two signals over a connection end in the same condition in both orders
   * unless they share a delivery id and report different conditions. Then whichever comes second is refused.
   */
  lemma OrdersAgreeExactlyWhen(t: State, q: Slot, f: Signal, g: Signal)
    requires Inv(t) && t.fences == [] && q in t.connections && Covers(f, t.connections[q]) && Covers(g, t.connections[q])
    requires OneMeaning({f, g})
    ensures
      var fg, gf := Apply(Apply(t, DoSignal(f)), DoSignal(g)), Apply(Apply(t, DoSignal(g)), DoSignal(f));
      && q in fg.connections && q in gf.connections
      && (fg.connections[q].condition == gf.connections[q].condition <==> (f.delivery == g.delivery ==> f.condition == g.condition))
  {
    assert {g, f} == {f, g};
    AfterTwo(t, q, f, g);
    AfterTwo(t, q, g, f);
    hide *;
    WorseCommutes(f.condition, g.condition);
  }

  lemma WorseCommutes(a: Condition, b: Condition)
    ensures Worse(a, b) == Worse(b, a)
  {
  }

  lemma AfterTwo(t: State, q: Slot, f: Signal, g: Signal)
    requires Inv(t) && t.fences == [] && q in t.connections && Covers(f, t.connections[q]) && Covers(g, t.connections[q])
    requires OneMeaning({f, g})
    ensures
      var u := Apply(Apply(t, DoSignal(f)), DoSignal(g));
      q in u.connections && u.connections[q].condition == if f.delivery == g.delivery then f.condition else Worse(f.condition, g.condition)
  {
    var t1 := Apply(t, DoSignal(f));
    AfterOne(t, q, f, {f, g});
    if f.delivery == g.delivery && f.hash != g.hash {
      RefusedExactlyWhen(t1, g);
      hide Inv, ApplySignal, OneMeaning;
      if FindFence(t1.fences, g).Some? { assert FindFence(t1.fences, g).value == f; }
    } else {
      AfterSecond(t1, q, f, g);
    }
  }

  /** A new signal that is not refused leaves a connection that it covers at the worse of the two conditions. */
  lemma AfterNew(t: State, q: Slot, f: Signal, signals: set<Signal>)
    requires Inv(t) && q in t.connections && Covers(f, t.connections[q])
    requires f in signals && OneMeaning(signals) && Known(t, signals)
    requires FindFence(t.fences, f).None? && ApplySignal(t, f).Ok?
    ensures
      var u := Delivered(t, f);
      && ApplySignal(t, f) == Ok(u) && Inv(u) && q in u.connections
      && u.connections[q] == t.connections[q].(condition := Worse(t.connections[q].condition, f.condition))
  {
    DeliveryKeepsInv(t, f, signals);
    var u, c := Delivered(t, f), t.connections[q];
    assert u.connections[q] == Degrade(t, q, f) && u.connections[q].condition == Worst(t.fences + [f], u.connections[q]);
    assert c.condition == Worst(t.fences, c);
    hide Inv, OneMeaning, ApplySignal, FindFence, Delivered, Known;
    DegradedShowsExactlyWhen(t, q, f);
    hide *;
    WorstOfOneMore(t.fences, f, c);
    WorstIgnoresCondition(t.fences + [f], c, u.connections[q].condition);
  }

  lemma AfterOne(t: State, q: Slot, f: Signal, signals: set<Signal>)
    requires Inv(t) && t.fences == [] && q in t.connections && Covers(f, t.connections[q]) && f in signals && OneMeaning(signals)
    ensures
      var u := Apply(t, DoSignal(f));
      && Inv(u) && u.fences == [f] && q in u.connections && u.connections[q] == t.connections[q].(condition := f.condition)
  {
    assert Known(t, signals) && Delivered(t, f).fences == [f] && Worse(Active, f.condition) == f.condition;
    hide *;
    NothingIsRefusedYet(t, q, f);
    AfterNew(t, q, f, signals);
    SignalApplies(t, f);
  }

  lemma SignalApplies(t: State, s: Signal)
    ensures ApplySignal(t, s).Ok? ==> Apply(t, DoSignal(s)) == ApplySignal(t, s).value
  {
    hide ApplySignal;
  }

  lemma NothingIsRefusedYet(t: State, q: Slot, f: Signal)
    requires Inv(t) && t.fences == [] && q in t.connections
    ensures FindFence(t.fences, f).None? && ApplySignal(t, f).Ok? && t.connections[q].condition == Active
  {
    assert Worst(t.fences, t.connections[q]) == Active;
    hide Worst;
    if p :| p in t.connections && ReceiptConflicts(t, p, f) {
      ConflictHasFence(t, p, f);
      assert false;
    }
  }

  lemma AfterSecond(t: State, q: Slot, f: Signal, g: Signal)
    requires Inv(t) && t.fences == [f] && q in t.connections && t.connections[q].condition == f.condition
    requires Covers(f, t.connections[q]) && Covers(g, t.connections[q]) && OneMeaning({f, g})
    requires f.delivery == g.delivery ==> f.hash == g.hash
    ensures var u := Apply(t, DoSignal(g)); q in u.connections && u.connections[q].condition == Worse(f.condition, g.condition)
  {
    RefusedExactlyWhen(t, g);
    hide Inv;
    if FindFence(t.fences, g).None? {
      hide ApplySignal;
      AfterNew(t, q, g, {f, g});
    } else {
      assert FindFence(t.fences, g).value == f;
    }
  }
}
