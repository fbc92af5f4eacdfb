/** What a reconciliation run promises, whatever providers, the network and the repository do. */
module ReconcileLoopTheorems {
  import opened Prelude
  import opened ReconcileLoop

  // ----- how many attempts, and which -----

  function Repeat(t: Target, n: nat): (s: seq<Target>)
    ensures |s| == n
  {
    seq(n, _ => t)
  }

  /** Each target of the route, in order, as often as it may be tried. */
  function Schedule(route: seq<Target>, n: nat): (s: seq<Target>) {
    if route == [] then [] else Repeat(route[0], n) + Schedule(route[1..], n)
  }

  lemma {:induction false} ScheduleLength(route: seq<Target>, n: nat)
    ensures |Schedule(route, n)| == |route| * n
  {
    if route != [] {
      ScheduleLength(route[1..], n);
    }
  }

  /** The attempts still allowed from attempt `local` of target `t` on. */
  function Remaining(p: Plan, t: nat, local: nat): seq<Target>
    requires t <= |p.route| && local <= p.maxAttempts
  {
    if t == |p.route| then [] else Repeat(p.route[t], p.maxAttempts - local) + Schedule(p.route[t + 1..], p.maxAttempts)
  }

  lemma RemainingSteps(p: Plan, t: nat, local: nat)
    requires t < |p.route| && local <= p.maxAttempts
    ensures local == p.maxAttempts ==> Remaining(p, t, local) == Remaining(p, t + 1, 0)
    ensures local < p.maxAttempts ==> Remaining(p, t, local) == [p.route[t]] + Remaining(p, t, local + 1)
  {
    var rest := p.route[t + 1..];
    if rest != [] {
      assert rest[0] == p.route[t + 1] && rest[1..] == p.route[t + 2..];
    }
    if local < p.maxAttempts {
      assert Repeat(p.route[t], p.maxAttempts - local) == [p.route[t]] + Repeat(p.route[t], p.maxAttempts - local - 1);
    }
  }

  /** How the rest of a run ends, given what its log gained. */
  ghost predicate Ends(invoked: seq<Target>, verdicts: seq<Verdict>, allowed: seq<Target>, last: Failure, outcome: Outcome) {
    && |invoked| == |verdicts| && invoked <= allowed
    && (forall n :: 0 <= n < |verdicts| - 1 ==> verdicts[n].Rejected? && verdicts[n].failure.retryable)
    && (match outcome
        case Committed(result) => verdicts != [] && verdicts[|verdicts| - 1] == Done(result)
        case Thrown(f) =>
          if verdicts == [] then allowed == [] && f == last
          else verdicts[|verdicts| - 1] == Rejected(f) && (f.retryable ==> invoked == allowed)
        case Misconfigured => verdicts != [] ==> verdicts[|verdicts| - 1].Rejected? && verdicts[|verdicts| - 1].failure.retryable
        case RepositoryFailed => verdicts != [] && verdicts[|verdicts| - 1].Rejected?
        case InvalidCandidate => false)
  }

  /** `final` extends `log` by a proper ending. */
  ghost predicate Finishes(log: Log, final: Log, allowed: seq<Target>, last: Failure, outcome: Outcome) {
    && |log.invoked| == |log.verdicts| && log.invoked <= final.invoked && log.verdicts <= final.verdicts
    && Ends(final.invoked[|log.invoked|..], final.verdicts[|log.verdicts|..], allowed, last, outcome)
  }

  function Longer(log: Log, t: Target, v: Verdict): Log {
    Log(log.invoked + [t], log.verdicts + [v])
  }

  /** An attempt that ends the run ends it properly. */
  lemma StopFinishes(log: Log, t: Target, v: Verdict, allowed: seq<Target>, last: Failure, outcome: Outcome)
    requires |log.invoked| == |log.verdicts|
    requires match outcome
             case Committed(result) => v == Done(result)
             case Thrown(f) => v == Rejected(f) && !f.retryable
             case RepositoryFailed => v.Rejected?
             case _ => false
    ensures Finishes(log, Longer(log, t, v), [t] + allowed, last, outcome)
  {
    var final, n := Longer(log, t, v), |log.invoked|;
    assert final.invoked[n..] == [t] && final.verdicts[n..] == [v];
  }

  /** A retryable failure in front of a proper ending makes one. */
  lemma RetryFinishes(log: Log, t: Target, f: Failure, final: Log, allowed: seq<Target>, last: Failure, outcome: Outcome)
    requires f.retryable && |log.invoked| == |log.verdicts|
    requires Finishes(Longer(log, t, Rejected(f)), final, allowed, f, outcome)
    ensures Finishes(log, final, [t] + allowed, last, outcome)
  {
    var n := |log.invoked|;
    var invoked, verdicts := final.invoked[n + 1..], final.verdicts[n + 1..];
    assert final.invoked[n..] == [t] + invoked;
    assert final.verdicts[n..] == [Rejected(f)] + verdicts;
    var longer := [Rejected(f)] + verdicts;
    assert forall i :: 0 < i < |longer| ==> longer[i] == verdicts[i - 1];
  }

  lemma NothingFinishes(log: Log, allowed: seq<Target>, last: Failure, outcome: Outcome)
    requires |log.invoked| == |log.verdicts|
    requires outcome.Misconfigured? || (outcome == Thrown(last) && allowed == [])
    ensures Finishes(log, log, allowed, last, outcome)
  {
  }

  lemma {:induction false} RunFromFinishes(s: Store, log: Log, p: Plan, env: nat -> Env, t: nat, local: nat, last: Failure)
    requires t <= |p.route| && local <= p.maxAttempts && |log.invoked| == |log.verdicts|
    ensures
      var (_, final, outcome) := RunFrom(s, log, p, env, t, local, last);
      Finishes(log, final, Remaining(p, t, local), last, outcome)
    decreases |p.route| - t, p.maxAttempts - local
  {
    hide Finishes, Attempt;
    if t == |p.route| || (local == 0 && !Usable(p, p.route[t])) {
      var (_, _, outcome) := RunFrom(s, log, p, env, t, local, last);
      NothingFinishes(log, Remaining(p, t, local), last, outcome);
    } else {
      RemainingSteps(p, t, local);
      hide Remaining;
      if local == p.maxAttempts {
        RunFromFinishes(s, log, p, env, t + 1, 0, last);
      } else {
        var (after, verdict, lost) := Attempt(s, p.scope, KeyOf(p.route[t], |log.invoked| + 1), env(|log.invoked|));
        var longer := Longer(log, p.route[t], verdict);
        var (_, final, outcome) := RunFrom(s, log, p, env, t, local, last);
        if verdict.Rejected? && !lost && verdict.failure.retryable {
          RunFromFinishes(after, longer, p, env, t, local + 1, verdict.failure);
          RetryFinishes(log, p.route[t], verdict.failure, final, Remaining(p, t, local + 1), last, outcome);
        } else {
          StopFinishes(log, p.route[t], verdict, Remaining(p, t, local + 1), last, outcome);
        }
      }
    }
  }

  /**
   * A run makes at most `maxAttempts` attempts per target, in the order of the route; every attempt but the last failed in
   * a way worth retrying, so nothing is invoked after a success or after a failure that is not.
   */
  lemma RunIsBounded(s: Store, p: Plan, env: nat -> Env)
    requires p.maxAttempts >= 1 && p.route != []
    ensures
      var (_, log, outcome) := Run(s, p, env);
      && |log.invoked| == |log.verdicts| <= |p.route| * p.maxAttempts
      && log.invoked <= Schedule(p.route, p.maxAttempts)
      && (forall n :: 0 <= n < |log.verdicts| - 1 ==> log.verdicts[n].Rejected? && log.verdicts[n].failure.retryable)
      && (outcome.Committed? ==> log.verdicts != [] && log.verdicts[|log.verdicts| - 1] == Done(outcome.result))
      && (outcome.Thrown? ==> log.verdicts != [] && log.verdicts[|log.verdicts| - 1] == Rejected(outcome.failure))
      && (outcome.Thrown? && outcome.failure.retryable ==> |log.invoked| == |p.route| * p.maxAttempts)
  {
    var (_, log, outcome) := Run(s, p, env);
    RunFromFinishes(s, Log([], []), p, env, 0, 0, Failure(ProviderUnavailable, true));
    assert log.invoked[0..] == log.invoked && log.verdicts[0..] == log.verdicts;
    assert p.route[0 + 1..] == p.route[1..];
    assert Remaining(p, 0, 0) == Schedule(p.route, p.maxAttempts);
    ScheduleLength(p.route, p.maxAttempts);
    ScheduleNotEmpty(p.route, p.maxAttempts);
  }

  lemma ScheduleNotEmpty(route: seq<Target>, n: nat)
    requires route != [] && n >= 1
    ensures Schedule(route, n) != []
  {
    assert Schedule(route, n)[0] == route[0];
  }

  // ----- at most one record -----

  /** `after` keeps a record that is there, and a record that appears is a validated result in scope. */
  predicate RecordGrows(before: Option<ResultValue>, after: Option<ResultValue>, scope: Scope) {
    (before.Some? ==> after == before) && (before.None? && after.Some? ==> InScope(after.value, scope))
  }

  lemma AttemptGrowsRecord(s: Store, scope: Scope, k: Key, e: Env)
    ensures
      var (after, verdict, _) := Attempt(s, scope, k, e);
      RecordGrows(s.record, after.record, scope) && (verdict.Done? ==> after.record == Some(verdict.committed))
  {
    if e.invocation.Replies? && Validate(e.invocation.output, scope).Some? {
      ValidatedIsInScope(e.invocation.output, scope);
    }
  }

  lemma {:induction false} RunFromRecords(s: Store, log: Log, p: Plan, env: nat -> Env, t: nat, local: nat, last: Failure)
    requires t <= |p.route| && local <= p.maxAttempts
    ensures
      var (after, _, outcome) := RunFrom(s, log, p, env, t, local, last);
      RecordGrows(s.record, after.record, p.scope) && (outcome.Committed? ==> after.record == Some(outcome.result))
    decreases |p.route| - t, p.maxAttempts - local
  {
    if t < |p.route| && !(local == 0 && !Usable(p, p.route[t])) {
      if local == p.maxAttempts {
        RunFromRecords(s, log, p, env, t + 1, 0, last);
      } else {
        var n := |log.invoked|;
        AttemptGrowsRecord(s, p.scope, KeyOf(p.route[t], n + 1), env(n));
        var (after, verdict, lost) := Attempt(s, p.scope, KeyOf(p.route[t], n + 1), env(n));
        hide Attempt, InScope;
        if verdict.Rejected? && !lost && verdict.failure.retryable {
          RunFromRecords(after, Log(log.invoked + [p.route[t]], log.verdicts + [verdict]), p, env, t, local + 1, verdict.failure);
        }
      }
    }
  }

  /**
   * Whatever replies get lost, a run records at most one result for its candidate and basis, never replaces one, records
   * only validated results in scope, and reports as committed exactly the one on record.
   */
  lemma RunRecordsAtMostOnce(s: Store, p: Plan, env: nat -> Env)
    requires s.record.Some? ==> InScope(s.record.value, p.scope)
    ensures
      var (after, _, outcome) := Run(s, p, env);
      && (s.record.Some? ==> after.record == s.record)
      && (after.record.Some? ==> InScope(after.record.value, p.scope))
      && (outcome.Committed? ==> after.record == Some(outcome.result) && InScope(outcome.result, p.scope))
  {
    RunFromRecords(s, Log([], []), p, env, 0, 0, Failure(ProviderUnavailable, true));
  }

  /** The same holds of the whole service call, whichever way it answers; a deterministic answer invokes no model. */
  lemma ReconciledRecordsAtMostOnce(s: Store, c: Comparison, reply: CommitReply, p: Plan, env: nat -> Env)
    requires s.record.Some? ==> InScope(s.record.value, ScopeOf(c))
    ensures
      var (after, log, outcome) := Reconciled(s, c, reply, p, env);
      && (s.record.Some? ==> after.record == s.record)
      && (after.record.Some? ==> InScope(after.record.value, ScopeOf(c)))
      && (outcome.Committed? ==> after.record == Some(outcome.result))
      && (!Deterministic(c).Undecided? ==> log.invoked == [])
  {
    hide InScope, Run;
    ModelsAreAskedOnlyWhenNeeded(c);
    RunRecordsAtMostOnce(s, p.(scope := ScopeOf(c)), env);
  }

  // ----- the ledger -----

  /** The rows that attempts `from + 1` and later of this run are stored under. */
  predicate IsAttempt(k: Key, invoked: seq<Target>, from: nat) {
    from < k.attempt <= |invoked| && k == KeyOf(invoked[k.attempt - 1], k.attempt)
  }

  /** Rows are only added, only under this run's attempts, and every attempt but a lost last one has its row. */
  ghost predicate LedgerGrows(before: map<Key, Row>, after: map<Key, Row>, invoked: seq<Target>, from: nat, outcome: Outcome) {
    && (forall k :: k in before ==> k in after && after[k] == before[k])
    && (forall k :: k in after && k !in before ==> IsAttempt(k, invoked, from))
    && (forall k :: IsAttempt(k, invoked, from) && (k.attempt < |invoked| || !outcome.RepositoryFailed?) ==> k in after)
  }

  lemma AttemptGrowsLedger(s: Store, scope: Scope, k: Key, e: Env)
    ensures
      var (after, verdict, lost) := Attempt(s, scope, k, e);
      && (forall j :: j in s.ledger ==> j in after.ledger && after.ledger[j] == s.ledger[j])
      && (forall j :: j in after.ledger && j !in s.ledger ==> j == k)
      && (!lost ==> k in after.ledger) && (verdict.Done? ==> !lost)
  {
  }

  /** The rows of one attempt in front of the rows of the later ones. */
  lemma RetryGrowsLedger(before: map<Key, Row>, between: map<Key, Row>, after: map<Key, Row>, invoked: seq<Target>, from: nat, outcome: Outcome)
    requires from < |invoked| && LedgerGrows(between, after, invoked, from + 1, outcome)
    requires var k := KeyOf(invoked[from], from + 1);
      && k in between && (forall j :: j in before ==> j in between && between[j] == before[j])
      && (forall j :: j in between && j !in before ==> j == k)
    ensures LedgerGrows(before, after, invoked, from, outcome)
  {
    var k := KeyOf(invoked[from], from + 1);
    assert forall j :: IsAttempt(j, invoked, from) <==> j == k || IsAttempt(j, invoked, from + 1);
  }

  lemma StopGrowsLedger(before: map<Key, Row>, after: map<Key, Row>, invoked: seq<Target>, from: nat, outcome: Outcome)
    requires |invoked| == from + 1
    requires var k := KeyOf(invoked[from], from + 1);
      && (k in after || outcome.RepositoryFailed?) && (forall j :: j in before ==> j in after && after[j] == before[j])
      && (forall j :: j in after && j !in before ==> j == k)
    ensures LedgerGrows(before, after, invoked, from, outcome)
  {
    var k := KeyOf(invoked[from], from + 1);
    assert forall j :: IsAttempt(j, invoked, from) <==> j == k;
  }

  lemma {:induction false} RunFromLedger(s: Store, log: Log, p: Plan, env: nat -> Env, t: nat, local: nat, last: Failure)
    requires t <= |p.route| && local <= p.maxAttempts && |log.invoked| == |log.verdicts|
    ensures
      var (after, final, outcome) := RunFrom(s, log, p, env, t, local, last);
      log.invoked <= final.invoked && LedgerGrows(s.ledger, after.ledger, final.invoked, |log.invoked|, outcome)
    decreases |p.route| - t, p.maxAttempts - local
  {
    hide Attempt, LedgerGrows;
    if t == |p.route| || (local == 0 && !Usable(p, p.route[t])) {
      NothingGrowsLedger(s.ledger, log.invoked, Thrown(last));
      NothingGrowsLedger(s.ledger, log.invoked, Misconfigured);
    } else if local == p.maxAttempts {
      RunFromLedger(s, log, p, env, t + 1, 0, last);
    } else {
      var n := |log.invoked|;
      var k := KeyOf(p.route[t], n + 1);
      AttemptGrowsLedger(s, p.scope, k, env(n));
      var (after, verdict, lost) := Attempt(s, p.scope, k, env(n));
      var (end, final, outcome) := RunFrom(s, log, p, env, t, local, last);
      if verdict.Rejected? && !lost && verdict.failure.retryable {
        RunFromLedger(after, Log(log.invoked + [p.route[t]], log.verdicts + [verdict]), p, env, t, local + 1, verdict.failure);
        assert final.invoked[n] == p.route[t];
        RetryGrowsLedger(s.ledger, after.ledger, end.ledger, final.invoked, n, outcome);
      } else {
        StopGrowsLedger(s.ledger, end.ledger, final.invoked, n, outcome);
      }
    }
  }

  lemma NothingGrowsLedger(ledger: map<Key, Row>, invoked: seq<Target>, outcome: Outcome)
    ensures LedgerGrows(ledger, ledger, invoked, |invoked|, outcome)
  {
    assert forall j :: !IsAttempt(j, invoked, |invoked|);
  }

  /**
   * A run keeps the rows it finds, and adds one row for each of its attempts that has none, numbered one to the last.
   */
  lemma RunNumbersItsAttempts(s: Store, p: Plan, env: nat -> Env)
    ensures
      var (after, log, outcome) := Run(s, p, env);
      && (forall k :: k in s.ledger ==> k in after.ledger && after.ledger[k] == s.ledger[k])
      && (forall k :: k in after.ledger ==> k in s.ledger || IsAttempt(k, log.invoked, 0))
      && (!outcome.RepositoryFailed? ==> forall k :: k in after.ledger <==> k in s.ledger || IsAttempt(k, log.invoked, 0))
  {
    RunFromLedger(s, Log([], []), p, env, 0, 0, Failure(ProviderUnavailable, true));
  }

  /** The longer of two runs over one schedule. */
  function LongerOf(a: seq<Target>, b: seq<Target>): seq<Target> {
    if |a| <= |b| then b else a
  }

  lemma AttemptsOfEither(a: seq<Target>, b: seq<Target>, schedule: seq<Target>, k: Key)
    requires a <= schedule && b <= schedule
    ensures IsAttempt(k, a, 0) || IsAttempt(k, b, 0) <==> IsAttempt(k, LongerOf(a, b), 0)
  {
  }

  /**
   * A second run on the same basis and route meets the rows of the first: the rows together are still numbered one to
   * the length of the longer run, and a row of the first keeps what the first run wrote, whatever the second one met.
   */
  lemma RepeatedRunsShareNumbers(s: Store, earlier: seq<Target>, p: Plan, env: nat -> Env)
    requires p.maxAttempts >= 1 && p.route != [] && earlier <= Schedule(p.route, p.maxAttempts)
    requires forall k :: k in s.ledger <==> IsAttempt(k, earlier, 0)
    ensures
      var (after, log, outcome) := Run(s, p, env);
      && (!outcome.RepositoryFailed? ==> forall k :: k in after.ledger <==> IsAttempt(k, LongerOf(earlier, log.invoked), 0))
      && (forall k :: k in s.ledger ==> k in after.ledger && after.ledger[k] == s.ledger[k])
  {
    RunNumbersItsAttempts(s, p, env);
    RunIsBounded(s, p, env);
    var (after, log, outcome) := Run(s, p, env);
    hide Run, IsAttempt, LongerOf, Schedule;
    forall k ensures IsAttempt(k, earlier, 0) || IsAttempt(k, log.invoked, 0) <==> IsAttempt(k, LongerOf(earlier, log.invoked), 0) {
      AttemptsOfEither(earlier, log.invoked, Schedule(p.route, p.maxAttempts), k);
    }
  }

  // ----- a row that says succeeded need not have committed -----

  /**
   * The row of an attempt says succeeded exactly when its validated answer was recorded, whatever the commit did after;
   * a row that was there before says what it said.
   */
  lemma RowsRecordAnswers(s: Store, scope: Scope, k: Key, e: Env)
    ensures
      var (after, verdict, _) := Attempt(s, scope, k, e);
      if k in s.ledger then k in after.ledger && after.ledger[k] == s.ledger[k]
      else k in after.ledger && after.ledger[k] == Succeeded <==> Answer(e.invocation, scope).Ok? && e.successRecorded
  {
  }

  /** A refused commit counts as a transport failure worth retrying. */
  ghost predicate AlwaysStale(scope: Scope, e: Env) {
    Answer(e.invocation, scope).Ok? && e.successRecorded && e.commit.RefusedAsStale? && e.failureRecorded
  }

  lemma StaleAttempt(s: Store, scope: Scope, k: Key, e: Env)
    requires s.record.None? && AlwaysStale(scope, e)
    ensures Attempt(s, scope, k, e) == (s.(ledger := Insert(s.ledger, k, Succeeded)), Rejected(Failure(Transport, true)), false)
  {
  }

  /**
   * So once the basis has gone stale every remaining attempt is spent on it: the run invokes the whole schedule, records
   * nothing, and its ledger says that every attempt succeeded.
   */
  lemma {:induction false} StaleBasisSpendsEveryAttempt(s: Store, log: Log, p: Plan, env: nat -> Env, t: nat, local: nat, last: Failure)
    requires t <= |p.route| && local <= p.maxAttempts && s.record.None? && last.retryable
    requires |log.invoked| == |log.verdicts|
    requires forall n :: AlwaysStale(p.scope, env(n))
    requires forall u | u in p.route :: Usable(p, u)
    ensures
      var (after, final, outcome) := RunFrom(s, log, p, env, t, local, last);
      && after.record.None? && outcome.Thrown? && outcome.failure.retryable
      && final.invoked == log.invoked + Remaining(p, t, local)
      && (forall k :: k in after.ledger && k !in s.ledger ==> after.ledger[k] == Succeeded)
    decreases |p.route| - t, p.maxAttempts - local
  {
    hide Attempt, AlwaysStale, Remaining;
    if t == |p.route| {
      assert Remaining(p, t, local) == [] by { RemainingEnds(p, local); }
    } else {
      RemainingSteps(p, t, local);
      if local == p.maxAttempts {
        StaleBasisSpendsEveryAttempt(s, log, p, env, t + 1, 0, last);
      } else {
        var k := KeyOf(p.route[t], |log.invoked| + 1);
        assert AlwaysStale(p.scope, env(|log.invoked|));
        StaleAttempt(s, p.scope, k, env(|log.invoked|));
        var (after, verdict, lost) := Attempt(s, p.scope, k, env(|log.invoked|));
        var longer := Longer(log, p.route[t], verdict);
        assert RunFrom(s, log, p, env, t, local, last) == RunFrom(after, longer, p, env, t, local + 1, verdict.failure);
        hide RunFrom;
        StaleBasisSpendsEveryAttempt(after, longer, p, env, t, local + 1, verdict.failure);
        RunFromLedger(after, longer, p, env, t, local + 1, verdict.failure);
        assert longer.invoked + Remaining(p, t, local + 1) == log.invoked + Remaining(p, t, local);
      }
    }
  }

  lemma RemainingEnds(p: Plan, local: nat)
    requires local <= p.maxAttempts
    ensures Remaining(p, |p.route|, local) == []
  {
  }
}
