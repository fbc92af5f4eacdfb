/** The deterministic rules, the validation of a model's output and the verdict of one attempt, case by case. */
module ReconcileLaws {
  import opened Prelude
  import R = Reconciliation
  import opened ReconcileLoop
  import opened ReconcileLoopTheorems

  // ----- the deterministic rules -----

  /** The candidate says what is there already. */
  predicate Known(c: Comparison) {
    c.duplicate || c.currentHash == Some(c.candidateHash)
  }

  /** The candidate's sources have authority, and it has evidence where it needs some. */
  predicate Supported(c: Comparison) {
    c.authorityEffective && (c.evidenceRequired ==> c.evidence != [])
  }

  /** Nothing disputes the identity. */
  predicate Undisputed(c: Comparison) {
    !c.activeConflict && !c.activeUncertainty
  }

  /** The condition of each class, whatever order the rules are tried in. */
  predicate Called(c: Comparison, kind: R.Classification) {
    match kind
    case Unchanged => Known(c)
    case Uncertain => !Known(c) && (!Supported(c) || (c.activeUncertainty && !c.activeConflict))
    case Conflicting => !Known(c) && Supported(c) && c.activeConflict
    case Superseded => !Known(c) && Supported(c) && Undisputed(c) && c.knownHistorical
    case New => !Known(c) && Supported(c) && Undisputed(c) && !c.knownHistorical && c.current == None
    case Changed => false
    case Obsolete => false
  }

  /** What an answer carries: the identity, all the evidence, the flag of its class, and the candidate unless nothing changes. */
  ghost predicate Carries(c: Comparison, kind: R.Classification, r: ResultValue) {
    && r.classification == kind && r.semanticIdentity == c.semanticIdentity
    && (forall id :: id in r.evidence <==> id in c.evidence)
    && (r.conflict <==> kind == R.Conflicting) && (r.uncertain <==> kind == R.Uncertain)
    && r.assertion == if kind == R.Unchanged then None else c.candidate
  }

  /** Exactly when a rule gives each class: at most one does, and it answers unless it needs a normal form that there is not. */
  lemma RulesMean(c: Comparison, kind: R.Classification)
    ensures Called(c, kind) ==>
      if kind != R.Unchanged && c.candidate == None then Deterministic(c) == CandidateInvalid
      else Deterministic(c).Decide? && Carries(c, kind, Deterministic(c).result)
    ensures Deterministic(c).Decide? && Deterministic(c).result.classification == kind ==> Called(c, kind)
    ensures Deterministic(c) == Undecided ==> !Called(c, kind)
    ensures forall other :: Called(c, kind) && Called(c, other) ==> other == kind
  {
  }

  /** A deterministic answer that reaches the repository is what goes on record there, unless a result is on record already. */
  lemma RuledAnswerIsRecorded(s: Store, c: Comparison, kind: R.Classification, p: Plan, env: nat -> Env)
    requires Called(c, kind) && s.record == None && (kind != R.Unchanged ==> c.candidate.Some?)
    ensures
      var (after, log, outcome) := Reconciled(s, c, Delivered, p, env);
      && outcome.Committed? && Carries(c, kind, outcome.result) && after == s.(record := Some(outcome.result)) && log.invoked == []
  {
    RulesMean(c, kind);
  }

  // ----- validation -----

  /** Exactly which outputs are accepted, and what is made of them. */
  lemma ValidateMeans(o: Output, scope: Scope)
    ensures
      var r := Validate(o, scope);
      && (r.Some? <==>
            && o.exactFields && o.classification.Some? && o.semanticIdentity == scope.semanticIdentity
            && o.evidence.Some? && (forall id :: id in o.evidence.value ==> id in scope.allowedEvidence)
            && o.reasonsKnown && o.justificationShort
            && o.conflict == Some(o.classification.value == R.Conflicting) && o.uncertain == Some(o.classification.value == R.Uncertain)
            && (o.classification.value == R.Unchanged || o.assertion.Some?))
      && (r.Some? ==>
            && r.value.classification == o.classification.value && r.value.semanticIdentity == o.semanticIdentity
            && (forall id :: id in r.value.evidence <==> id in o.evidence.value)
            && Some(r.value.conflict) == o.conflict && Some(r.value.uncertain) == o.uncertain
            && r.value.assertion == if o.classification.value == R.Unchanged then None else o.assertion)
  {
  }

  // ----- attempts -----

  /** The validated result that an attempt has in hand, if it gets that far. */
  ghost predicate Validated(i: Invocation, scope: Scope, result: ResultValue) {
    i.Replies? && !i.refusal && i.usageValid && !i.costThrows && Validate(i.output, scope) == Some(result)
  }

  /**
   * What is tried again: a call or a cost calculation that throws, and what the provider calls retryable. A refusal, a
   * malformed usage and an output that does not validate are final.
   */
  lemma FailuresMean(i: Invocation, scope: Scope)
    ensures
      var a := Answer(i, scope);
      && (a.Ok? ==> Validated(i, scope, a.value))
      && (forall result :: Validated(i, scope, result) ==> a == Ok(result))
      && (i.ProviderFails? ==> a == Err(i.failure))
      && (a.Err? && !i.ProviderFails? ==> (a.error.retryable <==> i.CallThrows? || (!i.refusal && i.usageValid && i.costThrows)))
      && (i.Replies? && i.refusal ==> a == Err(Failure(Refusal, false)))
      && (i.Replies? && !i.refusal && !i.usageValid ==> a == Err(Failure(MalformedOutput, false)))
      && (i.CallThrows? ==> a == Err(Failure(Transport, true)))
      && (i.Replies? && !i.refusal && i.usageValid && !i.costThrows && Validate(i.output, scope) == None ==>
            a == Err(Failure(SchemaValidation, false)))
  {
  }

  /** The reply to a commit reaches the caller. */
  predicate Replied(s: Store, e: Env) {
    e.commit == Delivered || (e.commit == RefusedAsStale && s.record.Some?)
  }

  /**
   * An attempt succeeds exactly when its validated result is recorded as a success and the commit's reply arrives; it then
   * reports the result on record, its own if there was none. Otherwise it fails with the answer's failure, or as a
   * transport failure, and the failure of recording that ends the run.
   */
  lemma AttemptMeans(s: Store, scope: Scope, k: Key, e: Env)
    ensures
      var (after, verdict, lost) := Attempt(s, scope, k, e);
      var answer := Answer(e.invocation, scope);
      && (verdict.Done? <==> answer.Ok? && e.successRecorded && Replied(s, e))
      && (verdict.Done? ==> verdict.committed == (if s.record.Some? then s.record.value else answer.value)
                            && after.record == Some(verdict.committed) && !lost)
      && (verdict.Rejected? ==> verdict.failure == (if answer.Err? then answer.error else Failure(Transport, true)))
      && (verdict.Rejected? ==> (lost <==> !e.failureRecorded))
      && (s.record == None && verdict.Rejected? ==>
            after.record == if answer.Ok? && e.successRecorded && e.commit == LostAfter then Some(answer.value) else None)
  {
    hide Validate;
  }

  /** The verdict is the one that this invocation leads to: a failure is the answer's own, or a transport failure after it. */
  predicate Follows(v: Verdict, i: Invocation, scope: Scope) {
    match v
    case Done(_) => Answer(i, scope).Ok?
    case Rejected(f) => f == if Answer(i, scope).Err? then Answer(i, scope).error else Failure(Transport, true)
  }

  lemma {:induction false} RunFromFollows(s: Store, log: Log, p: Plan, env: nat -> Env, t: nat, local: nat, last: Failure)
    requires t <= |p.route| && local <= p.maxAttempts && |log.invoked| == |log.verdicts|
    requires forall n :: 0 <= n < |log.verdicts| ==> Follows(log.verdicts[n], env(n).invocation, p.scope)
    ensures
      var (_, final, _) := RunFrom(s, log, p, env, t, local, last);
      |final.invoked| == |final.verdicts| && forall n :: 0 <= n < |final.verdicts| ==> Follows(final.verdicts[n], env(n).invocation, p.scope)
    decreases |p.route| - t, p.maxAttempts - local
  {
    if t < |p.route| && !(local == 0 && !Usable(p, p.route[t])) {
      if local == p.maxAttempts {
        RunFromFollows(s, log, p, env, t + 1, 0, last);
      } else {
        var n := |log.invoked|;
        var (after, verdict, lost) := Attempt(s, p.scope, KeyOf(p.route[t], n + 1), env(n));
        AttemptMeans(s, p.scope, KeyOf(p.route[t], n + 1), env(n));
        hide Attempt, Answer;
        if verdict.Rejected? && !lost && verdict.failure.retryable {
          RunFromFollows(after, Longer(log, p.route[t], verdict), p, env, t, local + 1, verdict.failure);
        }
      }
    }
  }

  /** Over a run the n-th verdict follows from the n-th invocation, and from no other. */
  lemma VerdictsFollowAnswers(s: Store, p: Plan, env: nat -> Env)
    ensures
      var (_, log, _) := Run(s, p, env);
      |log.invoked| == |log.verdicts| && forall n :: 0 <= n < |log.verdicts| ==> Follows(log.verdicts[n], env(n).invocation, p.scope)
  {
    RunFromFollows(s, Log([], []), p, env, 0, 0, Failure(ProviderUnavailable, true));
  }

  // ----- which targets are asked -----

  predicate Permitted(p: Plan, t: Target) {
    t.privacyClass == p.privacyClass && t.provider in p.providers
  }

  lemma {:induction false} RunFromAsksPermitted(s: Store, log: Log, p: Plan, env: nat -> Env, t: nat, local: nat, last: Failure)
    requires t <= |p.route| && local <= p.maxAttempts && (local > 0 && t < |p.route| ==> Permitted(p, p.route[t]))
    requires forall u | u in log.invoked :: Permitted(p, u)
    ensures
      var (_, final, outcome) := RunFrom(s, log, p, env, t, local, last);
      && (forall u | u in final.invoked :: Permitted(p, u))
      && (outcome.Misconfigured? ==> exists u :: u in p.route && !Permitted(p, u))
    decreases |p.route| - t, p.maxAttempts - local
  {
    hide Attempt;
    if t < |p.route| && !(local == 0 && !Usable(p, p.route[t])) {
      if local == p.maxAttempts {
        RunFromAsksPermitted(s, log, p, env, t + 1, 0, last);
      } else {
        var n := |log.invoked|;
        var (after, verdict, lost) := Attempt(s, p.scope, KeyOf(p.route[t], n + 1), env(n));
        if verdict.Rejected? && !lost && verdict.failure.retryable {
          RunFromAsksPermitted(after, Longer(log, p.route[t], verdict), p, env, t, local + 1, verdict.failure);
        }
      }
    } else if t < |p.route| {
      assert p.route[t] in p.route && !Permitted(p, p.route[t]);
    }
  }

  /** Only targets of the plan's privacy class and known provider are asked, and a run is misconfigured only over another. */
  lemma OnlyPermittedTargetsAreAsked(s: Store, p: Plan, env: nat -> Env)
    ensures
      var (_, log, outcome) := Run(s, p, env);
      && (forall u | u in log.invoked :: u.privacyClass == p.privacyClass && u.provider in p.providers)
      && (outcome.Misconfigured? ==> exists u :: u in p.route && !(u.privacyClass == p.privacyClass && u.provider in p.providers))
  {
    RunFromAsksPermitted(s, Log([], []), p, env, 0, 0, Failure(ProviderUnavailable, true));
  }
}
