/**
 * Reconciling one candidate: a deterministic answer commits at once, otherwise the models of a route are tried in turn,
 * each a bounded number of times, until a validated result commits or a failure is not worth retrying.
 */
module ReconcileLoop {
  import opened Prelude
  import R = Reconciliation

  // ----- validated results -----

  datatype Scope = Scope(semanticIdentity: string, allowedEvidence: seq<Id>)

  /** A model's answer after its shape has been read; `None` stands for a value outside its closed list or type. */
  datatype Output = Output(
    exactFields: bool, classification: Option<R.Classification>, semanticIdentity: string, evidence: Option<seq<Id>>,
    reasonsKnown: bool, conflict: Option<bool>, uncertain: Option<bool>, justificationShort: bool, assertion: Option<string>)

  datatype ResultValue = ResultValue(
    classification: R.Classification, semanticIdentity: string, evidence: set<Id>, conflict: bool, uncertain: bool,
    assertion: Option<string>)

  /** `None` is a validation error. The duplicate-free sorted list of references is their set. */
  function Validate(o: Output, scope: Scope): Option<ResultValue> {
    if !o.exactFields || o.classification.None? || o.semanticIdentity != scope.semanticIdentity then None
    else if o.evidence.None? || exists id :: id in o.evidence.value && id !in scope.allowedEvidence then None
    else if !o.reasonsKnown || o.conflict.None? || o.uncertain.None? then None
    else if o.conflict.value != o.classification.value.Conflicting? || o.uncertain.value != o.classification.value.Uncertain? then None
    else if !o.justificationShort then None
    else if !o.classification.value.Unchanged? && o.assertion.None? then None
    else Some(ResultValue(
      o.classification.value, scope.semanticIdentity, (set id | id in o.evidence.value), o.conflict.value, o.uncertain.value,
      if o.classification.value.Unchanged? then None else o.assertion))
  }

  /** What a result must be to be committed. */
  predicate InScope(r: ResultValue, scope: Scope) {
    && r.semanticIdentity == scope.semanticIdentity
    && (forall id | id in r.evidence :: id in scope.allowedEvidence)
    && r.conflict == r.classification.Conflicting? && r.uncertain == r.classification.Uncertain?
    && (r.classification.Unchanged? <==> r.assertion.None?)
  }

  lemma ValidatedIsInScope(o: Output, scope: Scope)
    requires Validate(o, scope).Some?
    ensures InScope(Validate(o, scope).value, scope)
  {
  }

  // ----- answers that need no model -----

  /** `candidate` is the normal form of the candidate's assertion, or `None` when normalising it throws. */
  datatype Comparison = Comparison(
    semanticIdentity: string, candidate: Option<string>, candidateHash: nat, duplicate: bool,
    current: Option<string>, currentHash: Option<nat>, knownHistorical: bool, authorityEffective: bool,
    evidenceRequired: bool, evidence: seq<Id>, activeConflict: bool, activeUncertainty: bool)

  datatype Decision = Undecided | Decide(result: ResultValue) | CandidateInvalid

  /** Only an answer that carries the assertion normalises it. */
  function Decided(c: Comparison, classification: R.Classification): Decision {
    if !classification.Unchanged? && c.candidate.None? then CandidateInvalid
    else Decide(ResultValue(
      classification, c.semanticIdentity, (set id | id in c.evidence), classification.Conflicting?, classification.Uncertain?,
      if classification.Unchanged? then None else c.candidate))
  }

  /** The fixed order of the deterministic rules. */
  function Deterministic(c: Comparison): Decision {
    if c.duplicate then Decided(c, R.Unchanged)
    else if c.currentHash.Some? && c.candidateHash == c.currentHash.value then Decided(c, R.Unchanged)
    else if !c.authorityEffective then Decided(c, R.Uncertain)
    else if c.evidenceRequired && c.evidence == [] then Decided(c, R.Uncertain)
    else if c.activeConflict then Decided(c, R.Conflicting)
    else if c.activeUncertainty then Decided(c, R.Uncertain)
    else if c.knownHistorical then Decided(c, R.Superseded)
    else if c.current.None? then Decided(c, R.New)
    else Undecided
  }

  function ScopeOf(c: Comparison): Scope { Scope(c.semanticIdentity, c.evidence) }

  /**
   * A model is asked only about a new, different, qualified and undisputed candidate for an identity that has a current
   * record; every other answer is in scope and consistent as it stands, and none of them changes or obsoletes a record.
   * An answer other than `UNCHANGED` needs the candidate's normal form, so a candidate without one is refused there.
   */
  lemma ModelsAreAskedOnlyWhenNeeded(c: Comparison)
    ensures
      var known := c.duplicate || c.currentHash == Some(c.candidateHash);
      && (Deterministic(c).Undecided? <==>
            && !known && c.authorityEffective && (c.evidenceRequired ==> c.evidence != [])
            && !c.activeConflict && !c.activeUncertainty && !c.knownHistorical && c.current.Some?)
      && (Deterministic(c).CandidateInvalid? <==> !known && !Deterministic(c).Undecided? && c.candidate.None?)
      && (Deterministic(c).Decide? ==>
            && InScope(Deterministic(c).result, ScopeOf(c))
            && (Deterministic(c).result.classification.Unchanged? <==> known)
            && !Deterministic(c).result.classification.Changed? && !Deterministic(c).result.classification.Obsolete?)
  {
  }

  // ----- the world of one attempt -----

  datatype Code =
    | Transport | RateLimited | ProviderUnavailable | MalformedOutput | SchemaValidation | Refusal | OtherProviderCode

  datatype Failure = Failure(code: Code, retryable: bool)

  datatype Invocation =
    | ProviderFails(failure: Failure)
    | CallThrows
    | Replies(refusal: bool, usageValid: bool, costThrows: bool, output: Output)

  /** The repository may fail before doing anything, refuse a stale basis, or lose the reply to a commit that went through. */
  datatype CommitReply = Delivered | RefusedAsStale | LostBefore | LostAfter

  datatype Env = Env(invocation: Invocation, successRecorded: bool, commit: CommitReply, failureRecorded: bool)

  datatype Target = Target(provider: Id, model: Id, privacyClass: nat)
  datatype Key = Key(provider: Id, model: Id, attempt: nat)
  datatype Row = Succeeded | Failed(code: Code)

  datatype Verdict = Done(committed: ResultValue) | Rejected(failure: Failure)

  // ----- the repository -----

  /** The invocation ledger, and the reconciliation recorded for this candidate and basis. */
  datatype Store = Store(ledger: map<Key, Row>, record: Option<ResultValue>)

  /** `insert ... on conflict do nothing` */
  function Insert(ledger: map<Key, Row>, k: Key, r: Row): map<Key, Row> {
    if k in ledger then ledger else ledger[k := r]
  }

  /** The record after a commit call, and the result that the reply refers to when a reply arrives. */
  function CommitCall(record: Option<ResultValue>, result: ResultValue, reply: CommitReply): (Option<ResultValue>, Option<ResultValue>) {
    if reply.LostBefore? || (record.None? && reply.RefusedAsStale?) then (record, None)
    else
      var after := if record.Some? then record.value else result;
      (Some(after), if reply.LostAfter? then None else Some(after))
  }

  // ----- one attempt -----

  /** What happens up to the point where a validated result is in hand. */
  function Answer(i: Invocation, scope: Scope): Result<ResultValue, Failure> {
    match i
    case ProviderFails(failure) => Err(failure)
    case CallThrows => Err(Failure(Transport, true))
    case Replies(refusal, usageValid, costThrows, output) =>
      if refusal then Err(Failure(Refusal, false))
      else if !usageValid then Err(Failure(MalformedOutput, false))
      else if costThrows then Err(Failure(Transport, true))
      else match Validate(output, scope)
        case None => Err(Failure(SchemaValidation, false))
        case Some(r) => Ok(r)
  }

  /** An attempt's effect on the repository, its verdict, and whether recording a failure itself failed. */
  function Attempt(s: Store, scope: Scope, k: Key, e: Env): (Store, Verdict, bool) {
    match Answer(e.invocation, scope)
    case Err(f) => Reject(s, k, e, f)
    case Ok(result) =>
      if !e.successRecorded then Reject(s, k, e, Failure(Transport, true))
      else
        var recorded := s.(ledger := Insert(s.ledger, k, Succeeded));
        var (record, reply) := CommitCall(s.record, result, e.commit);
        if reply.Some? then (recorded.(record := record), Done(reply.value), false)
        else Reject(recorded.(record := record), k, e, Failure(Transport, true))
  }

  function Reject(s: Store, k: Key, e: Env, f: Failure): (Store, Verdict, bool) {
    if e.failureRecorded then (s.(ledger := Insert(s.ledger, k, Failed(f.code))), Rejected(f), false)
    else (s, Rejected(f), true)
  }

  // ----- the whole loop -----

  datatype Plan = Plan(route: seq<Target>, maxAttempts: nat, privacyClass: nat, providers: set<Id>, scope: Scope)

  datatype Outcome = Committed(result: ResultValue) | Thrown(failure: Failure) | Misconfigured | RepositoryFailed | InvalidCandidate

  /** A log of the attempts made so far: what was invoked and how it ended. */
  datatype Log = Log(invoked: seq<Target>, verdicts: seq<Verdict>)

  predicate Usable(p: Plan, t: Target) {
    t.privacyClass == p.privacyClass && t.provider in p.providers
  }

  function KeyOf(t: Target, attempt: nat): Key { Key(t.provider, t.model, attempt) }

  /** The run from attempt `local` of target `t` on, after `|log.invoked|` attempts. */
  function RunFrom(s: Store, log: Log, p: Plan, env: nat -> Env, t: nat, local: nat, last: Failure): (Store, Log, Outcome)
    requires t <= |p.route| && local <= p.maxAttempts
    decreases |p.route| - t, p.maxAttempts - local
  {
    if t == |p.route| then (s, log, Thrown(last))
    else if local == 0 && !Usable(p, p.route[t]) then (s, log, Misconfigured)
    else if local == p.maxAttempts then RunFrom(s, log, p, env, t + 1, 0, last)
    else
      var n := |log.invoked|;
      var (after, verdict, lost) := Attempt(s, p.scope, KeyOf(p.route[t], n + 1), env(n));
      var longer := Log(log.invoked + [p.route[t]], log.verdicts + [verdict]);
      if verdict.Done? then (after, longer, Committed(verdict.committed))
      else if lost then (after, longer, RepositoryFailed)
      else if !verdict.failure.retryable then (after, longer, Thrown(verdict.failure))
      else RunFrom(after, longer, p, env, t, local + 1, verdict.failure)
  }

  function Run(s: Store, p: Plan, env: nat -> Env): (Store, Log, Outcome) {
    RunFrom(s, Log([], []), p, env, 0, 0, Failure(ProviderUnavailable, true))
  }

  /** The whole service call: a deterministic answer commits at once, with a failed commit passed on to the caller. */
  function Reconciled(s: Store, c: Comparison, reply: CommitReply, p: Plan, env: nat -> Env): (Store, Log, Outcome) {
    match Deterministic(c)
    case Undecided => Run(s, p.(scope := ScopeOf(c)), env)
    case CandidateInvalid => (s, Log([], []), InvalidCandidate)
    case Decide(result) =>
      var (record, answer) := CommitCall(s.record, result, reply);
      (s.(record := record), Log([], []), if answer.Some? then Committed(answer.value) else RepositoryFailed)
  }

  // ----- the service -----

  class Repository {
    var ledger: map<Key, Row>
    var record: Option<ResultValue>

    ghost function Rows(): Store
      reads this
    {
      Store(ledger, record)
    }

    constructor (known: Option<ResultValue>)
      ensures Rows() == Store(map[], known)
    {
      ledger, record := map[], known;
    }

    method RecordInvocation(k: Key, row: Row, reachable: bool) returns (ok: bool)
      modifies `ledger
      ensures ok == reachable && ledger == if reachable then Insert(old(ledger), k, row) else old(ledger)
    {
      if reachable && k !in ledger { ledger := ledger[k := row]; }
      ok := reachable;
    }

    method Commit(result: ResultValue, reply: CommitReply) returns (r: Option<ResultValue>)
      modifies `record
      ensures (record, r) == CommitCall(old(record), result, reply)
    {
      if reply.LostBefore? { return None; }
      if record.None? {
        if reply.RefusedAsStale? { return None; }
        record := Some(result);
      }
      r := if reply.LostAfter? then None else record;
    }

    /** The body of one pass of the inner loop, with its handler. */
    method TryTarget(scope: Scope, k: Key, e: Env) returns (verdict: Verdict, lost: bool)
      modifies this
      ensures (Rows(), verdict, lost) == Attempt(old(Rows()), scope, k, e)
    {
      var answer := Answer(e.invocation, scope);
      var failure := Failure(Transport, true);
      if answer.Err? {
        failure := answer.error;
      } else {
        var recorded := RecordInvocation(k, Succeeded, e.successRecorded);
        if recorded {
          var committed := Commit(answer.value, e.commit);
          if committed.Some? { return Done(committed.value), false; }
        }
      }
      var noted := RecordInvocation(k, Failed(failure.code), e.failureRecorded);
      verdict, lost := Rejected(failure), !noted;
    }

    /** The nested loops over the route and the attempts on each target. */
    method Reconcile(p: Plan, env: nat -> Env) returns (log: Log, outcome: Outcome)
      modifies this
      ensures (Rows(), log, outcome) == Run(old(Rows()), p, env)
    {
      ghost var start := Rows();
      var last := Failure(ProviderUnavailable, true);
      log := Log([], []);
      var t := 0;
      while t < |p.route|
        invariant 0 <= t <= |p.route|
        invariant Run(start, p, env) == RunFrom(Rows(), log, p, env, t, 0, last)
      {
        var target := p.route[t];
        if target.privacyClass != p.privacyClass || target.provider !in p.providers { return log, Misconfigured; }
        var local := 0;
        while local < p.maxAttempts
          invariant 0 <= local <= p.maxAttempts
          invariant Run(start, p, env) == RunFrom(Rows(), log, p, env, t, local, last)
        {
          var attempt := |log.invoked| + 1;
          var verdict, lost := TryTarget(p.scope, KeyOf(target, attempt), env(attempt - 1));
          log := Log(log.invoked + [target], log.verdicts + [verdict]);
          if verdict.Done? { return log, Committed(verdict.committed); }
          if lost { return log, RepositoryFailed; }
          last := verdict.failure;
          if !last.retryable { return log, Thrown(last); }
          local := local + 1;
        }
        t := t + 1;
      }
      outcome := Thrown(last);
    }

    method ReconcileCandidate(c: Comparison, reply: CommitReply, p: Plan, env: nat -> Env) returns (log: Log, outcome: Outcome)
      modifies this
      ensures (Rows(), log, outcome) == Reconciled(old(Rows()), c, reply, p, env)
    {
      var deterministic := Deterministic(c);
      if deterministic.CandidateInvalid? { return Log([], []), InvalidCandidate; }
      if deterministic.Decide? {
        var committed := Commit(deterministic.result, reply);
        return Log([], []), if committed.Some? then Committed(committed.value) else RepositoryFailed;
      }
      log, outcome := Reconcile(p.(scope := ScopeOf(c)), env);
    }
  }
}
