/** What sessions promise over whole runs, and where the two readings of one session agree. */
module SessionTheorems {
  import opened Prelude
  import opened Sessions

  // ----- the domain code and the database agree -----

  /**
   * On every reachable session the two verdicts differ only for a disabled account, which the domain code does not see;
   * when both accept, they agree on freshness and on whether the provider must be asked again.
   */
  lemma VerdictsAgree(s: State, i: Id, now: Time)
    requires Inv(s) && i < |s.rows|
    ensures
      var verdict := Authenticate(s, s.rows[i].token, now).1;
      var assessment := Assess(s.rows[i], s.account, now);
      && (verdict.Some? <==> assessment.Authenticated? && !s.account.disabled)
      && (verdict.Some? ==> assessment == Authenticated(verdict.value.0, verdict.value.1))
  {
    assert Find(s.rows, s.rows[i].token) == Some(i);
    assert Deadlines(s.rows[i]);
  }

  // ----- what later states keep -----

  /** Rows stay in place, deadlines do not move out, and revocation is final. */
  ghost predicate Extends(s: State, t: State) {
    |s.rows| <= |t.rows| && forall i :: 0 <= i < |s.rows| ==> RowExtends(s.rows[i], t.rows[i])
  }

  predicate RowExtends(r: Session, u: Session) {
    && u.token == r.token && u.created == r.created && u.absolute == r.absolute && u.rotatedFrom == r.rotatedFrom
    && u.providerExpires <= r.providerExpires
    && (r.revoked.Some? ==> u == r || (u.revoked == r.revoked))
  }

  lemma StepExtends(s: State, step: Step)
    ensures Extends(s, Apply(s, step))
  {
  }

  lemma {:induction false} RunExtends(s: State, steps: seq<Step>)
    ensures Extends(s, Run(s, steps))
    decreases |steps|
  {
    if steps != [] {
      var t := Apply(s, steps[0]);
      StepExtends(s, steps[0]);
      hide Apply;
      RunExtends(t, steps[1..]);
      assert forall i :: 0 <= i < |s.rows| ==> RowExtends(s.rows[i], t.rows[i]) && RowExtends(t.rows[i], Run(t, steps[1..]).rows[i]);
    }
  }

  /** A token that was refused once is refused for ever. */
  lemma RefusedForever(s: State, i: Id, now: Time, steps: seq<Step>, later: Time)
    requires Inv(s) && i < |s.rows| && Authenticate(s, s.rows[i].token, now).1.None?
    ensures var t := Run(Authenticate(s, s.rows[i].token, now).0, steps); Authenticate(t, s.rows[i].token, later).1.None?
  {
    assert Find(s.rows, s.rows[i].token) == Some(i);
    var u := Authenticate(s, s.rows[i].token, now).0;
    StepKeepsInv(s, DoAuthenticate(s.rows[i].token, now));
    RunExtends(u, steps);
    RunKeepsInv(u, steps);
    var t := Run(u, steps);
    assert RowExtends(u.rows[i], t.rows[i]);
    FindsRow(t, i);
  }

  lemma FindsRow(s: State, i: Id)
    requires Inv(s) && i < |s.rows|
    ensures Find(s.rows, s.rows[i].token) == Some(i)
  {
  }

  // ----- rotation -----

  /** However often a session is rotated, in every reachable state at most one session of the chain is alive. */
  lemma OneLiveSessionPerChain(steps: seq<Step>, account: Account, i: Id, j: Id)
    requires var s := Run(State([], account), steps);
      i < |s.rows| && j < |s.rows| && s.rows[i].revoked.None? && s.rows[j].revoked.None?
    ensures Rotations(Run(State([], account), steps))
    ensures var s := Run(State([], account), steps); Root(s, i) == Root(s, j) ==> i == j
  {
    RunKeepsInv(State([], account), steps);
    hide Run;
  }

  /** Rotation never extends the absolute deadline. */
  lemma {:induction false} RotationNeverExtends(s: State, i: Id)
    requires Inv(s) && i < |s.rows|
    ensures s.rows[i].absolute <= s.rows[Root(s, i)].absolute <= s.rows[Root(s, i)].created + ABSOLUTE_LIFETIME
    decreases i
  {
    assert RotationInv(s, i);
    if s.rows[i].rotatedFrom.Some? {
      RotationNeverExtends(s, s.rows[i].rotatedFrom.value);
    } else {
      assert FirstDay(s.rows[i]);
    }
  }

  /** So no session of a chain authenticates later than a day after the chain began, in any reachable state. */
  lemma ChainsEndWithinADay(steps: seq<Step>, account: Account, i: Id, now: Time)
    requires var s := Run(State([], account), steps);
      i < |s.rows| && Authenticate(s, s.rows[i].token, now).1.Some?
    ensures var s := Run(State([], account), steps);
      Rotations(s) && now < s.rows[Root(s, i)].created + ABSOLUTE_LIFETIME
  {
    RunKeepsInv(State([], account), steps);
    var s := Run(State([], account), steps);
    RotationNeverExtends(s, i);
    FindsRow(s, i);
  }

  // ----- the time constraints never reject -----

  predicate TimeOrder(r: Session) {
    && r.lastActivity >= r.created && r.absolute > r.created
    && r.created < r.idle <= r.absolute
    && r.created <= r.verifiedUntil <= r.providerExpires && r.providerExpires > r.created
    && r.freshAt <= r.created + PROVIDER_VERIFICATION
  }

  function TimeOf(step: Step): Option<Time> {
    match step
    case DoCreate(_, _, _, _, now) => Some(now)
    case DoAuthenticate(_, now) => Some(now)
    case DoMark(_, _, _, now) => Some(now)
    case DoRevoke(_, now) => Some(now)
    case DoStepUp(_, _, _, _, _, _, _, now) => Some(now)
    case AccountChanges(_) => None
  }

  /** With a clock that has not run back behind a row's creation, every written row satisfies the time constraints. */
  lemma StepKeepsTimeOrder(s: State, step: Step)
    requires forall i :: 0 <= i < |s.rows| ==> TimeOrder(s.rows[i])
    requires TimeOf(step).Some? ==> forall i :: 0 <= i < |s.rows| ==> s.rows[i].created <= TimeOf(step).value
    ensures var t := Apply(s, step); forall i :: 0 <= i < |t.rows| ==> TimeOrder(t.rows[i])
  {
    var t := Apply(s, step);
    forall i | 0 <= i < |t.rows| ensures TimeOrder(t.rows[i]) {
      if i < |s.rows| { assert TimeOrder(s.rows[i]); }
    }
  }
}
