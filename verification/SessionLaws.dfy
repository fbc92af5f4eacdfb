/** When a session is accepted after each thing that can happen to it, by its deadlines alone. */
module SessionLaws {
  import opened Prelude
  import opened Sessions
  import opened SessionTheorems

  /** Authenticating with the token at `t` is accepted. */
  predicate Accepted(s: State, token: Id, t: Time) {
    Authenticate(s, token, t).1.Some?
  }

  predicate AccountAllows(a: Account) {
    a.bindingActive && a.emailVerified && !a.disabled
  }

  /** A session is accepted exactly while it is not revoked, its account allows it, and none of three deadlines has come. */
  lemma AcceptedExactlyWhen(s: State, i: Id, t: Time)
    requires Inv(s) && i < |s.rows|
    ensures
      var row, verdict := s.rows[i], Authenticate(s, s.rows[i].token, t).1;
      && (Accepted(s, row.token, t) <==>
            row.revoked == None && AccountAllows(s.account) && row.epoch == s.account.epoch
            && t < row.absolute && t < row.idle && t < row.providerExpires)
      && (verdict.Some? ==> (verdict.value.0 <==> t <= row.freshAt + 900) && (verdict.value.1 <==> t >= row.verifiedUntil))
  {
    FindsRow(s, i);
  }

  /** The token of an appended row is found there. */
  lemma FindsAppended(s: State, row: Session)
    ensures Find(s.rows + [row], row.token) == Some(|s.rows|)
  {
  }

  predicate TokenFree(s: State, token: Id) {
    forall i :: 0 <= i < |s.rows| ==> s.rows[i].token != token
  }

  /**
   * A session is created exactly for an account that allows it, on fresh evidence and unused tokens. It is then accepted
   * for an hour, within a day, and while the provider's session lasts; it is asked to be verified again after five minutes.
   */
  lemma CreateMeans(s: State, token: Id, providerSession: Id, freshAt: Time, providerExpires: Time, now: Time, t: Time)
    ensures
      var r := Create(s, token, providerSession, freshAt, providerExpires, now);
      && (r.Ok? <==> now < providerExpires && freshAt <= now + 300 && AccountAllows(s.account) && TokenFree(s, token)
                     && forall i :: 0 <= i < |s.rows| && s.rows[i].revoked == None ==> s.rows[i].providerSession != providerSession)
      && (r.Ok? ==>
            var verdict := Authenticate(r.value, token, t).1;
            && (verdict.Some? <==> t < now + 3600 && t < now + 86400 && t < providerExpires)
            && (verdict.Some? ==> (verdict.value.0 <==> t <= freshAt + 900) && (verdict.value.1 <==> t >= now + 300)))
  {
    var r := Create(s, token, providerSession, freshAt, providerExpires, now);
    if r.Ok? { FindsAppended(s, r.value.rows[|s.rows|]); }
    var found := Find(s.rows, token);
    hide Find;
  }

  /** An accepted request moves the idle deadline to an hour from then, and no other. */
  lemma AcceptanceSlides(s: State, i: Id, now: Time, t: Time)
    requires Inv(s) && i < |s.rows| && Accepted(s, s.rows[i].token, now)
    ensures
      var after := Authenticate(s, s.rows[i].token, now).0;
      Accepted(after, s.rows[i].token, t) <==> t < now + 3600 && t < s.rows[i].absolute && t < s.rows[i].providerExpires
  {
    FindsRow(s, i);
    var after := Authenticate(s, s.rows[i].token, now).0;
    StepKeepsInv(s, DoAuthenticate(s.rows[i].token, now));
    FindsRow(after, i);
    hide Find, Inv;
  }

  /** What the provider says: an active session ends no later than it says and needs no new check for five minutes. */
  lemma MarkMeans(s: State, i: Id, active: bool, providerExpires: Time, now: Time, t: Time)
    requires Inv(s) && i < |s.rows| && s.rows[i].revoked == None
    ensures
      var token := s.rows[i].token;
      var (after, marked) := MarkProvider(s, token, active, providerExpires, now);
      var verdict := Authenticate(after, token, t).1;
      && marked
      && (!active || providerExpires <= now ==> verdict == None)
      && (active && now < providerExpires ==>
            && (verdict.Some? <==> Accepted(s, token, t) && t < providerExpires)
            && (verdict.Some? ==> (verdict.value.1 <==> t >= now + 300)))
  {
    FindsRow(s, i);
    StepKeepsInv(s, DoMark(s.rows[i].token, active, providerExpires, now));
    FindsRow(MarkProvider(s, s.rows[i].token, active, providerExpires, now).0, i);
    hide Find, Inv;
  }

  /** A revoked session is refused at any time. */
  lemma RevokeMeans(s: State, i: Id, now: Time, t: Time)
    requires Inv(s) && i < |s.rows|
    ensures !Accepted(Revoke(s, s.rows[i].token, now), s.rows[i].token, t)
  {
    FindsRow(s, i);
    StepKeepsInv(s, DoRevoke(s.rows[i].token, now));
    FindsRow(Revoke(s, s.rows[i].token, now), i);
    hide Find, Inv;
  }

  /** A step-up succeeds exactly for a live session of the same subject with an open intent, on fresh evidence and unused tokens. */
  lemma StepUpExactlyWhen(s: State, i: Id, newToken: Id, providerSession: Id, sameSubject: bool, intentOpen: bool,
                          freshAt: Time, providerExpires: Time, now: Time)
    requires Inv(s) && i < |s.rows|
    ensures
      var row := s.rows[i];
      StepUp(s, row.token, newToken, providerSession, sameSubject, intentOpen, freshAt, providerExpires, now).Ok? <==>
        && now < providerExpires && freshAt <= now + 300 && row.revoked == None
        && now < row.absolute && now < row.idle && now < row.providerExpires
        && s.account.bindingActive && s.account.emailVerified && sameSubject && intentOpen && TokenFree(s, newToken)
        && forall j :: 0 <= j < |s.rows| && j != i && s.rows[j].revoked == None ==> s.rows[j].providerSession != providerSession
  {
    FindsRow(s, i);
    hide Inv;
    var revoked := s.(rows := s.rows[i := RevokeRow(s.rows[i], now)]);
    var found := Find(revoked.rows, newToken);
    assert forall j :: 0 <= j < |s.rows| ==> revoked.rows[j].token == s.rows[j].token;
    hide Find;
  }

  /**
   * From then on the old token is refused; the new one lasts an hour, within the old absolute deadline and the new
   * provider session, and only while the account is at the epoch of the old one.
   */
  lemma StepUpMeans(s: State, i: Id, newToken: Id, providerSession: Id, sameSubject: bool, intentOpen: bool,
                    freshAt: Time, providerExpires: Time, now: Time, t: Time)
    requires Inv(s) && i < |s.rows|
    requires StepUp(s, s.rows[i].token, newToken, providerSession, sameSubject, intentOpen, freshAt, providerExpires, now).Ok?
    ensures
      var row := s.rows[i];
      var after := StepUp(s, row.token, newToken, providerSession, sameSubject, intentOpen, freshAt, providerExpires, now).value;
      var verdict := Authenticate(after, newToken, t).1;
      && !Accepted(after, row.token, t)
      && (verdict.Some? <==> t < now + 3600 && t < row.absolute && t < providerExpires
                             && !s.account.disabled && row.epoch == s.account.epoch)
      && (verdict.Some? ==> (verdict.value.0 <==> t <= freshAt + 900))
  {
    FindsRow(s, i);
    var step := DoStepUp(s.rows[i].token, newToken, providerSession, sameSubject, intentOpen, freshAt, providerExpires, now);
    StepKeepsInv(s, step);
    var after := Apply(s, step);
    var revoked := s.(rows := s.rows[i := RevokeRow(s.rows[i], now)]);
    hide Inv;
    FindsAppended(revoked, after.rows[|s.rows|]);
    FindsRow(after, i);
    hide Find;
  }
}
