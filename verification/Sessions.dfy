/** The sessions of one account: the database functions that write them, and the domain code that assesses one. */
module Sessions {
  import opened Prelude

  const HOUR := 3600
  const ABSOLUTE_LIFETIME := 24 * HOUR
  const INACTIVITY_LIFETIME := HOUR
  const FRESH_AUTHENTICATION := 900
  const PROVIDER_VERIFICATION := 300

  datatype Session = Session(
    token: Id, providerSession: Id, epoch: nat, created: Time, lastActivity: Time, absolute: Time, idle: Time,
    verifiedUntil: Time, providerExpires: Time, freshAt: Time, rotatedFrom: Option<Id>, revoked: Option<Time>)

  datatype Account = Account(epoch: nat, disabled: bool, bindingActive: bool, emailVerified: bool)

  datatype State = State(rows: seq<Session>, account: Account)

  datatype Error =
    | InvalidEvidence | BindingDisabled | AccountDisabled | TokenInUse | ProviderSessionInUse
    | SessionNotActive | IdentityMismatch | IntentInvalid | SessionExpired

  function Min(a: Time, b: Time): Time { if a <= b then a else b }

  // ----- the domain code -----

  datatype Reason = Revoked | IdentityDisabled | SecurityStateChanged | AbsoluteExpired | IdleExpired | ProviderExpired

  datatype Assessment = Authenticated(recent: bool, recheck: bool) | Rejected(reason: Reason)

  function Assess(s: Session, a: Account, now: Time): Assessment {
    if s.revoked.Some? then Rejected(Revoked)
    else if !a.bindingActive || !a.emailVerified then Rejected(IdentityDisabled)
    else if s.epoch != a.epoch then Rejected(SecurityStateChanged)
    else if now >= s.absolute then Rejected(AbsoluteExpired)
    else if now >= s.idle || now - s.lastActivity >= INACTIVITY_LIFETIME then Rejected(IdleExpired)
    else if now >= s.providerExpires then Rejected(ProviderExpired)
    else Authenticated(now - s.freshAt <= FRESH_AUTHENTICATION, now >= s.verifiedUntil)
  }

  // ----- the database functions -----

  function Find(rows: seq<Session>, token: Id): (r: Option<nat>)
    ensures r.Some? ==> r.value < |rows| && rows[r.value].token == token
    ensures r.None? ==> forall i :: 0 <= i < |rows| ==> rows[i].token != token
  {
    if rows == [] then None
    else if rows[|rows| - 1].token == token then Some(|rows| - 1)
    else Find(rows[..|rows| - 1], token)
  }

  /** The unique index on the provider sessions of rows that are not revoked. */
  predicate ProviderSessionTaken(rows: seq<Session>, providerSession: Id) {
    exists i :: 0 <= i < |rows| && rows[i].revoked.None? && rows[i].providerSession == providerSession
  }

  function Insert(s: State, row: Session): Result<State, Error> {
    if Find(s.rows, row.token).Some? then Err(TokenInUse)
    else if ProviderSessionTaken(s.rows, row.providerSession) then Err(ProviderSessionInUse)
    else Ok(s.(rows := s.rows + [row]))
  }

  function Started(token: Id, providerSession: Id, epoch: nat, freshAt: Time, providerExpires: Time, absolute: Time,
                   from: Option<Id>, now: Time): Session
  {
    Session(token, providerSession, epoch, now, now, absolute, Min(now + INACTIVITY_LIFETIME, absolute),
            Min(now + PROVIDER_VERIFICATION, providerExpires), providerExpires, freshAt, from, None)
  }

  function Create(s: State, token: Id, providerSession: Id, freshAt: Time, providerExpires: Time, now: Time): Result<State, Error> {
    if providerExpires <= now || freshAt > now + PROVIDER_VERIFICATION then Err(InvalidEvidence)
    else if !s.account.bindingActive || !s.account.emailVerified then Err(BindingDisabled)
    else if s.account.disabled then Err(AccountDisabled)
    else
      Insert(s, Started(token, providerSession, s.account.epoch, freshAt, providerExpires,
                        Min(now + ABSOLUTE_LIFETIME, providerExpires), None, now))
  }

  /** Whether the session function refuses a row. */
  predicate Invalid(r: Session, a: Account, now: Time) {
    r.revoked.Some? || !a.bindingActive || !a.emailVerified || a.disabled || a.epoch != r.epoch
    || now >= r.absolute || now >= r.idle || now >= r.providerExpires
  }

  function RevokeRow(r: Session, now: Time): Session {
    if r.revoked.Some? then r else r.(revoked := Some(now))
  }

  /** Authenticating refreshes the idle deadline; a refused row is revoked on the spot. */
  function Authenticate(s: State, token: Id, now: Time): (State, Option<(bool, bool)>) {
    match Find(s.rows, token)
    case None => (s, None)
    case Some(i) =>
      var r := s.rows[i];
      if Invalid(r, s.account, now) then (s.(rows := s.rows[i := RevokeRow(r, now)]), None)
      else (s.(rows := s.rows[i := r.(lastActivity := now, idle := Min(now + INACTIVITY_LIFETIME, r.absolute))]),
            Some((now - r.freshAt <= FRESH_AUTHENTICATION, now >= r.verifiedUntil)))
  }

  function MarkProvider(s: State, token: Id, active: bool, providerExpires: Time, now: Time): (State, bool) {
    match Find(s.rows, token)
    case None => (s, false)
    case Some(i) =>
      var r := s.rows[i];
      if r.revoked.Some? then (s, false)
      else if !active || providerExpires <= now then (s.(rows := s.rows[i := RevokeRow(r, now)]), true)
      else (s.(rows := s.rows[i := r.(
              providerExpires := Min(r.providerExpires, providerExpires),
              verifiedUntil := Min(now + PROVIDER_VERIFICATION, Min(r.providerExpires, providerExpires)))]), true)
  }

  function Revoke(s: State, token: Id, now: Time): State {
    match Find(s.rows, token)
    case None => s
    case Some(i) => s.(rows := s.rows[i := RevokeRow(s.rows[i], now)])
  }

  /** A completed step-up revokes the session and starts its successor, which outlives neither it nor the new evidence. */
  function StepUp(s: State, token: Id, newToken: Id, providerSession: Id, sameSubject: bool, intentOpen: bool,
                  freshAt: Time, providerExpires: Time, now: Time): Result<State, Error>
  {
    if providerExpires <= now || freshAt > now + PROVIDER_VERIFICATION then Err(InvalidEvidence)
    else match Find(s.rows, token)
      case None => Err(SessionNotActive)
      case Some(i) =>
        var r := s.rows[i];
        if r.revoked.Some? || now >= r.absolute || now >= r.idle || now >= r.providerExpires then Err(SessionNotActive)
        else if !s.account.bindingActive || !s.account.emailVerified || !sameSubject then Err(IdentityMismatch)
        else if !intentOpen then Err(IntentInvalid)
        else if Min(r.absolute, providerExpires) <= now then Err(SessionExpired)
        else Insert(s.(rows := s.rows[i := RevokeRow(r, now)]),
                    Started(newToken, providerSession, r.epoch, freshAt, providerExpires,
                            Min(r.absolute, providerExpires), Some(i), now))
  }

  // ----- runs -----

  datatype Step =
    | DoCreate(token: Id, providerSession: Id, freshAt: Time, providerExpires: Time, now: Time)
    | DoAuthenticate(token: Id, now: Time)
    | DoMark(token: Id, active: bool, providerExpires: Time, now: Time)
    | DoRevoke(token: Id, now: Time)
    | DoStepUp(token: Id, newToken: Id, providerSession: Id, sameSubject: bool, intentOpen: bool,
               freshAt: Time, providerExpires: Time, now: Time)
    | AccountChanges(account: Account)

  function Or(r: Result<State, Error>, s: State): State {
    match r
    case Ok(t) => t
    case Err(_) => s
  }

  function Apply(s: State, step: Step): State {
    match step
    case DoCreate(token, ps, at, expires, now) => Or(Create(s, token, ps, at, expires, now), s)
    case DoAuthenticate(token, now) => Authenticate(s, token, now).0
    case DoMark(token, active, expires, now) => MarkProvider(s, token, active, expires, now).0
    case DoRevoke(token, now) => Revoke(s, token, now)
    case DoStepUp(token, newToken, ps, same, open, at, expires, now) =>
      Or(StepUp(s, token, newToken, ps, same, open, at, expires, now), s)
    case AccountChanges(account) => s.(account := account)
  }

  function Run(s: State, steps: seq<Step>): State
    decreases |steps|
  {
    if steps == [] then s else Run(Apply(s, steps[0]), steps[1..])
  }

  // ----- the invariant -----

  /** The deadlines of a row, whatever the clock did. */
  predicate Deadlines(r: Session) {
    && r.idle <= r.lastActivity + INACTIVITY_LIFETIME
    && r.idle <= r.absolute
    && r.verifiedUntil <= r.providerExpires
  }

  /** A successor names an earlier, revoked row that had at least its lifetime. */
  ghost predicate RotationInv(s: State, i: Id)
    requires i < |s.rows|
  {
    s.rows[i].rotatedFrom.Some? ==>
      && s.rows[i].rotatedFrom.value < i
      && s.rows[s.rows[i].rotatedFrom.value].revoked.Some?
      && s.rows[i].absolute <= s.rows[s.rows[i].rotatedFrom.value].absolute
  }

  ghost predicate Rotations(s: State) {
    forall i :: 0 <= i < |s.rows| ==> RotationInv(s, i)
  }

  /** The session a chain of rotations started with. */
  ghost function Root(s: State, i: Id): (r: Id)
    requires Rotations(s) && i < |s.rows|
    ensures r <= i
    decreases i
  {
    assert RotationInv(s, i);
    if s.rows[i].rotatedFrom.None? then i else Root(s, s.rows[i].rotatedFrom.value)
  }

  /** The deadline of a first session is a day after it started, at most. */
  predicate FirstDay(r: Session) {
    r.rotatedFrom.None? ==> r.absolute <= r.created + ABSOLUTE_LIFETIME
  }

  ghost predicate Inv(s: State) {
    && (forall i :: 0 <= i < |s.rows| ==> Deadlines(s.rows[i]) && FirstDay(s.rows[i]))
    && (forall i, j :: 0 <= i < j < |s.rows| ==> s.rows[i].token != s.rows[j].token)
    && Rotations(s)
    && (forall i, j :: 0 <= i < j < |s.rows| && s.rows[i].revoked.None? && s.rows[j].revoked.None? ==> Root(s, i) != Root(s, j))
  }

  const EMPTY := State([], Account(1, false, true, true))

  // ----- every step keeps it -----

  /** The same rotations, with no row brought back to life: roots stay where they are. */
  lemma {:induction false} RootStays(s: State, t: State, i: Id)
    requires Rotations(s) && Rotations(t) && i < |s.rows| <= |t.rows|
    requires forall j :: 0 <= j < |s.rows| ==> t.rows[j].rotatedFrom == s.rows[j].rotatedFrom
    ensures Root(t, i) == Root(s, i)
    decreases i
  {
    assert RotationInv(s, i);
    if s.rows[i].rotatedFrom.Some? { RootStays(s, t, s.rows[i].rotatedFrom.value); }
  }

  /** A step that rewrites one row without reviving it or extending its lifetime. */
  predicate Tightens(before: Session, after: Session) {
    && after.token == before.token && after.rotatedFrom == before.rotatedFrom && after.created == before.created
    && after.absolute == before.absolute
    && (before.revoked.Some? ==> after.revoked == before.revoked)
    && (Deadlines(before) ==> Deadlines(after))
  }

  lemma UpdateKeepsInv(s: State, i: Id, row: Session)
    requires Inv(s) && i < |s.rows| && Tightens(s.rows[i], row)
    ensures Inv(s.(rows := s.rows[i := row]))
  {
    var t := s.(rows := s.rows[i := row]);
    forall j | 0 <= j < |t.rows| ensures RotationInv(t, j) { assert RotationInv(s, j); }
    forall j, k | 0 <= j < k < |t.rows| && t.rows[j].revoked.None? && t.rows[k].revoked.None? ensures Root(t, j) != Root(t, k) {
      RootStays(s, t, j);
      RootStays(s, t, k);
    }
  }

  lemma InsertKeepsInv(s: State, row: Session)
    requires Inv(s) && Deadlines(row) && FirstDay(row)
    requires row.rotatedFrom.Some? ==>
      && row.rotatedFrom.value < |s.rows| && s.rows[row.rotatedFrom.value].revoked.Some?
      && row.absolute <= s.rows[row.rotatedFrom.value].absolute
      && forall j :: 0 <= j < |s.rows| && s.rows[j].revoked.None? ==> Root(s, j) != Root(s, row.rotatedFrom.value)
    ensures Inv(Or(Insert(s, row), s))
  {
    if Insert(s, row).Ok? {
      var t := Insert(s, row).value;
      var n := |s.rows|;
      forall j | 0 <= j < |t.rows| ensures RotationInv(t, j) { assert j < n ==> RotationInv(s, j); }
      forall j | 0 <= j < n ensures Root(t, j) == Root(s, j) { RootStays(s, t, j); }
      assert Root(t, n) == if row.rotatedFrom.None? then n else Root(s, row.rotatedFrom.value);
    }
  }

  lemma StepUpKeepsInv(s: State, step: Step)
    requires Inv(s) && step.DoStepUp?
    ensures Inv(Apply(s, step))
  {
    var found := Find(s.rows, step.token);
    if found.Some? && Apply(s, step) != s {
      var i, now := found.value, step.now;
      var r := s.rows[i];
      UpdateKeepsInv(s, i, RevokeRow(r, now));
      var u := s.(rows := s.rows[i := RevokeRow(r, now)]);
      RootStays(s, u, i);
      forall j | 0 <= j < |u.rows| && u.rows[j].revoked.None? ensures Root(u, j) != Root(u, i) {
        RootStays(s, u, j);
        assert j != i && s.rows[j].revoked.None? && s.rows[i].revoked.None?;
      }
      InsertKeepsInv(u, Started(step.newToken, step.providerSession, r.epoch, step.freshAt, step.providerExpires,
                                Min(r.absolute, step.providerExpires), Some(i), now));
    }
  }

  lemma StepKeepsInv(s: State, step: Step)
    requires Inv(s)
    ensures Inv(Apply(s, step))
  {
    match step
    case DoCreate(token, ps, at, expires, now) =>
      InsertKeepsInv(s, Started(token, ps, s.account.epoch, at, expires, Min(now + ABSOLUTE_LIFETIME, expires), None, now));
    case DoAuthenticate(token, now) => KeepsRow(s, Apply(s, step), token);
    case DoMark(token, _, _, now) => KeepsRow(s, Apply(s, step), token);
    case DoRevoke(token, now) => KeepsRow(s, Apply(s, step), token);
    case DoStepUp(_, _, _, _, _, _, _, _) => StepUpKeepsInv(s, step);
    case AccountChanges(account) => AccountKeepsInv(s, account);
  }

  lemma KeepsRow(s: State, t: State, token: Id)
    requires Inv(s) && t.account == s.account
    requires match Find(s.rows, token)
             case None => t == s
             case Some(i) => |t.rows| == |s.rows| && t.rows == s.rows[i := t.rows[i]] && Tightens(s.rows[i], t.rows[i])
    ensures Inv(t)
  {
    if Find(s.rows, token).Some? {
      var i := Find(s.rows, token).value;
      UpdateKeepsInv(s, i, t.rows[i]);
      assert t == s.(rows := s.rows[i := t.rows[i]]);
    }
  }

  lemma AccountKeepsInv(s: State, account: Account)
    requires Inv(s)
    ensures Inv(s.(account := account))
  {
    var t := s.(account := account);
    forall j | 0 <= j < |t.rows| ensures RotationInv(t, j) { assert RotationInv(s, j); }
    forall j | 0 <= j < |t.rows| ensures Root(t, j) == Root(s, j) { RootStays(s, t, j); }
  }

  lemma {:induction false} RunKeepsInv(s: State, steps: seq<Step>)
    requires Inv(s)
    ensures Inv(Run(s, steps))
    decreases |steps|
  {
    hide Inv, Apply;
    if steps != [] {
      StepKeepsInv(s, steps[0]);
      RunKeepsInv(Apply(s, steps[0]), steps[1..]);
    }
  }
}
