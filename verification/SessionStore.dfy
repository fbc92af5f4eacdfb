/** The session rows as the database functions update them. */
module SessionStore {
  import opened Prelude
  import S = Sessions

  class Store {
    var rows: seq<S.Session>
    var account: S.Account

    ghost function State(): S.State
      reads this
    {
      S.State(rows, account)
    }

    constructor (account: S.Account)
      ensures State() == S.State([], account)
    {
      rows, this.account := [], account;
    }

    method Find(token: Id) returns (found: Option<nat>)
      ensures found == S.Find(rows, token)
    {
      var i := |rows|;
      assert rows[..i] == rows;
      while i > 0
        invariant 0 <= i <= |rows|
        invariant S.Find(rows, token) == S.Find(rows[..i], token)
      {
        assert rows[..i][..i - 1] == rows[..i - 1];
        if rows[i - 1].token == token { return Some(i - 1); }
        i := i - 1;
      }
      found := None;
    }

    method Insert(row: S.Session) returns (r: Result<(), S.Error>)
      modifies `rows
      ensures match S.Insert(old(State()), row)
              case Ok(s) => r == Ok(()) && State() == s
              case Err(e) => r == Err(e) && State() == old(State())
    {
      var found := Find(row.token);
      if found.Some? { return Err(S.TokenInUse); }
      for i := 0 to |rows|
        invariant rows == old(rows)
        invariant forall j :: 0 <= j < i ==> !(rows[j].revoked.None? && rows[j].providerSession == row.providerSession)
      {
        if rows[i].revoked.None? && rows[i].providerSession == row.providerSession { return Err(S.ProviderSessionInUse); }
      }
      rows := rows + [row];
      r := Ok(());
    }

    method Create(token: Id, providerSession: Id, freshAt: Time, providerExpires: Time, now: Time) returns (r: Result<(), S.Error>)
      modifies `rows
      ensures match S.Create(old(State()), token, providerSession, freshAt, providerExpires, now)
              case Ok(s) => r == Ok(()) && State() == s
              case Err(e) => r == Err(e) && State() == old(State())
    {
      if providerExpires <= now || freshAt > now + S.PROVIDER_VERIFICATION { return Err(S.InvalidEvidence); }
      if !account.bindingActive || !account.emailVerified { return Err(S.BindingDisabled); }
      if account.disabled { return Err(S.AccountDisabled); }
      var absolute := S.Min(now + S.ABSOLUTE_LIFETIME, providerExpires);
      r := Insert(S.Session(token, providerSession, account.epoch, now, now, absolute,
                            S.Min(now + S.INACTIVITY_LIFETIME, absolute),
                            S.Min(now + S.PROVIDER_VERIFICATION, providerExpires), providerExpires, freshAt, None, None));
    }

    method Authenticate(token: Id, now: Time) returns (r: Option<(bool, bool)>)
      modifies `rows
      ensures (State(), r) == S.Authenticate(old(State()), token, now)
    {
      var found := Find(token);
      if found.None? { return None; }
      var i := found.value;
      var row := rows[i];
      if row.revoked.Some? || !account.bindingActive || !account.emailVerified || account.disabled
         || account.epoch != row.epoch || now >= row.absolute || now >= row.idle || now >= row.providerExpires {
        rows := rows[i := row.(revoked := if row.revoked.Some? then row.revoked else Some(now))];
        return None;
      }
      rows := rows[i := row.(lastActivity := now, idle := S.Min(now + S.INACTIVITY_LIFETIME, row.absolute))];
      r := Some((now - row.freshAt <= S.FRESH_AUTHENTICATION, now >= row.verifiedUntil));
    }

    method MarkProvider(token: Id, active: bool, providerExpires: Time, now: Time) returns (found: bool)
      modifies `rows
      ensures (State(), found) == S.MarkProvider(old(State()), token, active, providerExpires, now)
    {
      var at := Find(token);
      if at.None? || rows[at.value].revoked.Some? { return false; }
      var row := rows[at.value];
      if !active || providerExpires <= now {
        rows := rows[at.value := row.(revoked := Some(now))];
      } else {
        var expires := S.Min(row.providerExpires, providerExpires);
        rows := rows[at.value := row.(providerExpires := expires, verifiedUntil := S.Min(now + S.PROVIDER_VERIFICATION, expires))];
      }
      found := true;
    }

    method Revoke(token: Id, now: Time)
      modifies `rows
      ensures State() == S.Revoke(old(State()), token, now)
    {
      var at := Find(token);
      if at.Some? {
        var row := rows[at.value];
        rows := rows[at.value := row.(revoked := if row.revoked.Some? then row.revoked else Some(now))];
      }
    }

    /** A failed insert undoes the revocation of the old row. */
    method StepUp(token: Id, newToken: Id, providerSession: Id, sameSubject: bool, intentOpen: bool,
                  freshAt: Time, providerExpires: Time, now: Time) returns (r: Result<(), S.Error>)
      modifies `rows
      ensures match S.StepUp(old(State()), token, newToken, providerSession, sameSubject, intentOpen, freshAt, providerExpires, now)
              case Ok(s) => r == Ok(()) && State() == s
              case Err(e) => r == Err(e) && State() == old(State())
    {
      if providerExpires <= now || freshAt > now + S.PROVIDER_VERIFICATION { return Err(S.InvalidEvidence); }
      var found := Find(token);
      if found.None? { return Err(S.SessionNotActive); }
      var i := found.value;
      var row := rows[i];
      if row.revoked.Some? || now >= row.absolute || now >= row.idle || now >= row.providerExpires { return Err(S.SessionNotActive); }
      if !account.bindingActive || !account.emailVerified || !sameSubject { return Err(S.IdentityMismatch); }
      if !intentOpen { return Err(S.IntentInvalid); }
      var absolute := S.Min(row.absolute, providerExpires);
      if absolute <= now { return Err(S.SessionExpired); }
      var before := rows;
      rows := rows[i := row.(revoked := Some(now))];
      r := Insert(S.Session(newToken, providerSession, row.epoch, now, now, absolute,
                            S.Min(now + S.INACTIVITY_LIFETIME, absolute),
                            S.Min(now + S.PROVIDER_VERIFICATION, providerExpires), providerExpires, freshAt, Some(i), None));
      if r.Err? { rows := before; }
    }
  }
}
