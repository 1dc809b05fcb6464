/**
 How long a refresh may pause between checking the old token and signing the new one before
 the new token outlives the lifetimes of the two, added.
 */
module AuthRuns {
  import opened Wrappers
  import opened Base64
  import opened Schema
  import opened Auth
  import opened AuthInvariant
  import opened AuthTheorems
  import opened AuthTokens
  import Password
  import Runs

  /** One registration so far, call 0, at some stage. */
  function Registering(call: Call, users: Users): State {
    INIT.(calls := map[0 := call], users := users)
  }

  lemma Reaches(cfg: Config, s: State, step: Step, next: State)
    requires Reachable(cfg, s) && Enabled(cfg, s, step) && Apply(cfg, s, step) == next
    ensures Reachable(cfg, next)
  {
    Goes(cfg, INIT, s, step);
  }

  lemma ValidatedReachable(cfg: Config, firstName: string, lastName: string, email: string, password: Bytes)
    requires Submitted(cfg, firstName, lastName, email, password).Validated?
    ensures Reachable(cfg, Registering(Submitted(cfg, firstName, lastName, email, password), map[]))
  {
    var call := Submitted(cfg, firstName, lastName, email, password);
    Runs.Stays(Next(cfg), INIT);
    Reaches(cfg, INIT, Submit(0, firstName, lastName, email, password), Registering(call, map[]));
  }

  lemma LookedUpReachable(cfg: Config, reg: Registration)
    requires Reachable(cfg, Registering(Validated(reg), map[]))
    ensures Reachable(cfg, Registering(LookedUp(reg), map[]))
  {
    Reaches(cfg, Registering(Validated(reg), map[]), Lookup(0, false), Registering(LookedUp(reg), map[]));
  }

  lemma HashedReachable(cfg: Config, reg: Registration, salt: Bytes)
    requires Reachable(cfg, Registering(LookedUp(reg), map[])) && |salt| == Password.DEFAULT_PARAMS.saltLen
    ensures Reachable(cfg, Registering(Hashed(reg, StoredHash(cfg, reg.password, salt)), map[]))
  {
    var hashed := Hashed(reg, StoredHash(cfg, reg.password, salt));
    Reaches(cfg, Registering(LookedUp(reg), map[]), Hash(0, Some(salt)), Registering(hashed, map[]));
  }

  /** Call 0 has registered `uid`, and nothing else has happened. */
  function OneUser(reg: Registration, hash: string, uid: Uid): State {
    Registering(Created(reg, uid), map[uid := Row(reg, hash)]).(emitted := [uid])
  }

  lemma CreatedReachable(cfg: Config, reg: Registration, hash: string, uid: Uid)
    requires Reachable(cfg, Registering(Hashed(reg, hash), map[])) && Fits(Row(reg, hash)) && uid != ""
    ensures Reachable(cfg, OneUser(reg, hash, uid))
  {
    var inserted := Registering(Inserted(reg, uid), map[uid := Row(reg, hash)]);
    Reaches(cfg, Registering(Hashed(reg, hash), map[]), Insert(0, uid, false), inserted);
    Reaches(cfg, inserted, Announce(0), OneUser(reg, hash, uid));
  }

  /** Some registration passes validation and fits its columns. */
  ghost predicate CanRegister(cfg: Config) {
    exists firstName, lastName, email, password ::
      && Submitted(cfg, firstName, lastName, email, password).Validated?
      && Fits(Row(Submitted(cfg, firstName, lastName, email, password).reg, ""))
  }

  /** With the ASCII character classes, for one, somebody can register. */
  lemma AsciiCanRegister(cfg: Config)
    requires cfg.chars == CharTable(AsciiLower, AsciiSpace)
    ensures CanRegister(cfg)
  {
    var t := cfg.chars;
    var pw := seq(8, i => 0);
    assert Lower(t, "a@b") == "a@b" by {
      LowerAt(t, "a@b");
    }
    assert Trim(t, "a") == "a" && Trim(t, "a@b") == "a@b" && Trim(t, "") == "";
    assert Submitted(cfg, "a", "", "a@b", pw) == Validated(Registration("a", "", "a@b", pw));
  }

  lemma UserReachable(cfg: Config, uid: Uid) returns (s: State)
    requires ConfigOk(cfg) && CanRegister(cfg) && uid != ""
    ensures Reachable(cfg, s) && s.calls.Keys == {0} && s.calls[0].Created? && s.calls[0].uid == uid
    ensures s.logins == [] && s.renewals == [] && s.clock == 0
  {
    var firstName, lastName, email, password :|
      && Submitted(cfg, firstName, lastName, email, password).Validated?
      && Fits(Row(Submitted(cfg, firstName, lastName, email, password).reg, ""));
    var reg := Submitted(cfg, firstName, lastName, email, password).reg;
    var salt: Bytes := seq(Password.DEFAULT_PARAMS.saltLen, i => 0);
    var hash := StoredHash(cfg, reg.password, salt);
    StoredHashSize(cfg, hash, reg.password);
    ValidatedReachable(cfg, firstName, lastName, email, password);
    LookedUpReachable(cfg, reg);
    HashedReachable(cfg, reg, salt);
    CreatedReachable(cfg, reg, hash, uid);
    s := OneUser(reg, hash, uid);
  }

  lemma CheckedReachable(cfg: Config, s: State, uid: Uid)
    requires ConfigOk(cfg) && Reachable(cfg, s) && s.calls.Keys == {0} && s.calls[0].Created? && s.calls[0].uid == uid
    ensures Reachable(cfg, At(s, 1, Checked(uid)))
  {
    var reg := s.calls[0].reg;
    CallAlwaysOk(cfg, s, 0);
    RegisteredLogsIn(cfg, s, 0, reg.email, Some(uid));
    Reaches(cfg, s, SubmitLogin(1, reg.email, reg.password, Some(uid)), At(s, 1, Checked(uid)));
  }

  lemma LoggedInOnce(cfg: Config, s: State, uid: Uid) returns (t: State, login: Login)
    requires ConfigOk(cfg) && Reachable(cfg, s) && s.calls.Keys == {0} && s.calls[0].Created? && s.calls[0].uid == uid
    requires s.logins == [] && s.renewals == [] && s.clock == 0
    ensures Reachable(cfg, t) && login == Login(uid, 0, 0) && RefreshOf(cfg, login) in t.issued
    ensures t.logins == [login] && t.renewals == [] && t.clock == 0 && 2 !in t.calls
  {
    var checked := At(s, 1, Checked(uid));
    CheckedReachable(cfg, s, uid);
    t := LoginFinishes(cfg, checked, 1);
    Runs.Joins(Next(cfg), INIT, checked, t);
    login := Login(uid, 0, 0);
  }

  /** Call 2 presents the refresh token just before it expires, and signs more than a second later. */
  lemma RenewedLate(cfg: Config, s: State, login: Login) returns (t: State, r: Renewal)
    requires Reachable(cfg, s) && s.renewals == [] && s.clock == 0 && 2 !in s.calls
    requires login.uid != "" && login.refreshAt == 0 && RefreshOf(cfg, login) in s.issued
    ensures Reachable(cfg, t) && t.logins == s.logins && t.renewals == [r]
    ensures r == Renewal(RefreshOf(cfg, login), REFRESH_TTL - 1, REFRESH_TTL + SECOND)
    ensures RenewedBy(cfg, r) in t.issued
  {
    var parent := RefreshOf(cfg, login);
    Expiry(login.uid, 0);
    var late := s.(clock := REFRESH_TTL - 1);
    Reaches(cfg, s, Tick(REFRESH_TTL - 1), late);
    var presented := At(late, 2, Presented(parent, REFRESH_TTL - 1));
    Reaches(cfg, late, Present(2, parent), presented);
    var later := presented.(clock := REFRESH_TTL + SECOND);
    Reaches(cfg, presented, Tick(REFRESH_TTL + SECOND), later);
    r := Renewal(parent, REFRESH_TTL - 1, REFRESH_TTL + SECOND);
    t := HandOutRenewed(cfg, later, 2, r);
    Reaches(cfg, later, SignRenewed(2), t);
  }

  /**
   A refresh that pauses for a second and a nanosecond can sign a token that outlives the two
   lifetimes of the only login: the guard still accepts it when they are over.
   */
  lemma PausedRefresh(cfg: Config, uid: Uid) returns (s: State, token: Token, login: Login)
    requires ConfigOk(cfg) && CanRegister(cfg) && uid != ""
    ensures Reachable(cfg, s) && s.logins == [login] && PausesWithin(s, SECOND + 1)
    ensures DescendsFrom(cfg, s, login, token, uid, LifetimesEnd(login))
    ensures Guard(cfg, s.issued, token, LifetimesEnd(login)) == Some(uid)
  {
    s := UserReachable(cfg, uid);
    s, login := LoggedInOnce(cfg, s, uid);
    var r: Renewal;
    s, r := RenewedLate(cfg, s, login);
    token := RenewedBy(cfg, r);
    UnixBelow(r.signedAt);
    GuardAccess(cfg, s.issued, uid, r.signedAt, LifetimesEnd(login));
    assert Renews(cfg, login, r, token, LifetimesEnd(login));
  }

  /**
   The lifetimes of the two tokens add up in every run whose refreshes pause for at most `d` if
   and only if `d` is at most a second.
   */
  lemma PauseThreshold(cfg: Config, d: int)
    requires ConfigOk(cfg) && CanRegister(cfg) && cfg.accessKey != cfg.refreshKey
    ensures (forall s :: Reachable(cfg, s) && PausesWithin(s, d) ==> LifetimesBound(cfg, s)) <==> d <= SECOND
  {
    if d <= SECOND {
      forall s | Reachable(cfg, s) && PausesWithin(s, d) ensures LifetimesBound(cfg, s) {
        LifetimesAddUp(cfg, s);
      }
    } else {
      var s, token, login := PausedRefresh(cfg, "u");
      assert PausesWithin(s, d);
      assert !LifetimesBound(cfg, s) by {
        assert Guard(cfg, s.issued, token, LifetimesEnd(login)) == Some("u");
      }
    }
  }
}
