/**
 Where the tokens come from that the service accepts, and for how long it accepts them, in
 every run of the auth service.
 */
module AuthTokens {
  import opened Wrappers
  import opened Auth
  import opened AuthInvariant

  /** The refresh `r` presented the refresh token of the login `l`. */
  predicate RenewedFrom(cfg: Config, l: Login, r: Renewal) {
    r.parent == RefreshOf(cfg, l)
  }

  /** A refresh that found the refresh token of `l` valid signed the token, which has not expired. */
  predicate Renews(cfg: Config, l: Login, r: Renewal, token: Token, now: int) {
    && RenewedFrom(cfg, l, r) && token == RenewedBy(cfg, r)
    && r.checkedAt < Unix(l.refreshAt) * SECOND + REFRESH_TTL
    && r.checkedAt <= r.signedAt && now < Unix(r.signedAt) * SECOND + ACCESS_TTL
  }

  /** The token comes from the login `l` of this user, at once or through one refresh, and has not expired. */
  ghost predicate DescendsFrom(cfg: Config, s: State, l: Login, token: Token, uid: Uid, now: int) {
    l in s.logins && l.uid == uid && (
      || (token == AccessOf(cfg, l) && now < Unix(l.accessAt) * SECOND + ACCESS_TTL)
      || exists r :: r in s.renewals && Renews(cfg, l, r, token, now))
  }

  /** Access tokens live for 86400 whole seconds and refresh tokens for 2592000. */
  lemma Lifetimes(uid: Uid, t: int)
    ensures StandardClaims(uid, ACCESS_TTL, t) == Claims(uid, t / 1_000_000_000, t / 1_000_000_000 + 86400)
    ensures StandardClaims(uid, REFRESH_TTL, t) == Claims(uid, t / 1_000_000_000, t / 1_000_000_000 + 2592000)
  {
  }

  lemma Expiry(uid: Uid, t: int)
    ensures StandardClaims(uid, ACCESS_TTL, t).exp * SECOND == Unix(t) * SECOND + ACCESS_TTL
    ensures StandardClaims(uid, REFRESH_TTL, t).exp * SECOND == Unix(t) * SECOND + REFRESH_TTL
  {
  }

  lemma UnixBelow(t: int)
    ensures Unix(t) * SECOND <= t < Unix(t) * SECOND + SECOND
  {
  }

  /** Until when the guard accepts an access token. */
  lemma GuardAccess(cfg: Config, issued: set<Token>, uid: Uid, at: int, now: int)
    requires Sign(cfg.accessKey, StandardClaims(uid, ACCESS_TTL, at)) in issued && uid != ""
    ensures Guard(cfg, issued, Sign(cfg.accessKey, StandardClaims(uid, ACCESS_TTL, at)), now) ==
            if now < Unix(at) * SECOND + ACCESS_TTL then Some(uid) else None
  {
    Expiry(uid, at);
  }

  lemma LoginOf(cfg: Config, s: State, token: Token) returns (l: Login)
    requires Invariant(cfg, s) && cfg.accessKey != cfg.refreshKey
    requires token in s.issued && token.key == cfg.refreshKey
    ensures l in s.logins && token == RefreshOf(cfg, l)
  {
    assert Descends(cfg, s.logins, s.renewals, token);
    l :| l in s.logins && (token == AccessOf(cfg, l) || token == RefreshOf(cfg, l));
  }

  /** Only logins mint refresh tokens. */
  lemma RefreshTokensFromLogins(cfg: Config, s: State, token: Token)
    requires ConfigOk(cfg) && Reachable(cfg, s) && cfg.accessKey != cfg.refreshKey
    requires token in s.issued && token.key == cfg.refreshKey
    ensures exists l :: l in s.logins && token.claims == StandardClaims(l.uid, REFRESH_TTL, l.refreshAt)
  {
    AlwaysInvariant(cfg, s);
    var l := LoginOf(cfg, s, token);
  }

  lemma LoginTokenTaken(cfg: Config, s: State, l: Login)
    requires Invariant(cfg, s) && l in s.logins
    ensures TokenChecked(cfg, s, RefreshOf(cfg, l)).Presented? <==> s.clock < Unix(l.refreshAt) * SECOND + REFRESH_TTL
  {
    Expiry(l.uid, l.refreshAt);
    assert LoginOk(cfg, s.users, s.issued, s.clock, l);
  }

  /** With distinct keys, refresh takes exactly the refresh tokens of logins, until they expire. */
  lemma RefreshTakes(cfg: Config, s: State, token: Token)
    requires ConfigOk(cfg) && Reachable(cfg, s) && cfg.accessKey != cfg.refreshKey
    ensures TokenChecked(cfg, s, token).Presented? <==>
            exists l :: l in s.logins && token == RefreshOf(cfg, l) && s.clock < Unix(l.refreshAt) * SECOND + REFRESH_TTL
  {
    AlwaysInvariant(cfg, s);
    if TokenChecked(cfg, s, token).Presented? {
      var l := LoginOf(cfg, s, token);
      LoginTokenTaken(cfg, s, l);
    }
    forall l | l in s.logins && token == RefreshOf(cfg, l) && s.clock < Unix(l.refreshAt) * SECOND + REFRESH_TTL
      ensures TokenChecked(cfg, s, token).Presented?
    {
      LoginTokenTaken(cfg, s, l);
    }
  }

  lemma AcceptedDescends(cfg: Config, s: State, token: Token, uid: Uid, now: int) returns (l: Login)
    requires Invariant(cfg, s) && cfg.accessKey != cfg.refreshKey
    requires Guard(cfg, s.issued, token, now) == Some(uid)
    ensures uid in s.users && l.accessAt <= l.refreshAt && DescendsFrom(cfg, s, l, token, uid, now)
  {
    assert Descends(cfg, s.logins, s.renewals, token);
    if k :| k in s.logins && token == AccessOf(cfg, k) {
      l := k;
      GuardAccess(cfg, s.issued, uid, l.accessAt, now);
    } else {
      var r :| r in s.renewals && token == RenewedBy(cfg, r);
      assert RenewalOk(cfg, s.issued, s.clock, r);
      l := LoginOf(cfg, s, r.parent);
      Expiry(l.uid, l.refreshAt);
      GuardAccess(cfg, s.issued, uid, r.signedAt, now);
      assert Renews(cfg, l, r, token, now);
    }
    assert LoginOk(cfg, s.users, s.issued, s.clock, l);
  }

  lemma DescendantAccepted(cfg: Config, s: State, l: Login, token: Token, uid: Uid, now: int)
    requires Invariant(cfg, s) && DescendsFrom(cfg, s, l, token, uid, now)
    ensures Guard(cfg, s.issued, token, now) == Some(uid)
  {
    assert LoginOk(cfg, s.users, s.issued, s.clock, l);
    if r :| r in s.renewals && Renews(cfg, l, r, token, now) {
      assert RenewalOk(cfg, s.issued, s.clock, r);
      GuardAccess(cfg, s.issued, uid, r.signedAt, now);
    } else {
      GuardAccess(cfg, s.issued, uid, l.accessAt, now);
    }
  }

  /**
   With distinct keys, the guard accepts exactly the tokens that descend, through at most one
   refresh, from a login of the same user, and each exactly until it expires.
   */
  lemma Lineage(cfg: Config, s: State, token: Token, uid: Uid, now: int)
    requires ConfigOk(cfg) && Reachable(cfg, s) && cfg.accessKey != cfg.refreshKey
    ensures Guard(cfg, s.issued, token, now) == Some(uid) <==> exists l :: DescendsFrom(cfg, s, l, token, uid, now)
    ensures Guard(cfg, s.issued, token, now) == Some(uid) ==> uid in s.users
  {
    AlwaysInvariant(cfg, s);
    if Guard(cfg, s.issued, token, now) == Some(uid) {
      var l := AcceptedDescends(cfg, s, token, uid, now);
    }
    if l :| DescendsFrom(cfg, s, l, token, uid, now) {
      DescendantAccepted(cfg, s, l, token, uid, now);
    }
  }

  // ---------- The sum of the two lifetimes ----------

  /** By then the lifetimes of a refresh token of `l` and of an access token, added, are over. */
  function LifetimesEnd(l: Login): int {
    l.refreshAt + REFRESH_TTL + ACCESS_TTL
  }

  lemma RenewedAccepted(cfg: Config, s: State, l: Login, r: Renewal, now: int)
    requires Invariant(cfg, s) && l in s.logins && r in s.renewals && RenewedFrom(cfg, l, r)
    ensures Guard(cfg, s.issued, RenewedBy(cfg, r), now).Some? <==> now < Unix(r.signedAt) * SECOND + ACCESS_TTL
  {
    assert RenewalOk(cfg, s.issued, s.clock, r);
    GuardAccess(cfg, s.issued, l.uid, r.signedAt, now);
  }

  /**
   The token a refresh made of a login's refresh token is over by the end of the two lifetimes
   if and only if the second in which it was signed began before the refresh token's life ended.
   */
  lemma RenewalBoundIff(cfg: Config, s: State, l: Login, r: Renewal)
    requires ConfigOk(cfg) && Reachable(cfg, s) && l in s.logins && r in s.renewals && RenewedFrom(cfg, l, r)
    ensures (forall now :: Guard(cfg, s.issued, RenewedBy(cfg, r), now).Some? ==> now < LifetimesEnd(l))
            <==> Unix(r.signedAt) * SECOND <= l.refreshAt + REFRESH_TTL
  {
    AlwaysInvariant(cfg, s);
    var token, last := RenewedBy(cfg, r), Unix(r.signedAt) * SECOND + ACCESS_TTL - 1;
    RenewedAccepted(cfg, s, l, r, last);
    if last < LifetimesEnd(l) {
      forall now | Guard(cfg, s.issued, token, now).Some? ensures now < LifetimesEnd(l) {
        RenewedAccepted(cfg, s, l, r, now);
      }
    }
  }

  ghost predicate PausesWithin(s: State, d: int) {
    forall r :: r in s.renewals ==> r.signedAt - r.checkedAt <= d
  }

  /** Whatever the guard accepts descends from a login whose two lifetimes are not over. */
  ghost predicate LifetimesBound(cfg: Config, s: State) {
    forall token, uid, now :: Guard(cfg, s.issued, token, now) == Some(uid) ==>
                                exists l :: DescendsFrom(cfg, s, l, token, uid, now) && now < LifetimesEnd(l)
  }

  lemma DescendsWithin(cfg: Config, s: State, l: Login, token: Token, uid: Uid, now: int)
    requires DescendsFrom(cfg, s, l, token, uid, now) && l.accessAt <= l.refreshAt && PausesWithin(s, SECOND)
    ensures now < LifetimesEnd(l)
  {
    UnixBelow(l.accessAt);
    UnixBelow(l.refreshAt);
    if r :| r in s.renewals && Renews(cfg, l, r, token, now) {
      UnixBelow(r.signedAt);
      assert r.signedAt < (Unix(l.refreshAt) + 30 * 86400 + 1) * SECOND;
    }
  }

  /** When no refresh pauses for more than a second between check and signature, the lifetimes add up. */
  lemma LifetimesAddUp(cfg: Config, s: State)
    requires ConfigOk(cfg) && Reachable(cfg, s) && cfg.accessKey != cfg.refreshKey && PausesWithin(s, SECOND)
    ensures LifetimesBound(cfg, s)
  {
    AlwaysInvariant(cfg, s);
    forall token, uid, now | Guard(cfg, s.issued, token, now) == Some(uid)
      ensures exists l :: DescendsFrom(cfg, s, l, token, uid, now) && now < LifetimesEnd(l)
    {
      var l := AcceptedDescends(cfg, s, token, uid, now);
      DescendsWithin(cfg, s, l, token, uid, now);
    }
  }

  /** The two kinds of token are told apart exactly when the two keys differ. */
  lemma KindsSeparate(cfg: Config, s: State, c: CallId, now: int)
    requires ConfigOk(cfg) && Reachable(cfg, s) && c in s.calls && s.calls[c].LoggedIn?
    requires now < s.calls[c].access.claims.exp * SECOND && now < s.calls[c].refresh.claims.exp * SECOND
    ensures Guard(cfg, s.issued, s.calls[c].refresh, now).Some? <==> cfg.accessKey == cfg.refreshKey
    ensures Verify(s.issued, cfg.refreshKey, s.calls[c].access, now).Some? <==> cfg.accessKey == cfg.refreshKey
  {
    CallAlwaysOk(cfg, s, c);
  }
}
