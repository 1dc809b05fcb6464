/**
 The invariant of the auth service on users, the calls that own their rows, hashes and tokens,
 and the proof that every step of every call keeps it.
 */
module AuthInvariant {
  import opened Wrappers
  import opened Base64
  import opened Schema
  import opened Auth
  import Password
  import Runs

  // ---------- Invariant ----------

  ghost predicate UsersOk(cfg: Config, users: Users) {
    && (forall id :: id in users ==> id != "" && Normal(cfg.chars, users[id].email) == users[id].email)
    && (forall a, b :: a in users && b in users && users[a].email == users[b].email ==> a == b)
  }

  ghost predicate RegOk(cfg: Config, reg: Registration) {
    && Normal(cfg.chars, reg.email) == reg.email
    && RegisterProblem(reg.firstName, reg.email, reg.password) == None
  }

  ghost predicate HashOk(cfg: Config, hash: string, password: Bytes) {
    exists salt :: |salt| == Password.DEFAULT_PARAMS.saltLen && hash == StoredHash(cfg, password, salt)
  }

  /** The row of a registration: its fields, and a hash of its password. */
  ghost predicate RowOk(cfg: Config, users: Users, reg: Registration, uid: Uid) {
    && uid in users && users[uid] == Row(reg, users[uid].password)
    && HashOk(cfg, users[uid].password, reg.password)
  }

  ghost predicate CallOk(cfg: Config, users: Users, issued: set<Token>, clock: int, call: Call) {
    match call
    case Validated(reg) => RegOk(cfg, reg)
    case LookedUp(reg) => RegOk(cfg, reg)
    case Hashed(reg, hash) => RegOk(cfg, reg) && HashOk(cfg, hash, reg.password)
    case Inserted(reg, uid) => RegOk(cfg, reg) && RowOk(cfg, users, reg, uid)
    case Created(reg, uid) => RegOk(cfg, reg) && RowOk(cfg, users, reg, uid)
    case Checked(uid) => uid in users
    case AccessSigned(uid, accessAt) => uid in users && accessAt <= clock
    case LoggedIn(uid, access, refresh) =>
      && uid in users && access in issued && refresh in issued
      && access.key == cfg.accessKey && refresh.key == cfg.refreshKey
      && access.claims.uid == uid && refresh.claims.uid == uid
    case Presented(parent, checkedAt) => ParentOk(cfg, issued, parent, checkedAt) && checkedAt <= clock
    case Renewed(access) => access in issued
    case Refused(_) => true
  }

  /** A refresh token that was valid when it was checked. */
  predicate ParentOk(cfg: Config, issued: set<Token>, parent: Token, checkedAt: int) {
    && parent in issued && parent.key == cfg.refreshKey && parent.claims.uid != ""
    && checkedAt < parent.claims.exp * SECOND
  }

  predicate Owns(call: Call, uid: Uid) {
    (call.Inserted? || call.Created?) && call.uid == uid
  }

  /** Every row belongs to exactly one registering call, and the announced ones are those answered 201. */
  ghost predicate OwnersOk(ids: set<Uid>, calls: map<CallId, Call>, emitted: seq<Uid>) {
    && (forall id :: id in ids ==> exists c :: c in calls && Owns(calls[c], id))
    && (forall c, id :: c in calls && Owns(calls[c], id) ==> id in ids)
    && (forall c, d, id :: c in calls && d in calls && Owns(calls[c], id) && Owns(calls[d], id) ==> c == d)
    && (forall id :: id in emitted ==> exists c :: c in calls && Owns(calls[c], id) && calls[c].Created?)
    && (forall c, id :: c in calls && Owns(calls[c], id) && calls[c].Created? ==> id in emitted)
    && (forall i, j :: 0 <= i < j < |emitted| ==> emitted[i] != emitted[j])
  }

  lemma MoveOwners(ids: set<Uid>, calls: map<CallId, Call>, emitted: seq<Uid>, c: CallId, call: Call)
    requires OwnersOk(ids, calls, emitted)
    requires c in calls ==> !calls[c].Inserted? && !calls[c].Created?
    requires !call.Inserted? && !call.Created?
    ensures OwnersOk(ids, calls[c := call], emitted)
  {
    var calls' := calls[c := call];
    forall id | id in ids ensures exists d :: d in calls' && Owns(calls'[d], id) {
      var d :| d in calls && Owns(calls[d], id);
      assert Owns(calls'[d], id);
    }
    forall id | id in emitted ensures exists d :: d in calls' && Owns(calls'[d], id) && calls'[d].Created? {
      var d :| d in calls && Owns(calls[d], id) && calls[d].Created?;
      assert Owns(calls'[d], id);
    }
  }

  lemma InsertOwners(ids: set<Uid>, calls: map<CallId, Call>, emitted: seq<Uid>, c: CallId, reg: Registration, uid: Uid)
    requires OwnersOk(ids, calls, emitted) && uid !in ids
    requires c in calls && !calls[c].Inserted? && !calls[c].Created?
    ensures OwnersOk(ids + {uid}, calls[c := Inserted(reg, uid)], emitted)
  {
    var calls' := calls[c := Inserted(reg, uid)];
    assert Owns(calls'[c], uid);
    forall id | id in ids ensures exists d :: d in calls' && Owns(calls'[d], id) {
      var d :| d in calls && Owns(calls[d], id);
      assert Owns(calls'[d], id);
    }
    forall id | id in emitted ensures exists d :: d in calls' && Owns(calls'[d], id) && calls'[d].Created? {
      var d :| d in calls && Owns(calls[d], id) && calls[d].Created?;
      assert Owns(calls'[d], id);
    }
  }

  lemma AnnounceOwners(ids: set<Uid>, calls: map<CallId, Call>, emitted: seq<Uid>, c: CallId)
    requires OwnersOk(ids, calls, emitted) && c in calls && calls[c].Inserted?
    ensures OwnersOk(ids, calls[c := Created(calls[c].reg, calls[c].uid)], emitted + [calls[c].uid])
  {
    var uid := calls[c].uid;
    var calls' := calls[c := Created(calls[c].reg, uid)];
    assert Owns(calls[c], uid) && Owns(calls'[c], uid);
    assert uid !in emitted;
    forall id | id in ids ensures exists d :: d in calls' && Owns(calls'[d], id) {
      var d :| d in calls && Owns(calls[d], id);
      assert Owns(calls'[d], id);
    }
    forall id | id in emitted + [uid] ensures exists d :: d in calls' && Owns(calls'[d], id) && calls'[d].Created? {
      if id in emitted {
        var d :| d in calls && Owns(calls[d], id) && calls[d].Created?;
        assert Owns(calls'[d], id);
      }
    }
    forall d, id | d in calls' && Owns(calls'[d], id) ensures id in ids {
      assert Owns(calls[d], id);
    }
    forall d, e, id | d in calls' && e in calls' && Owns(calls'[d], id) && Owns(calls'[e], id) ensures d == e {
      assert Owns(calls[d], id) && Owns(calls[e], id);
    }
  }

  /** Handed out by a login, or by a refresh. */
  ghost predicate Descends(cfg: Config, logins: seq<Login>, renewals: seq<Renewal>, token: Token) {
    || (exists l :: l in logins && (token == AccessOf(cfg, l) || token == RefreshOf(cfg, l)))
    || (exists r :: r in renewals && token == RenewedBy(cfg, r))
  }

  ghost predicate LoginOk(cfg: Config, users: Users, issued: set<Token>, clock: int, l: Login) {
    l.uid in users && l.accessAt <= l.refreshAt <= clock && AccessOf(cfg, l) in issued && RefreshOf(cfg, l) in issued
  }

  ghost predicate RenewalOk(cfg: Config, issued: set<Token>, clock: int, r: Renewal) {
    ParentOk(cfg, issued, r.parent, r.checkedAt) && r.checkedAt <= r.signedAt <= clock && RenewedBy(cfg, r) in issued
  }

  ghost predicate TokensOk(cfg: Config, s: State) {
    && (forall token :: token in s.issued ==> Descends(cfg, s.logins, s.renewals, token))
    && (forall l :: l in s.logins ==> LoginOk(cfg, s.users, s.issued, s.clock, l))
    && (forall r :: r in s.renewals ==> RenewalOk(cfg, s.issued, s.clock, r))
  }

  ghost predicate CallsOk(cfg: Config, s: State) {
    forall c :: c in s.calls ==> CallOk(cfg, s.users, s.issued, s.clock, s.calls[c])
  }

  ghost predicate Invariant(cfg: Config, s: State) {
    && UsersOk(cfg, s.users)
    && CallsOk(cfg, s)
    && OwnersOk(s.users.Keys, s.calls, s.emitted)
    && TokensOk(cfg, s)
  }

  // ---------- Every step keeps it ----------

  /** Rows, tokens and time are added; no row changes. */
  ghost predicate Grows(s: State, s': State) {
    && s.users.Keys <= s'.users.Keys && (forall id :: id in s.users ==> s'.users[id] == s.users[id])
    && s.issued <= s'.issued && s.clock <= s'.clock
  }

  /** What is said of a call stays true as rows, tokens and time are added. */
  lemma CallStays(cfg: Config, s: State, s': State, call: Call)
    requires CallOk(cfg, s.users, s.issued, s.clock, call)
    requires Grows(s, s')
    ensures CallOk(cfg, s'.users, s'.issued, s'.clock, call)
  {
  }

  /** All calls but one stay as they are. */
  lemma CallsStay(cfg: Config, s: State, s': State, c: CallId)
    requires CallsOk(cfg, s) && Grows(s, s')
    requires c in s'.calls && s'.calls == s.calls[c := s'.calls[c]]
    requires CallOk(cfg, s'.users, s'.issued, s'.clock, s'.calls[c])
    ensures CallsOk(cfg, s')
  {
    forall d | d in s'.calls && d != c ensures CallOk(cfg, s'.users, s'.issued, s'.clock, s'.calls[d]) {
      CallStays(cfg, s, s', s.calls[d]);
    }
  }

  lemma TokensFrame(cfg: Config, s: State, s': State)
    requires TokensOk(cfg, s) && Grows(s, s')
    requires s'.issued == s.issued && s'.logins == s.logins && s'.renewals == s.renewals
    ensures TokensOk(cfg, s')
  {
    forall l | l in s'.logins ensures LoginOk(cfg, s'.users, s'.issued, s'.clock, l) {
      assert LoginOk(cfg, s.users, s.issued, s.clock, l);
    }
    forall r | r in s'.renewals ensures RenewalOk(cfg, s'.issued, s'.clock, r) {
      assert RenewalOk(cfg, s.issued, s.clock, r);
    }
  }

  lemma TickKeeps(cfg: Config, s: State, to: int)
    requires Invariant(cfg, s) && s.clock <= to
    ensures Invariant(cfg, s.(clock := to))
  {
    var s' := s.(clock := to);
    TokensFrame(cfg, s, s');
    forall c | c in s'.calls ensures CallOk(cfg, s'.users, s'.issued, s'.clock, s'.calls[c]) {
      CallStays(cfg, s, s', s.calls[c]);
    }
  }

  /** A step that only moves one call on, to something that owns no row. */
  lemma CallMoves(cfg: Config, s: State, c: CallId, call: Call)
    requires Invariant(cfg, s) && CallOk(cfg, s.users, s.issued, s.clock, call)
    requires c in s.calls ==> !s.calls[c].Inserted? && !s.calls[c].Created?
    requires !call.Inserted? && !call.Created?
    ensures Invariant(cfg, At(s, c, call))
  {
    MoveOwners(s.users.Keys, s.calls, s.emitted, c, call);
    TokensFrame(cfg, s, At(s, c, call));
    CallsStay(cfg, s, At(s, c, call), c);
  }

  predicate OnlyMoves(step: Step) {
    || step.Submit? || step.Lookup? || step.Hash? || step.SubmitLogin?
    || step.SignAccess? || step.Present?
  }

  /** What such a step makes of its call. */
  lemma MovedCallOk(cfg: Config, s: State, step: Step)
    requires ConfigOk(cfg) && CallsOk(cfg, s) && Enabled(cfg, s, step) && OnlyMoves(step)
    ensures var call := Apply(cfg, s, step).calls[step.call];
            && Apply(cfg, s, step) == At(s, step.call, call)
            && CallOk(cfg, s.users, s.issued, s.clock, call) && !call.Inserted? && !call.Created?
    ensures step.call in s.calls ==> !s.calls[step.call].Inserted? && !s.calls[step.call].Created?
  {
    assert step.call in s.calls ==> CallOk(cfg, s.users, s.issued, s.clock, s.calls[step.call]);
    if step.Submit? {
      NormalIdempotent(cfg.chars, step.email);
    }
  }

  lemma MoveKeeps(cfg: Config, s: State, step: Step)
    requires ConfigOk(cfg) && Invariant(cfg, s) && Enabled(cfg, s, step) && OnlyMoves(step)
    ensures Invariant(cfg, Apply(cfg, s, step))
  {
    MovedCallOk(cfg, s, step);
    CallMoves(cfg, s, step.call, Apply(cfg, s, step).calls[step.call]);
  }

  lemma InsertUsers(cfg: Config, users: Users, reg: Registration, hash: string, uid: Uid)
    requires UsersOk(cfg, users) && RegOk(cfg, reg) && Insertable(users, reg, hash)
    requires uid !in users && uid != ""
    ensures UsersOk(cfg, users[uid := Row(reg, hash)])
  {
    assert forall id :: id in users ==> users[id].email != reg.email;
  }

  lemma InsertedKeeps(cfg: Config, s: State, s': State, c: CallId, uid: Uid)
    requires Invariant(cfg, s) && c in s.calls && s.calls[c].Hashed? && uid !in s.users && uid != ""
    requires Insertable(s.users, s.calls[c].reg, s.calls[c].hash)
    requires s' == At(s, c, Inserted(s.calls[c].reg, uid)).(users := s.users[uid := Row(s.calls[c].reg, s.calls[c].hash)])
    ensures Invariant(cfg, s')
  {
    assert CallOk(cfg, s.users, s.issued, s.clock, s.calls[c]);
    InsertUsers(cfg, s.users, s.calls[c].reg, s.calls[c].hash, uid);
    InsertOwners(s.users.Keys, s.calls, s.emitted, c, s.calls[c].reg, uid);
    assert s'.users.Keys == s.users.Keys + {uid};
    CallsStay(cfg, s, s', c);
    TokensFrame(cfg, s, s');
  }

  lemma InsertKeeps(cfg: Config, s: State, c: CallId, uid: Uid, fails: bool)
    requires Invariant(cfg, s) && Enabled(cfg, s, Insert(c, uid, fails))
    ensures Invariant(cfg, Apply(cfg, s, Insert(c, uid, fails)))
  {
    if fails || !Insertable(s.users, s.calls[c].reg, s.calls[c].hash) {
      CallMoves(cfg, s, c, Refused(500));
    } else {
      InsertedKeeps(cfg, s, Apply(cfg, s, Insert(c, uid, fails)), c, uid);
    }
  }

  lemma AnnounceKeeps(cfg: Config, s: State, c: CallId)
    requires Invariant(cfg, s) && Enabled(cfg, s, Announce(c))
    ensures Invariant(cfg, Apply(cfg, s, Announce(c)))
  {
    var s' := Apply(cfg, s, Announce(c));
    assert CallOk(cfg, s.users, s.issued, s.clock, s.calls[c]);
    AnnounceOwners(s.users.Keys, s.calls, s.emitted, c);
    TokensFrame(cfg, s, s');
    CallsStay(cfg, s, s', c);
  }

  lemma HandOutTokens(cfg: Config, s: State, c: CallId, l: Login)
    requires TokensOk(cfg, s) && l.uid in s.users && l.accessAt <= l.refreshAt <= s.clock
    ensures TokensOk(cfg, HandOut(cfg, s, c, l))
  {
    var s' := HandOut(cfg, s, c, l);
    assert l in s'.logins;
    forall token | token in s'.issued ensures Descends(cfg, s'.logins, s'.renewals, token) {
      if token in s.issued {
        assert Descends(cfg, s.logins, s.renewals, token);
      }
    }
    forall k | k in s'.logins ensures LoginOk(cfg, s'.users, s'.issued, s'.clock, k) {
      assert k != l ==> LoginOk(cfg, s.users, s.issued, s.clock, k);
    }
    forall r | r in s'.renewals ensures RenewalOk(cfg, s'.issued, s'.clock, r) {
      assert RenewalOk(cfg, s.issued, s.clock, r);
    }
  }

  lemma HandOutRenewedTokens(cfg: Config, s: State, c: CallId, r: Renewal)
    requires TokensOk(cfg, s) && ParentOk(cfg, s.issued, r.parent, r.checkedAt) && r.checkedAt <= r.signedAt <= s.clock
    ensures TokensOk(cfg, HandOutRenewed(cfg, s, c, r))
  {
    var s' := HandOutRenewed(cfg, s, c, r);
    assert r in s'.renewals;
    forall token | token in s'.issued ensures Descends(cfg, s'.logins, s'.renewals, token) {
      if token in s.issued {
        assert Descends(cfg, s.logins, s.renewals, token);
      }
    }
    forall l | l in s'.logins ensures LoginOk(cfg, s'.users, s'.issued, s'.clock, l) {
      assert LoginOk(cfg, s.users, s.issued, s.clock, l);
    }
    forall q | q in s'.renewals ensures RenewalOk(cfg, s'.issued, s'.clock, q) {
      assert q != r ==> RenewalOk(cfg, s.issued, s.clock, q);
    }
  }

  /** The second signature of a login, and the signature of a refresh. */
  lemma SignKeeps(cfg: Config, s: State, step: Step)
    requires Invariant(cfg, s) && Enabled(cfg, s, step) && (step.SignRefresh? || step.SignRenewed?)
    ensures Invariant(cfg, Apply(cfg, s, step))
  {
    var s', c := Apply(cfg, s, step), step.call;
    assert CallOk(cfg, s.users, s.issued, s.clock, s.calls[c]);
    if step.SignRefresh? {
      HandOutTokens(cfg, s, c, Login(s.calls[c].uid, s.calls[c].accessAt, s.clock));
    } else {
      HandOutRenewedTokens(cfg, s, c, Renewal(s.calls[c].parent, s.calls[c].checkedAt, s.clock));
    }
    MoveOwners(s.users.Keys, s.calls, s.emitted, c, s'.calls[c]);
    CallsStay(cfg, s, s', c);
  }

  lemma StepKeeps(cfg: Config, s: State, step: Step)
    requires ConfigOk(cfg) && Invariant(cfg, s) && Enabled(cfg, s, step)
    ensures Invariant(cfg, Apply(cfg, s, step))
  {
    match step
    case Tick(to) => TickKeeps(cfg, s, to);
    case Insert(c, uid, fails) => InsertKeeps(cfg, s, c, uid, fails);
    case Announce(c) => AnnounceKeeps(cfg, s, c);
    case SignRefresh(_) => SignKeeps(cfg, s, step);
    case SignRenewed(_) => SignKeeps(cfg, s, step);
    case _ => MoveKeeps(cfg, s, step);
  }

  lemma AlwaysInvariant(cfg: Config, s: State)
    requires ConfigOk(cfg) && Reachable(cfg, s)
    ensures Invariant(cfg, s)
  {
    forall x, y | Invariant(cfg, x) && Follows(cfg, x, y) ensures Invariant(cfg, y) {
      var step :| Enabled(cfg, x, step) && y == Apply(cfg, x, step);
      StepKeeps(cfg, x, step);
    }
    Runs.Kept(Next(cfg), x => Invariant(cfg, x), INIT, s);
  }

  lemma CallAlwaysOk(cfg: Config, s: State, c: CallId)
    requires ConfigOk(cfg) && Reachable(cfg, s) && c in s.calls
    ensures UsersOk(cfg, s.users) && CallOk(cfg, s.users, s.issued, s.clock, s.calls[c])
  {
    AlwaysInvariant(cfg, s);
  }
}
