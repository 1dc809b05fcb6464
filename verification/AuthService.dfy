/**
 The requests of the auth module as methods over the user table, input validation included,
 each run without interruption.  Every method is proved to be a run of `Auth`: the steps of one
 call in a row.  So whatever holds in every reachable state holds of the object.
 */
module AuthService {
  import opened Wrappers
  import opened Base64
  import opened Schema
  import opened Auth
  import opened AuthInvariant
  import opened AuthTheorems
  import opened AuthTokens
  import Password
  import Runs

  /** Take these steps in order, up to the first that is not possible. */
  ghost function Follow(cfg: Config, s: State, steps: seq<Step>): State
    decreases |steps|
  {
    if steps == [] || !Enabled(cfg, s, steps[0]) then s
    else Follow(cfg, Apply(cfg, s, steps[0]), steps[1..])
  }

  lemma {:induction false} FollowLeads(cfg: Config, from: State, s: State, steps: seq<Step>)
    requires Leads(cfg, from, s)
    ensures Leads(cfg, from, Follow(cfg, s, steps))
    decreases |steps|
  {
    if steps != [] && Enabled(cfg, s, steps[0]) {
      Goes(cfg, from, s, steps[0]);
      FollowLeads(cfg, from, Apply(cfg, s, steps[0]), steps[1..]);
    }
  }

  lemma Takes(cfg: Config, s: State, step: Step, rest: seq<Step>)
    requires Enabled(cfg, s, step)
    ensures Follow(cfg, s, [step] + rest) == Follow(cfg, Apply(cfg, s, step), rest)
  {
    assert ([step] + rest)[1..] == rest;
  }

  lemma TakesLast(cfg: Config, s: State, step: Step)
    ensures Follow(cfg, s, [step]) == if Enabled(cfg, s, step) then Apply(cfg, s, step) else s
  {
    assert [step][1..] == [];
  }

  lemma Stops(cfg: Config, s: State, step: Step, rest: seq<Step>)
    requires !Enabled(cfg, s, step)
    ensures Follow(cfg, s, [step] + rest) == s
  {
  }

  lemma AtTwice(s: State, c: CallId, x: Call, y: Call)
    ensures At(At(s, c, x), c, y) == At(s, c, y)
  {
    assert s.calls[c := x][c := y] == s.calls[c := y];
  }

  // ---------- The steps of a registration ----------

  datatype Form = Form(firstName: string, lastName: string, email: string, password: Bytes)

  /** The identifier the database chooses, the salt the random source gives, and database errors. */
  datatype Env = Env(uid: Uid, salt: Option<Bytes>, lookupFails: bool, insertFails: bool) {
    predicate Fresh(users: Users) {
      uid !in users && uid != "" && (salt.Some? ==> |salt.value| == Password.DEFAULT_PARAMS.saltLen)
    }
  }

  function ToInsert(c: CallId, env: Env): seq<Step> {
    [Insert(c, env.uid, env.insertFails)] + [Announce(c)]
  }

  function ToHash(c: CallId, env: Env): seq<Step> {
    [Hash(c, env.salt)] + ToInsert(c, env)
  }

  function ToLookup(c: CallId, env: Env): seq<Step> {
    [Lookup(c, env.lookupFails)] + ToHash(c, env)
  }

  function ToRegister(c: CallId, form: Form, env: Env): seq<Step> {
    [Submit(c, form.firstName, form.lastName, form.email, form.password)] + ToLookup(c, env)
  }

  function Checks(cfg: Config, form: Form): Call {
    Submitted(cfg, form.firstName, form.lastName, form.email, form.password)
  }

  /** How a registration ends whose input was checked. */
  function Registered(cfg: Config, s: State, c: CallId, input: Call, env: Env): State {
    if !input.Validated? then At(s, c, input)
    else if !env.lookupFails && HasEmail(s.users, input.reg.email) then At(s, c, Refused(409))
    else if env.salt == None then At(s, c, Refused(500))
    else
      var row := Row(input.reg, StoredHash(cfg, input.reg.password, env.salt.value));
      if env.insertFails || !Insertable(s.users, input.reg, row.password) then At(s, c, Refused(500))
      else At(s, c, Created(input.reg, env.uid)).(users := s.users[env.uid := row], emitted := s.emitted + [env.uid])
  }

  lemma InsertStage(cfg: Config, s: State, c: CallId, env: Env)
    requires c in s.calls && s.calls[c].Hashed? && env.Fresh(s.users)
    ensures var reg, hash := s.calls[c].reg, s.calls[c].hash;
            Follow(cfg, s, ToInsert(c, env)) ==
            if env.insertFails || !Insertable(s.users, reg, hash) then At(s, c, Refused(500))
            else At(s, c, Created(reg, env.uid)).(users := s.users[env.uid := Row(reg, hash)], emitted := s.emitted + [env.uid])
  {
    var step := Insert(c, env.uid, env.insertFails);
    Takes(cfg, s, step, [Announce(c)]);
    TakesLast(cfg, Apply(cfg, s, step), Announce(c));
    AtTwice(s, c, Inserted(s.calls[c].reg, env.uid), Created(s.calls[c].reg, env.uid));
  }

  lemma HashStage(cfg: Config, s: State, c: CallId, env: Env)
    requires c in s.calls && s.calls[c].LookedUp? && env.Fresh(s.users)
    ensures var reg := s.calls[c].reg;
            Follow(cfg, s, ToHash(c, env)) ==
            if env.salt == None then At(s, c, Refused(500))
            else Follow(cfg, At(s, c, Hashed(reg, StoredHash(cfg, reg.password, env.salt.value))), ToInsert(c, env))
  {
    Takes(cfg, s, Hash(c, env.salt), ToInsert(c, env));
    if env.salt == None {
      Stops(cfg, At(s, c, Refused(500)), Insert(c, env.uid, env.insertFails), [Announce(c)]);
    }
  }

  lemma LookupStage(cfg: Config, s: State, c: CallId, env: Env)
    requires c in s.calls && s.calls[c].Validated?
    ensures var reg := s.calls[c].reg;
            Follow(cfg, s, ToLookup(c, env)) ==
            if !env.lookupFails && HasEmail(s.users, reg.email) then At(s, c, Refused(409))
            else Follow(cfg, At(s, c, LookedUp(reg)), ToHash(c, env))
  {
    Takes(cfg, s, Lookup(c, env.lookupFails), ToHash(c, env));
    if !env.lookupFails && HasEmail(s.users, s.calls[c].reg.email) {
      Stops(cfg, At(s, c, Refused(409)), Hash(c, env.salt), ToInsert(c, env));
    }
  }

  lemma LookedUpFollows(cfg: Config, s: State, c: CallId, input: Call, env: Env)
    requires input.Validated? && env.Fresh(s.users) && (env.lookupFails || !HasEmail(s.users, input.reg.email))
    ensures Follow(cfg, At(s, c, LookedUp(input.reg)), ToHash(c, env)) == Registered(cfg, s, c, input, env)
  {
    var reg := input.reg;
    HashStage(cfg, At(s, c, LookedUp(reg)), c, env);
    AtTwice(s, c, LookedUp(reg), Refused(500));
    if env.salt.Some? {
      var hashed := Hashed(reg, StoredHash(cfg, reg.password, env.salt.value));
      AtTwice(s, c, LookedUp(reg), hashed);
      InsertStage(cfg, At(s, c, hashed), c, env);
      AtTwice(s, c, hashed, Refused(500));
      AtTwice(s, c, hashed, Created(reg, env.uid));
    }
  }

  /** The steps of a registration, one after the other, end as stated. */
  lemma RegisterFollows(cfg: Config, s: State, c: CallId, form: Form, env: Env)
    requires c !in s.calls && env.Fresh(s.users)
    ensures Follow(cfg, s, ToRegister(c, form, env)) == Registered(cfg, s, c, Checks(cfg, form), env)
  {
    var input := Checks(cfg, form);
    Takes(cfg, s, Submit(c, form.firstName, form.lastName, form.email, form.password), ToLookup(c, env));
    if input.Refused? {
      Stops(cfg, At(s, c, input), Lookup(c, env.lookupFails), ToHash(c, env));
    } else {
      LookupStage(cfg, At(s, c, input), c, env);
      AtTwice(s, c, input, Refused(409));
      AtTwice(s, c, input, LookedUp(input.reg));
      if env.lookupFails || !HasEmail(s.users, input.reg.email) {
        LookedUpFollows(cfg, s, c, input, env);
      }
    }
  }

  /** The input passes validation. */
  predicate GoodForm(cfg: Config, form: Form) {
    Trim(cfg.chars, form.firstName) != "" && '@' in Normal(cfg.chars, form.email) && |form.password| >= 8
  }

  ghost predicate Taken(users: Users, email: string) {
    exists id :: id in users && users[id].email == email
  }

  /** The input is valid, its email free, the columns wide enough, and nothing fails. */
  ghost predicate Succeeds(cfg: Config, users: Users, form: Form, env: Env) {
    && GoodForm(cfg, form)
    && !Taken(users, Normal(cfg.chars, form.email))
    && |Trim(cfg.chars, form.firstName)| <= 50 && |Trim(cfg.chars, form.lastName)| <= 50 && |Normal(cfg.chars, form.email)| <= 100
    && env.salt.Some? && !env.insertFails
  }

  /** The row that a registration adds. */
  function NewRow(cfg: Config, form: Form, salt: Bytes): User {
    User(Trim(cfg.chars, form.firstName), Trim(cfg.chars, form.lastName), Normal(cfg.chars, form.email),
         Password.Print(Password.Params(65536, 3, 4, 16, 32), salt, cfg.kdf(form.password, salt, 3, 65536, 4, 32)))
  }

  lemma TakenIsHasEmail(users: Users, email: string)
    ensures HasEmail(users, email) <==> Taken(users, email)
  {
  }

  /** The email, the hash and the widths of a valid registration's row. */
  lemma RowChecked(cfg: Config, users: Users, form: Form, env: Env)
    requires ConfigOk(cfg) && env.Fresh(users) && GoodForm(cfg, form) && env.salt.Some?
    ensures Checks(cfg, form).Validated?
    ensures var reg := Checks(cfg, form).reg;
            var hash := StoredHash(cfg, reg.password, env.salt.value);
            && Row(reg, hash) == NewRow(cfg, form, env.salt.value)
            && (Insertable(users, reg, hash) && !env.insertFails <==> Succeeds(cfg, users, form, env))
  {
    var hash := StoredHash(cfg, form.password, env.salt.value);
    TakenIsHasEmail(users, Normal(cfg.chars, form.email));
    assert HashOk(cfg, hash, form.password);
    StoredHashSize(cfg, hash, form.password);
  }

  /** When a registration is answered 201, and how it is refused otherwise. */
  lemma RegisterDecided(cfg: Config, s: State, c: CallId, form: Form, env: Env)
    requires ConfigOk(cfg) && env.Fresh(s.users)
    ensures var t := Registered(cfg, s, c, Checks(cfg, form), env);
            && (t.calls[c].Created? <==> Succeeds(cfg, s.users, form, env))
            && (t.calls[c].Created? ==>
                  && t.calls[c].uid == env.uid && t.users == s.users[env.uid := NewRow(cfg, form, env.salt.value)]
                  && t.emitted == s.emitted + [env.uid])
            && (!t.calls[c].Created? ==>
                  && t.users == s.users && t.emitted == s.emitted
                  && t.calls[c] == Refused(if !GoodForm(cfg, form) then 422
                                           else if Taken(s.users, Normal(cfg.chars, form.email)) && !env.lookupFails then 409
                                           else 500))
  {
    TakenIsHasEmail(s.users, Normal(cfg.chars, form.email));
    if GoodForm(cfg, form) && env.salt.Some? {
      RowChecked(cfg, s.users, form, env);
    }
  }

  // ---------- The steps of a login and of a refresh ----------

  function ToSign(c: CallId, accessAt: int, refreshAt: int): seq<Step> {
    [Tick(accessAt)] + ([SignAccess(c)] + ([Tick(refreshAt)] + [SignRefresh(c)]))
  }

  function ToLogIn(c: CallId, email: string, password: Bytes, found: Option<Uid>, accessAt: int, refreshAt: int): seq<Step> {
    [SubmitLogin(c, email, password, found)] + ToSign(c, accessAt, refreshAt)
  }

  /** How a login ends whose credentials were checked. */
  function Answered(cfg: Config, s: State, c: CallId, checked: Call, accessAt: int, refreshAt: int): State {
    if !checked.Checked? then At(s, c, checked).(clock := accessAt)
    else HandOut(cfg, s.(clock := refreshAt), c, Login(checked.uid, accessAt, refreshAt))
  }

  lemma SignStage(cfg: Config, s: State, c: CallId, uid: Uid, accessAt: int, refreshAt: int)
    requires s.clock <= accessAt <= refreshAt
    ensures Follow(cfg, At(s, c, Checked(uid)), ToSign(c, accessAt, refreshAt)) ==
            HandOut(cfg, s.(clock := refreshAt), c, Login(uid, accessAt, refreshAt))
  {
    var s1 := At(s, c, Checked(uid));
    Takes(cfg, s1, Tick(accessAt), [SignAccess(c)] + ([Tick(refreshAt)] + [SignRefresh(c)]));
    Takes(cfg, s1.(clock := accessAt), SignAccess(c), [Tick(refreshAt)] + [SignRefresh(c)]);
    AtTwice(s.(clock := accessAt), c, Checked(uid), AccessSigned(uid, accessAt));
    var s2 := At(s.(clock := accessAt), c, AccessSigned(uid, accessAt));
    Takes(cfg, s2, Tick(refreshAt), [SignRefresh(c)]);
    TakesLast(cfg, s2.(clock := refreshAt), SignRefresh(c));
    var l := Login(uid, accessAt, refreshAt);
    AtTwice(s.(clock := refreshAt), c, AccessSigned(uid, accessAt), LoggedIn(uid, AccessOf(cfg, l), RefreshOf(cfg, l)));
  }

  lemma LogInFollows(cfg: Config, s: State, c: CallId, email: string, password: Bytes, found: Option<Uid>, accessAt: int, refreshAt: int)
    requires Enabled(cfg, s, SubmitLogin(c, email, password, found)) && s.clock <= accessAt <= refreshAt
    ensures Follow(cfg, s, ToLogIn(c, email, password, found, accessAt, refreshAt)) ==
            Answered(cfg, s, c, LoginChecked(cfg, s.users, email, password, found), accessAt, refreshAt)
  {
    var checked := LoginChecked(cfg, s.users, email, password, found);
    Takes(cfg, s, SubmitLogin(c, email, password, found), ToSign(c, accessAt, refreshAt));
    if checked.Checked? {
      SignStage(cfg, s, c, checked.uid, accessAt, refreshAt);
    } else {
      var rest := [SignAccess(c)] + ([Tick(refreshAt)] + [SignRefresh(c)]);
      Takes(cfg, At(s, c, checked), Tick(accessAt), rest);
      Stops(cfg, At(s, c, checked).(clock := accessAt), SignAccess(c), [Tick(refreshAt)] + [SignRefresh(c)]);
    }
  }

  /** If some registration with these credentials was answered 201, the reply logs that user in. */
  ghost predicate Welcomes(cfg: Config, s: State, email: string, password: Bytes, reply: Call) {
    forall d :: d in s.calls && s.calls[d].Created? && s.calls[d].reg.email == Normal(cfg.chars, email) && s.calls[d].reg.password == password ==>
                  reply.LoggedIn? && reply.uid == s.calls[d].uid
  }

  /** A login is a run; credentials of an earlier registration pass; and the token shows its user. */
  lemma LogInRuns(cfg: Config, s: State, c: CallId, email: string, password: Bytes, found: Option<Uid>, accessAt: int, refreshAt: int)
    requires ConfigOk(cfg) && Reachable(cfg, s)
    requires Enabled(cfg, s, SubmitLogin(c, email, password, found)) && s.clock <= accessAt <= refreshAt
    ensures var checked := LoginChecked(cfg, s.users, email, password, found);
            var t := Answered(cfg, s, c, checked, accessAt, refreshAt);
            && Reachable(cfg, t) && t == Follow(cfg, s, ToLogIn(c, email, password, found, accessAt, refreshAt))
            && (checked.Checked? ==> checked.uid in s.users && Shows(cfg, t, t.calls[c].access, s.users[checked.uid]))
            && (found.Some? ==> Welcomes(cfg, s, email, password, t.calls[c]))
  {
    var checked := LoginChecked(cfg, s.users, email, password, found);
    FollowLeads(cfg, INIT, s, ToLogIn(c, email, password, found, accessAt, refreshAt));
    LogInFollows(cfg, s, c, email, password, found, accessAt, refreshAt);
    if checked.Checked? {
      LoggedInShows(cfg, Answered(cfg, s, c, checked, accessAt, refreshAt), c);
    }
    forall d | d in s.calls && s.calls[d].Created? && s.calls[d].reg.email == Normal(cfg.chars, email) && s.calls[d].reg.password == password
      ensures found.Some? ==> checked == Checked(s.calls[d].uid)
    {
      if found.Some? {
        RegisteredLogsIn(cfg, s, d, email, found);
      }
    }
  }

  function ToRefresh(c: CallId, token: Token, checkedAt: int, signedAt: int): seq<Step> {
    [Tick(checkedAt)] + ([Present(c, token)] + ([Tick(signedAt)] + [SignRenewed(c)]))
  }

  /** How a refresh ends. */
  function Refreshed(cfg: Config, s: State, c: CallId, token: Token, checkedAt: int, signedAt: int): State {
    var checked := TokenChecked(cfg, s.(clock := checkedAt), token);
    if !checked.Presented? then At(s, c, checked).(clock := signedAt)
    else HandOutRenewed(cfg, s.(clock := signedAt), c, Renewal(token, checkedAt, signedAt))
  }

  lemma RefreshFollows(cfg: Config, s: State, c: CallId, token: Token, checkedAt: int, signedAt: int)
    requires c !in s.calls && s.clock <= checkedAt <= signedAt
    ensures Follow(cfg, s, ToRefresh(c, token, checkedAt, signedAt)) == Refreshed(cfg, s, c, token, checkedAt, signedAt)
  {
    var s1 := s.(clock := checkedAt);
    var checked := TokenChecked(cfg, s1, token);
    Takes(cfg, s, Tick(checkedAt), [Present(c, token)] + ([Tick(signedAt)] + [SignRenewed(c)]));
    Takes(cfg, s1, Present(c, token), [Tick(signedAt)] + [SignRenewed(c)]);
    Takes(cfg, At(s1, c, checked), Tick(signedAt), [SignRenewed(c)]);
    TakesLast(cfg, At(s1, c, checked).(clock := signedAt), SignRenewed(c));
    AtTwice(s.(clock := signedAt), c, checked, Renewed(RenewedBy(cfg, Renewal(token, checkedAt, signedAt))));
  }

  // ---------- The service ----------

  function FormOf(input: RegisterInput): Form
    reads input
  {
    Form(input.firstName, input.lastName, input.email, input.password)
  }

  class Service {
    var users: Users
    var emitted: seq<Uid>
    var issued: set<Token>
    const cfg: Config
    ghost var calls: map<CallId, Call>
    ghost var logins: seq<Login>
    ghost var renewals: seq<Renewal>
    ghost var clock: int

    ghost function Now(): State
      reads this
    {
      State(users, calls, emitted, issued, logins, renewals, clock)
    }

    ghost predicate Valid()
      reads this
    {
      ConfigOk(cfg) && Reachable(cfg, Now())
    }

    constructor (cfg: Config)
      requires ConfigOk(cfg)
      ensures Valid() && Now() == INIT && this.cfg == cfg
    {
      this.cfg := cfg;
      users, emitted, issued := map[], [], {};
      calls, logins, renewals, clock := map[], [], [], 0;
      new;
      Runs.Stays(Next(cfg), INIT);
    }

    /** Validate the input, then register, as call `c`. */
    method Register(input: RegisterInput, ghost c: CallId, env: Env) returns (reply: Call)
      requires Valid() && c !in calls && env.Fresh(users)
      modifies this, input
      ensures Valid() && c in calls && reply == calls[c] && (reply.Created? || reply.Refused?)
      ensures Now() == Follow(cfg, old(Now()), ToRegister(c, old(FormOf(input)), env))
      ensures reply.Created? <==> Succeeds(cfg, old(users), old(FormOf(input)), env)
      ensures reply.Created? ==> reply.uid == env.uid && users == old(users)[env.uid := NewRow(cfg, old(FormOf(input)), env.salt.value)]
      ensures reply.Created? ==> emitted == old(emitted) + [env.uid]
      ensures reply.Created? ==> Password.Compare(cfg.kdf, users[env.uid].password, old(input.password)) == Password.Match
      ensures reply.Refused? ==> users == old(users) && emitted == old(emitted)
      ensures reply.Refused? ==>
                reply.status == if !GoodForm(cfg, old(FormOf(input))) then 422
                                else if Taken(old(users), Normal(cfg.chars, old(input.email))) && !env.lookupFails then 409
                                else 500
    {
      ghost var start, form := Now(), FormOf(input);
      RegisterDecided(cfg, start, c, form, env);
      if env.salt.Some? {
        HashDecides(cfg, form.password, env.salt.value, form.password);
      }
      FollowLeads(cfg, INIT, start, ToRegister(c, form, env));
      RegisterFollows(cfg, start, c, form, env);
      var problem := input.Validate(cfg.chars);
      var reg := Registration(input.firstName, input.lastName, input.email, input.password);
      assert Now() == start;
      assert Checks(cfg, form) == if problem.Some? then Refused(422) else Validated(reg);
      if problem.Some? {
        reply := Refused(422);
      } else {
        reply := Create(reg, env);
      }
      calls := calls[c := reply];
    }

    /** What follows validation: look up, hash, insert, announce. */
    method Create(reg: Registration, env: Env) returns (reply: Call)
      modifies `users, `emitted
      ensures forall c :: At(Now(), c, reply) == Registered(cfg, old(Now()), c, Validated(reg), env)
      ensures reply.Created? || reply.Refused?
      ensures reply.Refused? ==> users == old(users) && emitted == old(emitted)
    {
      if !env.lookupFails && HasEmail(users, reg.email) {
        return Refused(409);
      }
      if env.salt == None {
        return Refused(500);
      }
      var hash := StoredHash(cfg, reg.password, env.salt.value);
      if env.insertFails || !Insertable(users, reg, hash) {
        return Refused(500);
      }
      users := users[env.uid := Row(reg, hash)];
      emitted := emitted + [env.uid];
      return Created(reg, env.uid);
    }

    /**
     Validate the input, check the credentials and sign both tokens, at `accessAt` and then at
     `refreshAt`, as call `c`.  The credentials of an earlier registration succeed, unless the
     database fails, and the access token then shows that user until it expires.
     */
    method LogIn(input: LoginInput, ghost c: CallId, found: Option<Uid>, accessAt: int, refreshAt: int) returns (reply: Call)
      requires Valid() && c !in calls && LookupResult(users, Normal(cfg.chars, input.email), found)
      requires clock <= accessAt <= refreshAt
      modifies this, input
      ensures Valid() && users == old(users) && c in calls && reply == calls[c] && (reply.LoggedIn? || reply.Refused?)
      ensures Now() == Follow(cfg, old(Now()), ToLogIn(c, old(input.email), old(input.password), found, accessAt, refreshAt))
      ensures reply.LoggedIn? <==>
              && Normal(cfg.chars, old(input.email)) != "" && old(input.password) != []
              && found.Some? && RightPassword(cfg, old(Now()), found.value, old(input.password))
      ensures reply.Refused? ==> reply.status == if Normal(cfg.chars, old(input.email)) == "" || old(input.password) == [] then 422 else 401
      ensures found.Some? ==> Welcomes(cfg, old(Now()), old(input.email), old(input.password), reply)
      ensures reply.LoggedIn? ==> found == Some(reply.uid) && reply.uid in users && users[reply.uid].email == Normal(cfg.chars, old(input.email))
      ensures reply.LoggedIn? ==>
                && reply.access == Token(cfg.accessKey, Claims(reply.uid, accessAt / 1_000_000_000, accessAt / 1_000_000_000 + 86400))
                && reply.refresh == Token(cfg.refreshKey, Claims(reply.uid, refreshAt / 1_000_000_000, refreshAt / 1_000_000_000 + 2592000))
                && issued == old(issued) + {reply.access, reply.refresh}
      ensures reply.LoggedIn? ==> reply.uid in users && Shows(cfg, Now(), reply.access, users[reply.uid])
      ensures reply.Refused? ==> issued == old(issued)
    {
      ghost var start, email, password := Now(), input.email, input.password;
      LogInRuns(cfg, start, c, email, password, found, accessAt, refreshAt);
      LoginChecks(cfg, start, email, password, found);
      var problem := input.Validate(cfg.chars);
      assert Now() == start && problem == LoginProblem(Normal(cfg.chars, email), password) && input.password == password;
      if problem.Some? {
        reply := Refused(422);
        calls, clock := calls[c := reply], accessAt;
      } else {
        reply := SignIn(input.password, c, found, accessAt, refreshAt);
        Lifetimes(if reply.LoggedIn? then reply.uid else "", accessAt);
        Lifetimes(if reply.LoggedIn? then reply.uid else "", refreshAt);
      }
    }

    /** What follows validation: compare the password with the row that was found, and sign. */
    method SignIn(password: Bytes, ghost c: CallId, found: Option<Uid>, accessAt: int, refreshAt: int) returns (reply: Call)
      requires found.Some? ==> found.value in users
      modifies this
      ensures Now() == Answered(cfg, old(Now()), c, PasswordChecked(cfg, users, password, found), accessAt, refreshAt)
      ensures users == old(users) && c in calls && reply == calls[c] && (reply.LoggedIn? || reply.Refused?)
      ensures reply.LoggedIn? ==>
                var l := Login(reply.uid, accessAt, refreshAt);
                && found == Some(l.uid) && reply == LoggedIn(l.uid, AccessOf(cfg, l), RefreshOf(cfg, l))
                && issued == old(issued) + {AccessOf(cfg, l), RefreshOf(cfg, l)}
      ensures reply.Refused? ==> issued == old(issued)
    {
      if found == None || Password.Compare(cfg.kdf, users[found.value].password, password) != Password.Match {
        reply := Refused(401);
        calls, clock := calls[c := reply], accessAt;
        return;
      }
      var access := Sign(cfg.accessKey, StandardClaims(found.value, ACCESS_TTL, accessAt));
      var refresh := Sign(cfg.refreshKey, StandardClaims(found.value, REFRESH_TTL, refreshAt));
      issued := issued + {access, refresh};
      reply := LoggedIn(found.value, access, refresh);
      calls, logins, clock := calls[c := reply], logins + [Login(found.value, accessAt, refreshAt)], refreshAt;
    }

    /**
     Exchange a refresh token, checked at `checkedAt`, for an access token signed at `signedAt`.
     With distinct keys exactly the unexpired refresh tokens of logins are taken.
     */
    method RefreshToken(token: Token, ghost c: CallId, checkedAt: int, signedAt: int) returns (reply: Call)
      requires Valid() && c !in calls && clock <= checkedAt <= signedAt
      modifies this
      ensures Valid() && users == old(users) && c in calls && reply == calls[c] && (reply.Renewed? || reply == Refused(401))
      ensures Now() == Follow(cfg, old(Now()), ToRefresh(c, token, checkedAt, signedAt))
      ensures cfg.accessKey != cfg.refreshKey ==>
                (reply.Renewed? <==>
                 exists l :: l in old(logins) && token == RefreshOf(cfg, l) && checkedAt < Unix(l.refreshAt) * SECOND + REFRESH_TTL)
      ensures reply.Renewed? ==>
                && reply.access == Token(cfg.accessKey, Claims(token.claims.uid, signedAt / 1_000_000_000, signedAt / 1_000_000_000 + 86400))
                && issued == old(issued) + {reply.access}
      ensures forall now :: reply.Renewed? ==>
                Guard(cfg, issued, reply.access, now) ==
                if now < Unix(signedAt) * SECOND + ACCESS_TTL then Some(token.claims.uid) else None
      ensures reply.Refused? ==> issued == old(issued)
    {
      ghost var start := Now();
      Lifetimes(token.claims.uid, signedAt);
      FollowLeads(cfg, INIT, start, ToRefresh(c, token, checkedAt, signedAt));
      RefreshFollows(cfg, start, c, token, checkedAt, signedAt);
      if cfg.accessKey != cfg.refreshKey {
        Goes(cfg, INIT, start, Tick(checkedAt));
        RefreshTakes(cfg, start.(clock := checkedAt), token);
      }
      var claims := Verify(issued, cfg.refreshKey, token, checkedAt);
      if claims == None || claims.value.uid == "" {
        reply := Refused(401);
      } else {
        var access := Sign(cfg.accessKey, StandardClaims(claims.value.uid, ACCESS_TTL, signedAt));
        issued := issued + {access};
        reply := Renewed(access);
        renewals := renewals + [Renewal(token, checkedAt, signedAt)];
        forall now {
          GuardAccess(cfg, issued, claims.value.uid, signedAt, now);
        }
      }
      calls, clock := calls[c := reply], signedAt;
    }
  }
}
