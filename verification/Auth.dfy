/**
 The auth service as a transition system: any number of register, login and refresh calls,
 each proceeding in steps that interleave with those of the others over one user table.
 Every step reads the clock at most once, and only a tick moves the clock.

 Signatures are ideal: a token is its key and its claims, and verifying accepts exactly the
 tokens that were signed and handed out.  Instants are nanoseconds; claims hold whole seconds.
 */
module Auth {
  import opened Wrappers
  import opened Base64
  import opened Schema
  import Password
  import Runs

  type Uid = string
  type CallId = nat

  const SECOND := 1_000_000_000
  const HOUR := 3600 * SECOND
  const DAY := 24 * HOUR
  const ACCESS_TTL := DAY
  const REFRESH_TTL := 30 * DAY

  datatype Config = Config(accessKey: string, refreshKey: string, chars: CharTable, kdf: Password.Kdf)

  ghost predicate ConfigOk(cfg: Config) {
    Lawful(cfg.chars) && Password.IsKdf(cfg.kdf)
  }

  // ---------- Tokens ----------

  datatype Claims = Claims(uid: Uid, iat: int, exp: int)

  datatype Token = Token(key: string, claims: Claims)

  function Unix(t: int): int {
    t / SECOND
  }

  function StandardClaims(uid: Uid, ttl: int, now: int): Claims {
    Claims(uid, Unix(now), Unix(now + ttl))
  }

  function Sign(key: string, claims: Claims): Token {
    Token(key, claims)
  }

  function Verify(issued: set<Token>, key: string, token: Token, now: int): Option<Claims> {
    if token in issued && token.key == key && now < token.claims.exp * SECOND then Some(token.claims) else None
  }

  /** The guard of protected routes: the user a bearer token stands for. */
  function Guard(cfg: Config, issued: set<Token>, token: Token, now: int): Option<Uid> {
    match Verify(issued, cfg.accessKey, token, now)
    case None => None
    case Some(claims) => if claims.uid == "" then None else Some(claims.uid)
  }

  // ---------- State ----------

  datatype User = User(firstName: string, lastName: string, email: string, password: string)

  type Users = map<Uid, User>

  /** A registration whose input was validated, its fields in normal form. */
  datatype Registration = Registration(firstName: string, lastName: string, email: string, password: Bytes)

  datatype Call =
    | Validated(reg: Registration)
    | LookedUp(reg: Registration)
    | Hashed(reg: Registration, hash: string)
    | Inserted(reg: Registration, uid: Uid)          // the row is there, the event is not yet emitted
    | Created(reg: Registration, uid: Uid)           // answered 201
    | Checked(uid: Uid)                              // login: the password was right
    | AccessSigned(uid: Uid, accessAt: int)          // the first of the two signatures is made
    | LoggedIn(uid: Uid, access: Token, refresh: Token)
    | Presented(parent: Token, checkedAt: int)       // refresh: the old token was found valid
    | Renewed(access: Token)
    | Refused(status: int)

  datatype Login = Login(uid: Uid, accessAt: int, refreshAt: int)

  datatype Renewal = Renewal(parent: Token, checkedAt: int, signedAt: int)

  datatype State = State(
    users: Users,
    calls: map<CallId, Call>,
    emitted: seq<Uid>,           // the users whose registration was announced
    issued: set<Token>,          // the tokens that were handed out
    logins: seq<Login>,          // the log of successful logins
    renewals: seq<Renewal>,      // the log of successful refreshes
    clock: int)

  const INIT := State(map[], map[], [], {}, [], [], 0)

  // ---------- The user table ----------

  predicate HasEmail(users: Users, email: string) {
    exists id :: id in users && users[id].email == email
  }

  // The column widths.
  predicate Fits(u: User) {
    |u.firstName| <= 50 && |u.lastName| <= 50 && |u.email| <= 100 && |u.password| <= 255
  }

  function Row(reg: Registration, hash: string): User {
    User(reg.firstName, reg.lastName, reg.email, hash)
  }

  /** Whether the table takes a new row: the columns fit and the email is UNIQUE. */
  predicate Insertable(users: Users, reg: Registration, hash: string) {
    Fits(Row(reg, hash)) && !HasEmail(users, reg.email)
  }

  /** The row found by a lookup that does not fail. */
  ghost predicate Finds(users: Users, email: string, id: Uid) {
    id in users && users[id].email == email
  }

  // ---------- Steps ----------

  /** `fails` is a database error, `salt` what the random source gives. */
  datatype Step =
    | Tick(to: int)
    | Submit(call: CallId, firstName: string, lastName: string, email: string, password: Bytes)
    | Lookup(call: CallId, fails: bool)
    | Hash(call: CallId, salt: Option<Bytes>)
    | Insert(call: CallId, uid: Uid, fails: bool)
    | Announce(call: CallId)
    | SubmitLogin(call: CallId, email: string, password: Bytes, found: Option<Uid>)
    | SignAccess(call: CallId)
    | SignRefresh(call: CallId)
    | Present(call: CallId, token: Token)
    | SignRenewed(call: CallId)

  /** `found` is what a lookup by email may return: some row with it, if there is one, or an error. */
  ghost predicate LookupResult(users: Users, email: string, found: Option<Uid>) {
    found.Some? ==> Finds(users, email, found.value)
  }

  ghost predicate Enabled(cfg: Config, s: State, step: Step) {
    match step
    case Tick(to) => s.clock <= to
    case Submit(c, _, _, _, _) => c !in s.calls
    case Lookup(c, _) => c in s.calls && s.calls[c].Validated?
    case Hash(c, salt) => c in s.calls && s.calls[c].LookedUp? && (salt.Some? ==> |salt.value| == Password.DEFAULT_PARAMS.saltLen)
    case Insert(c, uid, _) => c in s.calls && s.calls[c].Hashed? && uid !in s.users && uid != ""
    case Announce(c) => c in s.calls && s.calls[c].Inserted?
    case SubmitLogin(c, email, _, found) => c !in s.calls && LookupResult(s.users, Normal(cfg.chars, email), found)
    case SignAccess(c) => c in s.calls && s.calls[c].Checked?
    case SignRefresh(c) => c in s.calls && s.calls[c].AccessSigned?
    case Present(c, _) => c !in s.calls
    case SignRenewed(c) => c in s.calls && s.calls[c].Presented?
  }

  function Submitted(cfg: Config, firstName: string, lastName: string, email: string, password: Bytes): Call {
    var reg := Registration(Trim(cfg.chars, firstName), Trim(cfg.chars, lastName), Normal(cfg.chars, email), password);
    if RegisterProblem(reg.firstName, reg.email, password).Some? then Refused(422) else Validated(reg)
  }

  function PasswordChecked(cfg: Config, users: Users, password: Bytes, found: Option<Uid>): Call {
    if found == None || found.value !in users then Refused(401)
    else if Password.Compare(cfg.kdf, users[found.value].password, password) != Password.Match then Refused(401)
    else Checked(found.value)
  }

  function LoginChecked(cfg: Config, users: Users, email: string, password: Bytes, found: Option<Uid>): Call {
    if LoginProblem(Normal(cfg.chars, email), password).Some? then Refused(422)
    else PasswordChecked(cfg, users, password, found)
  }

  /** What a refresh call makes of the token it is given. */
  function TokenChecked(cfg: Config, s: State, token: Token): Call {
    match Verify(s.issued, cfg.refreshKey, token, s.clock)
    case None => Refused(401)
    case Some(claims) => if claims.uid == "" then Refused(401) else Presented(token, s.clock)
  }

  function AccessOf(cfg: Config, l: Login): Token {
    Sign(cfg.accessKey, StandardClaims(l.uid, ACCESS_TTL, l.accessAt))
  }

  function RefreshOf(cfg: Config, l: Login): Token {
    Sign(cfg.refreshKey, StandardClaims(l.uid, REFRESH_TTL, l.refreshAt))
  }

  function RenewedBy(cfg: Config, r: Renewal): Token {
    Sign(cfg.accessKey, StandardClaims(r.parent.claims.uid, ACCESS_TTL, r.signedAt))
  }

  function At(s: State, c: CallId, call: Call): State {
    s.(calls := s.calls[c := call])
  }

  /** A login answers with both its tokens. */
  function HandOut(cfg: Config, s: State, c: CallId, l: Login): State {
    At(s, c, LoggedIn(l.uid, AccessOf(cfg, l), RefreshOf(cfg, l)))
    .(issued := s.issued + {AccessOf(cfg, l), RefreshOf(cfg, l)}, logins := s.logins + [l])
  }

  /** A refresh answers with a new access token. */
  function HandOutRenewed(cfg: Config, s: State, c: CallId, r: Renewal): State {
    At(s, c, Renewed(RenewedBy(cfg, r))).(issued := s.issued + {RenewedBy(cfg, r)}, renewals := s.renewals + [r])
  }

  ghost function Apply(cfg: Config, s: State, step: Step): State
    requires Enabled(cfg, s, step)
  {
    match step
    case Tick(to) => s.(clock := to)
    case Submit(c, firstName, lastName, email, password) => At(s, c, Submitted(cfg, firstName, lastName, email, password))
    case Lookup(c, fails) =>
      var reg := s.calls[c].reg;
      At(s, c, if !fails && HasEmail(s.users, reg.email) then Refused(409) else LookedUp(reg))
    case Hash(c, salt) =>
      var reg := s.calls[c].reg;
      At(s, c, if salt == None then Refused(500) else Hashed(reg, StoredHash(cfg, reg.password, salt.value)))
    case Insert(c, uid, fails) =>
      var reg, hash := s.calls[c].reg, s.calls[c].hash;
      if fails || !Insertable(s.users, reg, hash) then At(s, c, Refused(500))
      else At(s, c, Inserted(reg, uid)).(users := s.users[uid := Row(reg, hash)])
    case Announce(c) => At(s, c, Created(s.calls[c].reg, s.calls[c].uid)).(emitted := s.emitted + [s.calls[c].uid])
    case SubmitLogin(c, email, password, found) => At(s, c, LoginChecked(cfg, s.users, email, password, found))
    case SignAccess(c) => At(s, c, AccessSigned(s.calls[c].uid, s.clock))
    case SignRefresh(c) => HandOut(cfg, s, c, Login(s.calls[c].uid, s.calls[c].accessAt, s.clock))
    case Present(c, token) => At(s, c, TokenChecked(cfg, s, token))
    case SignRenewed(c) => HandOutRenewed(cfg, s, c, Renewal(s.calls[c].parent, s.calls[c].checkedAt, s.clock))
  }

  function StoredHash(cfg: Config, password: Bytes, salt: Bytes): string {
    var p := Password.DEFAULT_PARAMS;
    Password.Print(p, salt, Password.Key(cfg.kdf, p, salt, password))
  }

  // ---------- Reading ----------

  datatype MeReply = Ok(user: User) | NotFound | Unauthorized

  /** The guarded route that returns the caller's own record; `fails` is a database error. */
  function Me(cfg: Config, s: State, token: Token, now: int, fails: bool): MeReply {
    match Guard(cfg, s.issued, token, now)
    case None => Unauthorized
    case Some(uid) => if !fails && uid in s.users then Ok(s.users[uid]) else NotFound
  }

  ghost predicate Follows(cfg: Config, s: State, s': State) {
    exists step :: Enabled(cfg, s, step) && s' == Apply(cfg, s, step)
  }

  ghost function Next(cfg: Config): (State, State) -> bool {
    (s, s') => Follows(cfg, s, s')
  }

  /** Some run goes from `s` to `t`. */
  ghost predicate Leads(cfg: Config, s: State, t: State) {
    Runs.Leads(Next(cfg), s, t)
  }

  ghost predicate Reachable(cfg: Config, s: State) {
    Leads(cfg, INIT, s)
  }

  lemma Goes(cfg: Config, from: State, s: State, step: Step)
    requires Leads(cfg, from, s) && Enabled(cfg, s, step)
    ensures Leads(cfg, from, Apply(cfg, s, step))
  {
    assert Follows(cfg, s, Apply(cfg, s, step));
    Runs.Extends(Next(cfg), from, s, Apply(cfg, s, step));
  }
}
