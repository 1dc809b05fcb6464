/**
 What the auth service keeps in every run: unique normalised emails, one creation per email,
 announcements that match rows, and registered users that can log in and see themselves.
 */
module AuthTheorems {
  import opened Wrappers
  import opened Base64
  import opened Schema
  import opened Auth
  import opened AuthInvariant
  import Password
  import Runs

  // ---------- Users ----------

  /** Stored emails are unique and in normal form. */
  lemma EmailsUnique(cfg: Config, s: State)
    requires ConfigOk(cfg) && Reachable(cfg, s)
    ensures forall a, b :: a in s.users && b in s.users && s.users[a].email == s.users[b].email ==> a == b
    ensures forall id :: id in s.users ==> Normal(cfg.chars, s.users[id].email) == s.users[id].email
  {
    AlwaysInvariant(cfg, s);
  }

  lemma OneOwner(cfg: Config, s: State, c: CallId, d: CallId, id: Uid)
    requires ConfigOk(cfg) && Reachable(cfg, s)
    requires c in s.calls && d in s.calls && Owns(s.calls[c], id) && Owns(s.calls[d], id)
    ensures c == d
  {
    AlwaysInvariant(cfg, s);
  }

  /** At most one call per email is answered 201. */
  lemma CreatedOnce(cfg: Config, s: State, c: CallId, d: CallId)
    requires ConfigOk(cfg) && Reachable(cfg, s)
    requires c in s.calls && d in s.calls && s.calls[c].Created? && s.calls[d].Created?
    requires s.calls[c].reg.email == s.calls[d].reg.email
    ensures c == d
  {
    CallAlwaysOk(cfg, s, c);
    CallAlwaysOk(cfg, s, d);
    OneOwner(cfg, s, c, d, s.calls[c].uid);
  }

  lemma StoredHashSize(cfg: Config, hash: string, password: Bytes)
    requires ConfigOk(cfg) && HashOk(cfg, hash, password)
    ensures |hash| == 97
  {
    var p := Password.DEFAULT_PARAMS;
    var salt :| |salt| == p.saltLen && hash == StoredHash(cfg, password, salt);
    Password.DefaultLength(salt, Password.Key(cfg.kdf, p, salt, password));
  }

  /** Every hash has 97 characters, stored or about to be, so the column of 255 never refuses one. */
  lemma HashesFit(cfg: Config, s: State)
    requires ConfigOk(cfg) && Reachable(cfg, s)
    ensures forall id :: id in s.users ==> |s.users[id].password| == 97
    ensures forall c :: c in s.calls && s.calls[c].Hashed? ==> |s.calls[c].hash| == 97
  {
    AlwaysInvariant(cfg, s);
    forall id | id in s.users ensures |s.users[id].password| == 97 {
      var c :| c in s.calls && Owns(s.calls[c], id);
      CallAlwaysOk(cfg, s, c);
      StoredHashSize(cfg, s.users[id].password, s.calls[c].reg.password);
    }
    forall c | c in s.calls && s.calls[c].Hashed? ensures |s.calls[c].hash| == 97 {
      CallAlwaysOk(cfg, s, c);
      StoredHashSize(cfg, s.calls[c].hash, s.calls[c].reg.password);
    }
  }

  /** The rows whose registration is not announced yet. */
  function Pending(calls: map<CallId, Call>): set<Uid> {
    set c | c in calls && calls[c].Inserted? :: calls[c].uid
  }

  lemma {:induction false} DistinctSize<T>(xs: seq<T>)
    requires forall i, j :: 0 <= i < j < |xs| ==> xs[i] != xs[j]
    ensures |set x | x in xs| == |xs|
  {
    if xs != [] {
      var init, last := xs[..|xs| - 1], xs[|xs| - 1];
      DistinctSize(init);
      assert last !in init;
      assert (set x | x in xs) == (set x | x in init) + {last};
    }
  }

  lemma OwnersCount(ids: set<Uid>, calls: map<CallId, Call>, emitted: seq<Uid>)
    requires OwnersOk(ids, calls, emitted)
    ensures forall id :: id in ids <==> id in emitted || id in Pending(calls)
    ensures forall id :: !(id in emitted && id in Pending(calls))
    ensures |ids| == |emitted| + |Pending(calls)|
  {
    forall id ensures id in ids <==> id in emitted || id in Pending(calls) {
      if id in ids {
        var c :| c in calls && Owns(calls[c], id);
        assert calls[c].Inserted? || calls[c].Created?;
      }
      if id in Pending(calls) {
        var c :| c in calls && calls[c].Inserted? && calls[c].uid == id;
        assert Owns(calls[c], id);
      }
    }
    forall id | id in emitted ensures id !in Pending(calls) {
      var d :| d in calls && Owns(calls[d], id) && calls[d].Created?;
      forall c | c in calls && calls[c].Inserted? ensures calls[c].uid != id {
        assert Owns(calls[c], calls[c].uid);
      }
    }
    DistinctSize(emitted);
    var announced := set id | id in emitted;
    assert ids == announced + Pending(calls);
    assert announced !! Pending(calls);
  }

  /** Rows are the announced users and the pending ones; each is announced at most once. */
  lemma RowsMatchAnnouncements(cfg: Config, s: State)
    requires ConfigOk(cfg) && Reachable(cfg, s)
    ensures forall id :: id in s.users <==> id in s.emitted || id in Pending(s.calls)
    ensures forall id :: !(id in s.emitted && id in Pending(s.calls))
    ensures |s.users| == |s.emitted| + |Pending(s.calls)|
  {
    AlwaysInvariant(cfg, s);
    OwnersCount(s.users.Keys, s.calls, s.emitted);
  }

  /** No step changes or removes a row, or takes back an answer or a token. */
  lemma StepKeepsRows(cfg: Config, s: State, step: Step, id: Uid, c: CallId)
    requires Enabled(cfg, s, step)
    ensures id in s.users ==> id in Apply(cfg, s, step).users && Apply(cfg, s, step).users[id] == s.users[id]
    ensures c in s.calls && (s.calls[c].Created? || s.calls[c].LoggedIn?) ==>
              c in Apply(cfg, s, step).calls && Apply(cfg, s, step).calls[c] == s.calls[c]
    ensures s.issued <= Apply(cfg, s, step).issued
  {
  }

  // ---------- Register, then log in ----------

  lemma StoredHashMatches(cfg: Config, hash: string, password: Bytes)
    requires ConfigOk(cfg) && HashOk(cfg, hash, password)
    ensures Password.Compare(cfg.kdf, hash, password) == Password.Match
  {
    var salt :| |salt| == Password.DEFAULT_PARAMS.saltLen && hash == StoredHash(cfg, password, salt);
    Password.SelfDescribing(cfg.kdf, Password.DEFAULT_PARAMS, salt, password, password);
  }

  /** What the default parameters derive from a password. */
  function DerivedKey(cfg: Config, password: Bytes, salt: Bytes): Bytes {
    cfg.kdf(password, salt, 3, 65536, 4, 32)
  }

  /** `stored` is the hash of `registered` with this salt, and `q` derives the same key. */
  ghost predicate Unlocks(cfg: Config, stored: string, registered: Bytes, salt: Bytes, q: Bytes) {
    && |salt| == 16 && stored == Password.Print(Password.Params(65536, 3, 4, 16, 32), salt, DerivedKey(cfg, registered, salt))
    && DerivedKey(cfg, q, salt) == DerivedKey(cfg, registered, salt)
  }

  /** `q` derives the key of the password with which the user was registered. */
  ghost predicate RightPassword(cfg: Config, s: State, uid: Uid, q: Bytes) {
    && uid in s.users
    && exists c, salt :: c in s.calls && (s.calls[c].Inserted? || s.calls[c].Created?) && s.calls[c].uid == uid
                         && Unlocks(cfg, s.users[uid].password, s.calls[c].reg.password, salt, q)
  }

  lemma HashDecides(cfg: Config, registered: Bytes, salt: Bytes, q: Bytes)
    requires ConfigOk(cfg)
    ensures Password.Compare(cfg.kdf, Password.Print(Password.Params(65536, 3, 4, 16, 32), salt, DerivedKey(cfg, registered, salt)), q) ==
            if DerivedKey(cfg, q, salt) == DerivedKey(cfg, registered, salt) then Password.Match else Password.Mismatch
  {
    Password.SelfDescribing(cfg.kdf, Password.Params(65536, 3, 4, 16, 32), salt, registered, q);
  }

  lemma HashOf(cfg: Config, hash: string, password: Bytes) returns (salt: Bytes)
    requires HashOk(cfg, hash, password)
    ensures |salt| == 16 && hash == Password.Print(Password.Params(65536, 3, 4, 16, 32), salt, DerivedKey(cfg, password, salt))
  {
    salt :| |salt| == Password.DEFAULT_PARAMS.saltLen && hash == StoredHash(cfg, password, salt);
  }

  lemma OwnerOf(cfg: Config, s: State, uid: Uid) returns (c: CallId)
    requires ConfigOk(cfg) && Reachable(cfg, s) && uid in s.users
    ensures c in s.calls && Owns(s.calls[c], uid)
  {
    AlwaysInvariant(cfg, s);
    c :| c in s.calls && Owns(s.calls[c], uid);
  }

  /**
   Every row is that of one registration and holds a hash of its password.  A login that finds
   the row and whose email and password are not empty goes on if and only if its password
   derives the same key.
   */
  lemma LoginDecided(cfg: Config, s: State, uid: Uid) returns (c: CallId, salt: Bytes)
    requires ConfigOk(cfg) && Reachable(cfg, s) && uid in s.users
    ensures c in s.calls && (s.calls[c].Inserted? || s.calls[c].Created?) && s.calls[c].uid == uid
    ensures var reg := s.calls[c].reg;
            && s.users[uid].firstName == reg.firstName && s.users[uid].lastName == reg.lastName && s.users[uid].email == reg.email
            && |salt| == 16
            && s.users[uid].password == Password.Print(Password.Params(65536, 3, 4, 16, 32), salt, cfg.kdf(reg.password, salt, 3, 65536, 4, 32))
            && forall email, q :: LoginChecked(cfg, s.users, email, q, Some(uid)) ==
                                  if Normal(cfg.chars, email) == "" || q == [] then Refused(422)
                                  else if cfg.kdf(q, salt, 3, 65536, 4, 32) == cfg.kdf(reg.password, salt, 3, 65536, 4, 32) then Checked(uid)
                                  else Refused(401)
  {
    c := OwnerOf(cfg, s, uid);
    CallAlwaysOk(cfg, s, c);
    salt := HashOf(cfg, s.users[uid].password, s.calls[c].reg.password);
    forall email, q ensures LoginChecked(cfg, s.users, email, q, Some(uid)) ==
                            if Normal(cfg.chars, email) == "" || q == [] then Refused(422)
                            else if DerivedKey(cfg, q, salt) == DerivedKey(cfg, s.calls[c].reg.password, salt) then Checked(uid)
                            else Refused(401)
    {
      HashDecides(cfg, s.calls[c].reg.password, salt, q);
    }
  }

  lemma UnlocksMatches(cfg: Config, stored: string, registered: Bytes, salt: Bytes, q: Bytes)
    requires ConfigOk(cfg) && Unlocks(cfg, stored, registered, salt, q)
    ensures Password.Compare(cfg.kdf, stored, q) == Password.Match
  {
    HashDecides(cfg, registered, salt, q);
  }

  lemma RightPasswordMatches(cfg: Config, s: State, uid: Uid, q: Bytes)
    requires ConfigOk(cfg) && RightPassword(cfg, s, uid, q)
    ensures Password.Compare(cfg.kdf, s.users[uid].password, q) == Password.Match
  {
    var c, salt :| c in s.calls && (s.calls[c].Inserted? || s.calls[c].Created?) && s.calls[c].uid == uid
                   && Unlocks(cfg, s.users[uid].password, s.calls[c].reg.password, salt, q);
    UnlocksMatches(cfg, s.users[uid].password, s.calls[c].reg.password, salt, q);
  }

  lemma MatchIsRight(cfg: Config, s: State, uid: Uid, q: Bytes)
    requires ConfigOk(cfg) && Reachable(cfg, s) && uid in s.users
    requires Password.Compare(cfg.kdf, s.users[uid].password, q) == Password.Match
    ensures RightPassword(cfg, s, uid, q)
  {
    var c := OwnerOf(cfg, s, uid);
    CallAlwaysOk(cfg, s, c);
    var salt := HashOf(cfg, s.users[uid].password, s.calls[c].reg.password);
    HashDecides(cfg, s.calls[c].reg.password, salt, q);
    assert Unlocks(cfg, s.users[uid].password, s.calls[c].reg.password, salt, q);
  }

  /** A login goes on exactly with the right password; otherwise it is answered 422 or 401. */
  lemma LoginChecks(cfg: Config, s: State, email: string, q: Bytes, found: Option<Uid>)
    requires ConfigOk(cfg) && Reachable(cfg, s) && LookupResult(s.users, Normal(cfg.chars, email), found)
    ensures LoginChecked(cfg, s.users, email, q, found) ==
            if Normal(cfg.chars, email) == "" || q == [] then Refused(422)
            else if found.Some? && RightPassword(cfg, s, found.value, q) then Checked(found.value)
            else Refused(401)
  {
    if found.Some? {
      if RightPassword(cfg, s, found.value, q) {
        RightPasswordMatches(cfg, s, found.value, q);
      } else if Password.Compare(cfg.kdf, s.users[found.value].password, q) == Password.Match {
        MatchIsRight(cfg, s, found.value, q);
      }
    }
  }

  /**
   After a 201, a login with any spelling of that email and the same password, whose lookup
   does not fail, gets as far as its tokens, as the registered user.
   */
  lemma RegisteredLogsIn(cfg: Config, s: State, c: CallId, email: string, found: Option<Uid>)
    requires ConfigOk(cfg) && Reachable(cfg, s) && c in s.calls && s.calls[c].Created?
    requires Normal(cfg.chars, email) == s.calls[c].reg.email
    requires found.Some? && LookupResult(s.users, Normal(cfg.chars, email), found)
    ensures LoginChecked(cfg, s.users, email, s.calls[c].reg.password, found) == Checked(s.calls[c].uid)
  {
    CallAlwaysOk(cfg, s, c);
    var reg, uid := s.calls[c].reg, s.calls[c].uid;
    RegisteredCanLogIn(reg.firstName, reg.email, reg.password);
    assert found.value == uid;
    StoredHashMatches(cfg, s.users[uid].password, reg.password);
  }

  /** The lookup of a registered email finds its row, unless the database fails. */
  lemma RegisteredIsFound(cfg: Config, s: State, c: CallId)
    requires ConfigOk(cfg) && Reachable(cfg, s) && c in s.calls && s.calls[c].Created?
    ensures forall found :: LookupResult(s.users, s.calls[c].reg.email, found) ==>
              found == None || found == Some(s.calls[c].uid)
    ensures LookupResult(s.users, s.calls[c].reg.email, Some(s.calls[c].uid))
  {
    CallAlwaysOk(cfg, s, c);
  }

  /**
   The access token of a login shows the logged-in user's own row exactly until it expires,
   unless the database fails.
   */
  lemma LoggedInSeesSelf(cfg: Config, s: State, c: CallId, now: int, fails: bool)
    requires ConfigOk(cfg) && Reachable(cfg, s) && c in s.calls && s.calls[c].LoggedIn?
    ensures s.calls[c].uid in s.users
    ensures Me(cfg, s, s.calls[c].access, now, fails) ==
            if now >= s.calls[c].access.claims.exp * SECOND then Unauthorized
            else if fails then NotFound
            else Ok(s.users[s.calls[c].uid])
  {
    CallAlwaysOk(cfg, s, c);
  }

  /** The token shows this row exactly until it expires, unless the database fails. */
  ghost predicate Shows(cfg: Config, s: State, access: Token, row: User) {
    forall now, fails :: Me(cfg, s, access, now, fails) ==
                         if now >= access.claims.exp * SECOND then Unauthorized else if fails then NotFound else Ok(row)
  }

  lemma LoggedInShows(cfg: Config, s: State, c: CallId)
    requires ConfigOk(cfg) && Reachable(cfg, s) && c in s.calls && s.calls[c].LoggedIn?
    ensures s.calls[c].uid in s.users && Shows(cfg, s, s.calls[c].access, s.users[s.calls[c].uid])
  {
    CallAlwaysOk(cfg, s, c);
    forall now, fails {
      LoggedInSeesSelf(cfg, s, c, now, fails);
    }
  }

  /** Call `d` is a login that has got past the password check as the user with this row. */
  ghost predicate LoggingIn(s: State, d: CallId, uid: Uid, row: User) {
    && d in s.calls && (s.calls[d].Checked? || s.calls[d].AccessSigned? || s.calls[d].LoggedIn?) && s.calls[d].uid == uid
    && uid in s.users && s.users[uid] == row
  }

  lemma LoggingInStays(cfg: Config, s: State, t: State, d: CallId, uid: Uid, row: User)
    requires LoggingIn(s, d, uid, row) && Leads(cfg, s, t)
    ensures LoggingIn(t, d, uid, row)
  {
    forall x, y | LoggingIn(x, d, uid, row) && Follows(cfg, x, y) ensures LoggingIn(y, d, uid, row) {
      var step :| Enabled(cfg, x, step) && y == Apply(cfg, x, step);
      StepKeepsRows(cfg, x, step, uid, d);
    }
    Runs.Kept(Next(cfg), x => LoggingIn(x, d, uid, row), s, t);
  }

  /** The two signatures of a login, with nothing in between. */
  lemma LoginFinishes(cfg: Config, s: State, d: CallId) returns (t: State)
    requires d in s.calls && s.calls[d].Checked?
    ensures Leads(cfg, s, t) && t.calls.Keys == s.calls.Keys && t.calls[d].LoggedIn? && t.calls[d].uid == s.calls[d].uid
    ensures t == HandOut(cfg, s, d, Login(s.calls[d].uid, s.clock, s.clock))
  {
    Runs.Stays(Next(cfg), s);
    Goes(cfg, s, s, SignAccess(d));
    var s1 := Apply(cfg, s, SignAccess(d));
    Goes(cfg, s, s1, SignRefresh(d));
    t := Apply(cfg, s1, SignRefresh(d));
    assert t.calls == s.calls[d := t.calls[d]];
  }

  /**
   After a 201, a login with any spelling of the email and the same password, whose lookup does
   not fail, can only go on to succeed as that user, whatever other calls do, and some run
   completes it.  From then on its access token shows the registered row exactly until it
   expires.
   */
  lemma RegisterThenLogin(cfg: Config, s: State, c: CallId, email: string, d: CallId, found: Option<Uid>)
    requires ConfigOk(cfg) && Reachable(cfg, s) && c in s.calls && s.calls[c].Created? && d !in s.calls
    requires Normal(cfg.chars, email) == s.calls[c].reg.email
    requires found.Some? && LookupResult(s.users, Normal(cfg.chars, email), found)
    ensures var reg, uid := s.calls[c].reg, s.calls[c].uid;
            var s' := Apply(cfg, s, SubmitLogin(d, email, reg.password, found));
            && uid in s.users && s.users[uid] == Row(reg, s.users[uid].password)
            && (forall t :: Leads(cfg, s', t) ==> LoggingIn(t, d, uid, s.users[uid]))
            && (forall t :: Leads(cfg, s', t) && t.calls[d].LoggedIn? ==> Shows(cfg, t, t.calls[d].access, s.users[uid]))
            && (exists t :: Leads(cfg, s', t) && t.calls[d].LoggedIn?)
  {
    var reg, uid := s.calls[c].reg, s.calls[c].uid;
    var step := SubmitLogin(d, email, reg.password, found);
    var s' := Apply(cfg, s, step);
    CallAlwaysOk(cfg, s, c);
    RegisteredLogsIn(cfg, s, c, email, found);
    Goes(cfg, INIT, s, step);
    forall t | Leads(cfg, s', t) ensures LoggingIn(t, d, uid, s.users[uid]) && Reachable(cfg, t) {
      LoggingInStays(cfg, s', t, d, uid, s.users[uid]);
      Runs.Joins(Next(cfg), INIT, s', t);
    }
    forall t | Leads(cfg, s', t) && t.calls[d].LoggedIn? ensures Shows(cfg, t, t.calls[d].access, s.users[uid]) {
      LoggedInShows(cfg, t, d);
    }
    var t := LoginFinishes(cfg, s', d);
  }
}
