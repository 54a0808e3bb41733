/** What every interleaving of the account transactions keeps. The password check of a change is a
    separate, earlier step (internal/market/actions_auth.go, actions_account.go, admin_ban.go). */
module AccountRuns {
  import opened Results
  import opened Accounts

  /** A password confirmed outside any transaction: by the session own of user, then in role, against
      the hash read at that moment. */
  datatype Attempt = Attempt(user: string, own: string, role: Role, hash: string)

  datatype World = World(db: Db, attempts: set<Attempt>)

  datatype Step =
    | SignIn(id: string, previous: string, how: Method, checked: string, token: string, gone: set<string>, refused: bool)
    | Defer(id: string, checked: string, token: string)
    | Challenge(pending: string, previous: string, verified: bool, token: string, gone: set<string>, refused: bool)
    | Drop(gone: set<string>)
    | Revoke(id: string)
    | Verify(id: string, own: string)
    | ChangePassword(a: Attempt, hash: string, token: string, codes: bool)
    | Reset(id: string, hash: string)
    | Suspend(actor: string, id: string, now: int)
    | Restore(actor: string, id: string)
    | Ban(actor: string, id: string, now: int)
    | Unban(actor: string, id: string)
    | ChangeRole(actor: string, id: string, role: Role)
    | SetRole(id: string, role: Role)
    | Register(id: string, handle: string, hash: string)
    | Install(id: string, handle: string, hash: string)
    | SetFactors(id: string, totp: bool, pgp: bool)

  /** Tokens are fresh, new hashes are not empty, and a request's session is or was its user's. */
  predicate Enabled(w: World, s: Step) {
    match s
    case SignIn(_, _, _, _, token, _, _) => token !in w.db.issued
    case Defer(_, _, token) => token !in w.db.issued
    case Challenge(_, _, _, token, _, _) => token !in w.db.issued
    case Verify(id, own) => id in w.db.users && own in w.db.issued && (own in w.db.sessions ==> w.db.sessions[own].user == id)
    case ChangePassword(a, hash, token, _) => a in w.attempts && hash != "" && token !in w.db.issued
    case Reset(_, hash) => hash != ""
    case Register(_, _, hash) => hash != ""
    case Install(_, _, hash) => hash != ""
    case SetFactors(id, _, _) => id in w.db.users
    case _ => true
  }

  ghost function Outcome(env: Env, w: World, s: Step): Option<Db>
    requires Enabled(w, s)
  {
    var db := w.db;
    match s
    case SignIn(id, previous, how, checked, token, gone, refused) =>
      Started(env, db, id, previous, how, env.digest(checked), checked, token, gone, refused)
    case Defer(id, checked, token) => Some(Deferred(env, db, id, checked, token))
    case Challenge(pending, previous, verified, token, gone, refused) => Challenged(env, db, pending, previous, verified, token, gone, refused)
    case Drop(gone) => Some(db.(sessions := db.sessions - gone, pending := db.pending - gone))
    case Revoke(id) => Some(SignOut(db, id))
    case Verify(_, _) => None
    case ChangePassword(a, hash, token, codes) => PasswordChanged(db, a.user, a.own, a.role, hash, token, codes)
    case Reset(id, hash) => PasswordReset(db, id, hash)
    case Suspend(actor, id, now) => Suspended(db, actor, id, now)
    case Restore(actor, id) => Restored(db, actor, id)
    case Ban(actor, id, now) => Banned(env, db, actor, id, now)
    case Unban(actor, id) => Unbanned(env, db, actor, id)
    case ChangeRole(actor, id, role) => RoleChanged(db, actor, id, role)
    case SetRole(id, role) => RoleSet(db, id, role)
    case Register(id, handle, hash) => Registered(env, db, id, handle, hash)
    case Install(id, handle, hash) => Installed(env, db, id, handle, hash)
    case SetFactors(id, totp, pgp) => Some(SetUser(db, id, db.users[id].(totp := totp, pgp := pgp)))
  }

  ghost function Apply(env: Env, w: World, s: Step): World
    requires Enabled(w, s)
  {
    if s.Verify? then w.(attempts := w.attempts + {Attempt(s.id, s.own, w.db.users[s.id].role, w.db.users[s.id].hash)})
    else
      var r := Outcome(env, w, s);
      if r.Some? then w.(db := r.value) else w
  }

  // -------------------------------------------------------------------- the invariant

  /** A live session belongs to an account that may sign in, under the account's current hash. */
  predicate SessionOk(db: Db, t: string)
    requires t in db.sessions
  {
    var s := db.sessions[t];
    t in db.issued && s.user in db.users && s.under == db.users[s.user].hash && !db.users[s.user].Blocked()
  }

  ghost predicate SessionsOk(db: Db) {
    forall t :: t in db.sessions ==> SessionOk(db, t)
  }

  ghost predicate PendingOk(env: Env, db: Db) {
    forall t :: t in db.pending ==> db.pending[t].digest == env.digest(db.pending[t].checked)
  }

  /** While the session a password was confirmed with lives, the confirmed hash is the current one. */
  predicate AttemptOk(db: Db, a: Attempt) {
    a.own in db.issued && (a.own in db.sessions ==> db.sessions[a.own] == Session(a.user, a.hash))
  }

  ghost predicate AttemptsOk(w: World) {
    forall a :: a in w.attempts ==> AttemptOk(w.db, a)
  }

  /** Administrators are never suspended or banned; a banned account is suspended, holds no staff role
      and keeps its handle reserved. */
  predicate UserOk(env: Env, reserved: set<string>, u: User) {
    && (u.role == Admin ==> u.suspended.None? && !u.banned)
    && (u.banned ==> u.suspended.Some? && u.role != Moderator && env.lower(u.handle) in reserved)
  }

  ghost predicate UsersOk(env: Env, db: Db) {
    forall id :: id in db.users ==> UserOk(env, db.reserved, db.users[id])
  }

  ghost predicate AdminOk(db: Db) {
    db.installed ==> exists id :: id in db.users && db.users[id].ActiveAdmin()
  }

  ghost predicate Inv(env: Env, w: World) {
    SessionsOk(w.db) && PendingOk(env, w.db) && AttemptsOk(w) && UsersOk(env, w.db) && AdminOk(w.db)
  }

  /** An empty database, before first-run setup. */
  function EmptyMarket(): World {
    World(Db(map[], map[], map[], {}, false, {}), {})
  }

  lemma EmptyInv(env: Env)
    ensures Inv(env, EmptyMarket())
  {}

  // ------------------------------------------------------------------ each step keeps it

  ghost predicate SubMap<K, V>(a: map<K, V>, b: map<K, V>) {
    forall k :: k in a ==> k in b && a[k] == b[k]
  }

  /** Rows only leave the session and pending tables. */
  lemma RowsLeave(env: Env, w: World, db': Db)
    requires Inv(env, w) && db' == w.db.(sessions := db'.sessions, pending := db'.pending)
    requires SubMap(db'.sessions, w.db.sessions) && SubMap(db'.pending, w.db.pending)
    ensures Inv(env, w.(db := db'))
  {
    forall t | t in db'.sessions ensures SessionOk(db', t) { assert SessionOk(w.db, t); }
    forall a | a in w.attempts ensures AttemptOk(db', a) { assert AttemptOk(w.db, a); }
  }

  /** One users row is written; its sessions end unless its hash and its right to sign in stay. */
  lemma RowWritten(env: Env, w: World, id: string, u: User, db': Db)
    requires Inv(env, w) && db' == w.db.(users := w.db.users[id := u], sessions := db'.sessions, pending := db'.pending,
                                         reserved := db'.reserved, installed := db'.installed)
    requires SubMap(db'.sessions, w.db.sessions) && SubMap(db'.pending, w.db.pending)
    requires (forall t :: t in db'.sessions ==> db'.sessions[t].user != id)
          || (id in w.db.users && u.hash == w.db.users[id].hash && u.Blocked() == w.db.users[id].Blocked())
    requires UserOk(env, db'.reserved, u)
    requires forall v :: v in w.db.users && v != id ==> UserOk(env, db'.reserved, w.db.users[v])
    requires AdminOk(db')
    ensures Inv(env, w.(db := db'))
  {
    forall t | t in db'.sessions ensures SessionOk(db', t) { assert SessionOk(w.db, t); }
    forall a | a in w.attempts ensures AttemptOk(db', a) { assert AttemptOk(w.db, a); }
    assert UsersOk(env, db');
  }

  lemma SignedOut(db: Db, id: string)
    ensures SubMap(SignOut(db, id).sessions, db.sessions) && SubMap(SignOut(db, id).pending, db.pending)
    ensures forall t :: t in SignOut(db, id).sessions ==> SignOut(db, id).sessions[t].user != id
  {}

  /** An active administrator other than id, or id itself still one, is enough. */
  lemma AdminKept(db: Db, id: string, u: User, db': Db)
    requires AdminOk(db) && db'.users == db.users[id := u] && db'.installed == db.installed
    requires (id in db.users && db.users[id].ActiveAdmin()) ==> u.ActiveAdmin() || AnotherAdmin(db, id)
    ensures AdminOk(db')
  {
    if db.installed {
      var v :| v in db.users && db.users[v].ActiveAdmin();
      if v == id && !u.ActiveAdmin() {
        var x :| x in db.users && x != id && db.users[x].ActiveAdmin();
        assert x in db'.users && db'.users[x].ActiveAdmin();
      } else {
        assert v in db'.users && db'.users[v].ActiveAdmin();
      }
    }
  }

  /** A session opened for a fresh token under the account's current hash. */
  lemma SessionOpened(env: Env, w: World, gone: set<string>, token: string, s: Session)
    requires Inv(env, w) && token !in w.db.issued
    requires s.user in w.db.users && s.under == w.db.users[s.user].hash && !w.db.users[s.user].Blocked()
    ensures Inv(env, w.(db := w.db.(sessions := (w.db.sessions - gone)[token := s], issued := w.db.issued + {token})))
  {
    var db' := w.db.(sessions := (w.db.sessions - gone)[token := s], issued := w.db.issued + {token});
    forall t | t in db'.sessions ensures SessionOk(db', t) { if t != token { assert SessionOk(w.db, t); } }
    forall a | a in w.attempts ensures AttemptOk(db', a) { assert AttemptOk(w.db, a); }
  }

  lemma StartedOk(env: Env, w: World, id: string, previous: string, how: Method, digest: string, checked: string, token: string,
                  gone: set<string>, refused: bool)
    requires env.Valid() && Inv(env, w) && token !in w.db.issued && digest == env.digest(checked)
    ensures var r := Started(env, w.db, id, previous, how, digest, checked, token, gone, refused);
            r.Some? ==> Inv(env, w.(db := r.value))
  {
    if Started(env, w.db, id, previous, how, digest, checked, token, gone, refused).Some? {
      SessionOpened(env, w, gone + {previous}, token, Session(id, checked));
    }
  }

  lemma SignInSteps(env: Env, w: World, s: Step)
    requires env.Valid() && Inv(env, w) && Enabled(w, s) && (s.SignIn? || s.Challenge?)
    ensures Inv(env, Apply(env, w, s))
  {
    if s.SignIn? {
      StartedOk(env, w, s.id, s.previous, s.how, env.digest(s.checked), s.checked, s.token, s.gone, s.refused);
    } else if s.pending in w.db.pending && s.verified {
      var p := w.db.pending[s.pending];
      var w1 := w.(db := w.db.(pending := w.db.pending - {s.pending}));
      RowsLeave(env, w, w1.db);
      StartedOk(env, w1, p.user, s.previous, WithFactor, p.digest, p.checked, s.token, s.gone, s.refused);
    }
  }

  lemma RowSteps(env: Env, w: World, s: Step)
    requires Inv(env, w) && Enabled(w, s) && (s.Defer? || s.Drop? || s.Revoke? || s.Verify?)
    ensures Inv(env, Apply(env, w, s))
  {
    if s.Defer? {
      DeferOk(env, w, s);
    } else if s.Verify? {
      if s.own in w.db.sessions { assert SessionOk(w.db, s.own); }
    } else if s.Revoke? {
      SignedOut(w.db, s.id);
      RowsLeave(env, w, SignOut(w.db, s.id));
    } else {
      RowsLeave(env, w, Apply(env, w, s).db);
    }
  }

  lemma DeferOk(env: Env, w: World, s: Step)
    requires Inv(env, w) && Enabled(w, s) && s.Defer?
    ensures Inv(env, Apply(env, w, s))
  {
    var db' := Deferred(env, w.db, s.id, s.checked, s.token);
    forall t | t in db'.sessions ensures SessionOk(db', t) { assert SessionOk(w.db, t); }
    forall a | a in w.attempts ensures AttemptOk(db', a) { assert AttemptOk(w.db, a); }
  }

  /** A password change that commits replaces exactly the hash that was confirmed before it. */
  lemma CommitsOnConfirmedHash(env: Env, w: World, s: Step)
    requires Inv(env, w) && Enabled(w, s) && s.ChangePassword? && Outcome(env, w, s).Some?
    ensures s.a.user in w.db.users && w.db.users[s.a.user].hash == s.a.hash
  {
    assert AttemptOk(w.db, s.a) && SessionOk(w.db, s.a.own);
  }

  lemma ChangePasswordOk(env: Env, w: World, s: Step)
    requires Inv(env, w) && Enabled(w, s) && s.ChangePassword?
    ensures Inv(env, Apply(env, w, s))
  {
    if Outcome(env, w, s).Some? {
      var id, u := s.a.user, w.db.users[s.a.user].(hash := s.hash);
      var out := SetUser(SignOut(w.db, id), id, u);
      SignedOut(w.db, id);
      AdminKept(w.db, id, u, out);
      RowWritten(env, w, id, u, out);
      SessionOpened(env, w.(db := out), {s.a.own}, s.token, Session(id, s.hash));
    }
  }

  lemma ResetOk(env: Env, w: World, s: Step)
    requires Inv(env, w) && Enabled(w, s) && s.Reset?
    ensures Inv(env, Apply(env, w, s))
  {
    if Outcome(env, w, s).Some? {
      var u := w.db.users[s.id].(hash := s.hash);
      var out := SetUser(SignOut(w.db, s.id), s.id, u);
      SignedOut(w.db, s.id);
      AdminKept(w.db, s.id, u, out);
      RowWritten(env, w, s.id, u, out);
    }
  }

  lemma SuspendOk(env: Env, w: World, s: Step)
    requires Inv(env, w) && Enabled(w, s) && s.Suspend?
    ensures Inv(env, Apply(env, w, s))
  {
    if Outcome(env, w, s).Some? {
      var u := w.db.users[s.id].(suspended := Some(s.now));
      var out := SetUser(SignOut(w.db, s.id), s.id, u);
      SignedOut(w.db, s.id);
      AdminKept(w.db, s.id, u, out);
      RowWritten(env, w, s.id, u, out);
    }
  }

  lemma SessionsOfBlocked(db: Db, id: string)
    requires SessionsOk(db) && id in db.users && db.users[id].Blocked()
    ensures forall t :: t in db.sessions ==> db.sessions[t].user != id
  {
    forall t | t in db.sessions ensures db.sessions[t].user != id { assert SessionOk(db, t); }
  }

  lemma RestoreOk(env: Env, w: World, s: Step)
    requires Inv(env, w) && Enabled(w, s) && s.Restore?
    ensures Inv(env, Apply(env, w, s))
  {
    if Outcome(env, w, s).Some? {
      var u := w.db.users[s.id].(suspended := None);
      var out := Outcome(env, w, s).value;
      SessionsOfBlocked(w.db, s.id);
      AdminKept(w.db, s.id, u, out);
      RowWritten(env, w, s.id, u, out);
    }
  }

  lemma BannedShape(env: Env, db: Db, actor: string, id: string, now: int)
    requires Banned(env, db, actor, id, now).Some?
    ensures var out := Banned(env, db, actor, id, now).value;
            && id in db.users && db.users[id].role != Admin && id in out.users && UserOk(env, out.reserved, out.users[id])
            && out == SignOut(db, id).(users := db.users[id := out.users[id]], reserved := db.reserved + {env.lower(db.users[id].handle)})
  {}

  lemma StaysReserved(env: Env, db: Db, more: set<string>)
    requires UsersOk(env, db) && db.reserved <= more
    ensures forall v :: v in db.users ==> UserOk(env, more, db.users[v])
  {
    forall v | v in db.users ensures UserOk(env, more, db.users[v]) { assert UserOk(env, db.reserved, db.users[v]); }
  }

  lemma BanOk(env: Env, w: World, s: Step)
    requires Inv(env, w) && Enabled(w, s) && s.Ban?
    ensures Inv(env, Apply(env, w, s))
  {
    if Outcome(env, w, s).Some? {
      var out := Banned(env, w.db, s.actor, s.id, s.now).value;
      BannedShape(env, w.db, s.actor, s.id, s.now);
      StaysReserved(env, w.db, out.reserved);
      SignedOut(w.db, s.id);
      AdminKept(w.db, s.id, out.users[s.id], out);
      RowWritten(env, w, s.id, out.users[s.id], out);
    }
  }

  lemma UnbanOk(env: Env, w: World, s: Step)
    requires Inv(env, w) && Enabled(w, s) && s.Unban?
    ensures Inv(env, Apply(env, w, s))
  {
    if Outcome(env, w, s).Some? {
      var out := Outcome(env, w, s).value;
      var u := out.users[s.id];
      SessionsOfBlocked(w.db, s.id);
      AdminKept(w.db, s.id, u, out);
      forall v | v in w.db.users && v != s.id ensures UserOk(env, out.reserved, w.db.users[v]) {
        assert UserOk(env, w.db.reserved, w.db.users[v]);
      }
      RowWritten(env, w, s.id, u, out);
    }
  }

  lemma RoleOk(env: Env, w: World, s: Step)
    requires Inv(env, w) && Enabled(w, s) && (s.ChangeRole? || s.SetRole?)
    ensures Inv(env, Apply(env, w, s))
  {
    if Outcome(env, w, s).Some? {
      var out := Outcome(env, w, s).value;
      var u := w.db.users[s.id].(role := s.role);
      SignedOut(w.db, s.id);
      AdminKept(w.db, s.id, u, out);
      RowWritten(env, w, s.id, u, out);
    }
  }

  lemma NewAccountOk(env: Env, w: World, s: Step)
    requires Inv(env, w) && Enabled(w, s) && (s.Register? || s.Install?)
    ensures Inv(env, Apply(env, w, s))
  {
    if Outcome(env, w, s).Some? {
      var out := Outcome(env, w, s).value;
      var u := out.users[s.id];
      if s.Install? {
        assert u.ActiveAdmin();
      } else {
        AdminKept(w.db, s.id, u, out);
      }
      forall t | t in out.sessions ensures out.sessions[t].user != s.id { assert SessionOk(w.db, t); }
      RowWritten(env, w, s.id, u, out);
    }
  }

  lemma FactorsOk(env: Env, w: World, s: Step)
    requires Inv(env, w) && Enabled(w, s) && s.SetFactors?
    ensures Inv(env, Apply(env, w, s))
  {
    var u := w.db.users[s.id].(totp := s.totp, pgp := s.pgp);
    AdminKept(w.db, s.id, u, SetUser(w.db, s.id, u));
    RowWritten(env, w, s.id, u, SetUser(w.db, s.id, u));
  }

  /** Every transaction, interleaved in any order, keeps the invariant. */
  lemma StepInv(env: Env, w: World, s: Step)
    requires env.Valid() && Inv(env, w) && Enabled(w, s)
    ensures Inv(env, Apply(env, w, s))
  {
    match s
    case SignIn(_, _, _, _, _, _, _) => SignInSteps(env, w, s);
    case Challenge(_, _, _, _, _, _) => SignInSteps(env, w, s);
    case ChangePassword(_, _, _, _) => ChangePasswordOk(env, w, s);
    case Reset(_, _) => ResetOk(env, w, s);
    case Suspend(_, _, _) => SuspendOk(env, w, s);
    case Restore(_, _) => RestoreOk(env, w, s);
    case Ban(_, _, _) => BanOk(env, w, s);
    case Unban(_, _) => UnbanOk(env, w, s);
    case ChangeRole(_, _, _) => RoleOk(env, w, s);
    case SetRole(_, _) => RoleOk(env, w, s);
    case Register(_, _, _) => NewAccountOk(env, w, s);
    case Install(_, _, _) => NewAccountOk(env, w, s);
    case SetFactors(_, _, _) => FactorsOk(env, w, s);
    case _ => RowSteps(env, w, s);
  }

  // ---------------------------------------------------------------------- whole runs

  ghost predicate Run(env: Env, w: World, steps: seq<Step>, w': World)
    decreases |steps|
  {
    if steps == [] then w == w' else Enabled(w, steps[0]) && Run(env, Apply(env, w, steps[0]), steps[1..], w')
  }

  lemma {:induction false} RunInv(env: Env, w: World, steps: seq<Step>, w': World)
    requires env.Valid() && Inv(env, w) && Run(env, w, steps, w')
    ensures Inv(env, w')
    decreases |steps|
  {
    if steps != [] {
      StepInv(env, w, steps[0]);
      RunInv(env, Apply(env, w, steps[0]), steps[1..], w');
    }
  }

  /** Over all interleavings: every live session is under its account's current password hash, and no
      suspended or closed account has one. */
  lemma {:induction false} SessionsFollowPasswords(env: Env, w: World, steps: seq<Step>, w': World, t: string)
    requires env.Valid() && Inv(env, w) && Run(env, w, steps, w') && t in w'.db.sessions
    ensures var s := w'.db.sessions[t];
            && s.user in w'.db.users && s.under == w'.db.users[s.user].hash
            && w'.db.users[s.user].suspended.None? && !w'.db.users[s.user].closed
  {
    RunInv(env, w, steps, w');
    assert SessionOk(w'.db, t);
  }

  /** Over all interleavings: a password change commits only on the hash confirmed before it. */
  lemma {:induction false} ChangesOnlyConfirmed(env: Env, w: World, steps: seq<Step>, w': World, s: Step)
    requires env.Valid() && Inv(env, w) && Run(env, w, steps, w') && Enabled(w', s) && s.ChangePassword? && Outcome(env, w', s).Some?
    ensures s.a.user in w'.db.users && w'.db.users[s.a.user].hash == s.a.hash
  {
    RunInv(env, w, steps, w');
    CommitsOnConfirmedHash(env, w', s);
  }

  /** Over all interleavings: an installed market has an active administrator, no administrator is
      suspended or banned, and every banned account is suspended and outside the staff. */
  lemma {:induction false} StaffStaysSound(env: Env, w: World, steps: seq<Step>, w': World)
    requires env.Valid() && Inv(env, w) && Run(env, w, steps, w')
    ensures w'.db.installed ==> exists id :: id in w'.db.users && w'.db.users[id].ActiveAdmin()
    ensures forall id :: id in w'.db.users && w'.db.users[id].role == Admin ==> w'.db.users[id].suspended.None? && !w'.db.users[id].banned
    ensures forall id :: id in w'.db.users && w'.db.users[id].banned ==>
              w'.db.users[id].suspended.Some? && w'.db.users[id].role != Moderator && w'.db.users[id].role != Admin
  {
    RunInv(env, w, steps, w');
    forall id | id in w'.db.users ensures UserOk(env, w'.db.reserved, w'.db.users[id]) {}
  }

  /** Over all interleavings: no new account can take a banned account's handle in any case. */
  lemma {:induction false} BannedHandlesStay(env: Env, w: World, steps: seq<Step>, w': World, id: string, s: Step)
    requires env.Valid() && Inv(env, w) && Run(env, w, steps, w') && id in w'.db.users && w'.db.users[id].banned
    requires Enabled(w', s) && (s.Register? || s.Install?) && env.lower(s.handle) == env.lower(w'.db.users[id].handle)
    ensures env.lower(s.handle) in w'.db.reserved && Outcome(env, w', s).None?
  {
    RunInv(env, w, steps, w');
    assert UserOk(env, w'.db.reserved, w'.db.users[id]);
  }

  // --------------------------------------------------------- a password that was replaced

  /** Whether s sets the account's hash to h. */
  predicate SetsHash(s: Step, id: string, h: string) {
    (s.ChangePassword? && s.a.user == id && s.hash == h) || (s.Reset? && s.id == id && s.hash == h)
  }

  predicate HasOther(db: Db, id: string, h: string) {
    id in db.users && db.users[id].hash != h
  }

  lemma StaysOther(env: Env, w: World, s: Step, id: string, h: string)
    requires Enabled(w, s) && HasOther(w.db, id, h) && !SetsHash(s, id, h)
    ensures HasOther(Apply(env, w, s).db, id, h)
  {}

  lemma {:induction false} RunStaysOther(env: Env, w: World, steps: seq<Step>, w': World, id: string, h: string)
    requires Run(env, w, steps, w') && HasOther(w.db, id, h) && forall i :: 0 <= i < |steps| ==> !SetsHash(steps[i], id, h)
    ensures HasOther(w'.db, id, h)
    decreases |steps|
  {
    if steps != [] {
      StaysOther(env, w, steps[0], id, h);
      RunStaysOther(env, Apply(env, w, steps[0]), steps[1..], w', id, h);
    }
  }

  /** Whether s signs id in, in one step or two, on a password checked against h. */
  predicate SignsInUnder(w: World, s: Step, id: string, h: string) {
    || (s.SignIn? && s.id == id && s.checked == h)
    || (s.Challenge? && s.pending in w.db.pending && w.db.pending[s.pending].user == id && w.db.pending[s.pending].checked == h)
  }

  /** Over all interleavings: a committed password change sets the new hash, and from then on no sign-in
      checked against the replaced one succeeds until that hash is set again, not even one whose password
      was checked before the change. */
  lemma {:induction false} OldPasswordRefused(env: Env, w: World, change: Step, steps: seq<Step>, w': World, s: Step)
    requires env.Valid() && Inv(env, w) && Enabled(w, change) && change.ChangePassword? && Outcome(env, w, change).Some?
    requires change.hash != change.a.hash && Run(env, Apply(env, w, change), steps, w')
    requires forall i :: 0 <= i < |steps| ==> !SetsHash(steps[i], change.a.user, change.a.hash)
    requires Enabled(w', s) && SignsInUnder(w', s, change.a.user, change.a.hash)
    ensures w.db.users[change.a.user].hash == change.a.hash && Apply(env, w, change).db.users[change.a.user].hash == change.hash
    ensures Outcome(env, w', s).None?
  {
    var w1, id, h := Apply(env, w, change), change.a.user, change.a.hash;
    CommitsOnConfirmedHash(env, w, change);
    StepInv(env, w, change);
    RunInv(env, w1, steps, w');
    RunStaysOther(env, w1, steps, w', id, h);
  }

  // ----------------------------------------------------------------- staff and sign-in

  predicate IsStaff(db: Db, id: string) {
    id in db.users && (db.users[id].role == Moderator || db.users[id].role == Admin)
  }

  /** An account joins the staff only at first-run setup or by a role change, by another active
      administrator or on the host, and then only with a second factor enrolled. */
  lemma StaffOnlyGranted(env: Env, w: World, s: Step, id: string)
    requires Enabled(w, s) && !IsStaff(w.db, id) && IsStaff(Apply(env, w, s).db, id)
    ensures (s.Install? && !w.db.installed)
         || ((s.ChangeRole? || s.SetRole?) && s.id == id && id in w.db.users && (w.db.users[id].totp || w.db.users[id].pgp))
    ensures s.ChangeRole? ==> s.actor != id && s.actor in w.db.users && w.db.users[s.actor].role == Admin && w.db.users[s.actor].suspended.None?
  {}

  /** A sign-in in two steps succeeds whenever the account may still sign in under the hash that the first
      step checked, whatever ran in between without using up the pending row. */
  lemma {:induction false} SecondStepOpens(env: Env, w: World, first: Step, steps: seq<Step>, w': World, second: Step)
    requires Enabled(w, first) && first.Defer? && Run(env, Apply(env, w, first), steps, w')
    requires first.token in w'.db.pending && w'.db.pending[first.token] == Apply(env, w, first).db.pending[first.token]
    requires Enabled(w', second) && second.Challenge? && second.pending == first.token && second.verified && !second.refused
    requires first.id in w'.db.users && w'.db.users[first.id].hash == first.checked && !w'.db.users[first.id].Blocked()
    ensures var after := Apply(env, w', second).db;
            && second.token in after.sessions && after.sessions[second.token] == Session(first.id, first.checked)
            && first.token !in after.pending
  {}

  // ------------------------------------------------------------- from an empty database

  /** Whether s would commit a password change on a hash other than the one confirmed before it. */
  ghost predicate CommitsUnconfirmed(env: Env, w: World, s: Step) {
    && Enabled(w, s) && s.ChangePassword? && Outcome(env, w, s).Some?
    && (s.a.user in w.db.users ==> w.db.users[s.a.user].hash != s.a.hash)
  }

  /** Whether s would open an account under a banned account's handle, in any case. */
  ghost predicate TakesBanned(env: Env, w: World, s: Step) {
    && Enabled(w, s) && (s.Register? || s.Install?) && Outcome(env, w, s).Some?
    && exists id :: id in w.db.users && w.db.users[id].banned && env.lower(w.db.users[id].handle) == env.lower(s.handle)
  }

  /** All of it for a market that started empty. */
  lemma {:induction false} FromEmptyDatabase(env: Env, steps: seq<Step>, w': World)
    requires env.Valid() && Run(env, EmptyMarket(), steps, w')
    ensures forall t :: t in w'.db.sessions ==> SessionOk(w'.db, t)
    ensures w'.db.installed ==> exists id :: id in w'.db.users && w'.db.users[id].ActiveAdmin()
    ensures forall id :: id in w'.db.users ==> UserOk(env, w'.db.reserved, w'.db.users[id])
    ensures forall s :: !CommitsUnconfirmed(env, w', s) && !TakesBanned(env, w', s)
  {
    EmptyInv(env);
    RunInv(env, EmptyMarket(), steps, w');
    forall s ensures !CommitsUnconfirmed(env, w', s) && !TakesBanned(env, w', s) {
      if CommitsUnconfirmed(env, w', s) { ChangesOnlyConfirmed(env, EmptyMarket(), steps, w', s); }
      if TakesBanned(env, w', s) {
        var id :| id in w'.db.users && w'.db.users[id].banned && env.lower(w'.db.users[id].handle) == env.lower(s.handle);
        BannedHandlesStay(env, EmptyMarket(), steps, w', id, s);
      }
    }
  }

  // ------------------------------------------------------------ a ban and its lifting

  /** The account is banned and remembers the suspension it had before. */
  predicate Remembers(db: Db, id: string, before: Option<int>) {
    id in db.users && db.users[id].banned && db.users[id].prior == before
  }

  lemma BanRemembered(env: Env, w: World, s: Step, id: string, before: Option<int>)
    requires Enabled(w, s) && Remembers(w.db, id, before) && !(s.Unban? && s.id == id)
    ensures Remembers(Apply(env, w, s).db, id, before)
  {}

  ghost predicate NoUnban(steps: seq<Step>, id: string) {
    forall i :: 0 <= i < |steps| ==> !(steps[i].Unban? && steps[i].id == id)
  }

  lemma {:induction false} RunRemembers(env: Env, w: World, steps: seq<Step>, w': World, id: string, before: Option<int>)
    requires Run(env, w, steps, w') && Remembers(w.db, id, before) && NoUnban(steps, id)
    ensures Remembers(w'.db, id, before)
    decreases |steps|
  {
    if steps != [] {
      BanRemembered(env, w, steps[0], id, before);
      RunRemembers(env, Apply(env, w, steps[0]), steps[1..], w', id, before);
    }
  }

  /** Whatever runs between a ban and its lifting, the account gets back exactly the suspension, with
      its time, that it had before the ban, or none. */
  lemma {:induction false} UnbanRestoresSuspension(env: Env, w: World, ban: Step, steps: seq<Step>, w': World, unban: Step)
    requires Enabled(w, ban) && ban.Ban? && Outcome(env, w, ban).Some?
    requires Run(env, Apply(env, w, ban), steps, w') && NoUnban(steps, ban.id)
    requires Enabled(w', unban) && unban.Unban? && unban.id == ban.id && Outcome(env, w', unban).Some?
    ensures Apply(env, w', unban).db.users[ban.id].suspended == w.db.users[ban.id].suspended
    ensures !Apply(env, w', unban).db.users[ban.id].banned
  {
    RunRemembers(env, Apply(env, w, ban), steps, w', ban.id, w.db.users[ban.id].suspended);
  }
}
