/** Accounts, sessions and the transactions that change them (internal/market/actions_auth.go,
    actions_account.go, admin_password.go, admin_ban.go, actions_admin.go, admin_role.go).
    Each transaction is one atomic change under its row lock; None means it was refused and rolled back. */
module Accounts {
  import opened Results

  datatype Role = Buyer | Vendor | Moderator | Admin

  /** A users row: suspended holds suspended_at, prior holds ban_prior_suspended_at. */
  datatype User = User(handle: string, hash: string, role: Role, suspended: Option<int>, banned: bool, prior: Option<int>,
                       closed: bool, closing: bool, totp: bool, pgp: bool)
  {
    predicate Factor() {
      totp || pgp
    }

    predicate Erased() {
      closed || hash == ""
    }

    /** An administrator the host commands count as able to act. */
    predicate ActiveAdmin() {
      role == Admin && suspended.None? && !Erased() && !closing
    }

    predicate Blocked() {
      suspended.Some? || closed
    }
  }

  /** A sessions row. under is not stored by the program: it is the password hash the sign-in was
      checked against, or the one a password change carried the session over to. */
  datatype Session = Session(user: string, under: string)

  /** A pending_logins row; checked is the hash whose digest was stored. */
  datatype PendingLogin = PendingLogin(user: string, digest: string, checked: string)

  /** issued holds every token ever handed out; fresh tokens are outside it. */
  datatype Db = Db(users: map<string, User>, sessions: map<string, Session>, pending: map<string, PendingLogin>,
                   reserved: set<string>, installed: bool, issued: set<string>)

  /** PostgreSQL's lower() and the token and hash digest. */
  datatype Env = Env(lower: string -> string, digest: string -> string) {
    ghost predicate Valid() {
      forall a, b :: digest(a) == digest(b) ==> a == b
    }
  }

  function SessionsOf(sessions: map<string, Session>, id: string): set<string> {
    set t | t in sessions && sessions[t].user == id
  }

  function PendingOf(pending: map<string, PendingLogin>, id: string): set<string> {
    set t | t in pending && pending[t].user == id
  }

  function SignOut(db: Db, id: string): Db {
    db.(sessions := db.sessions - SessionsOf(db.sessions, id), pending := db.pending - PendingOf(db.pending, id))
  }

  function SetUser(db: Db, id: string, u: User): Db {
    db.(users := db.users[id := u])
  }

  // ---------------------------------------------------------------------- sign-in

  datatype Method = PasswordOnly | WithFactor

  /** startSession: refused when the account is suspended or closed, when its hash is no longer the one
      checked, or when a factor was enrolled meanwhile. gone are the rows the expiry clean-up removes. */
  function Started(env: Env, db: Db, id: string, previous: string, how: Method, digest: string, checked: string, token: string,
                   gone: set<string>, refused: bool): Option<Db>
  {
    if id !in db.users || refused then None
    else
      var u := db.users[id];
      if u.Blocked() || env.digest(u.hash) != digest || (how.PasswordOnly? && u.Factor()) then None
      else Some(db.(sessions := (db.sessions - (gone + {previous}))[token := Session(id, checked)], issued := db.issued + {token}))
  }

  /** secondFactor: the password was checked, a second step is still to come. */
  function Deferred(env: Env, db: Db, id: string, checked: string, token: string): Db {
    db.(pending := db.pending[token := PendingLogin(id, env.digest(checked), checked)], issued := db.issued + {token})
  }

  /** challengeAction: the second step of a pending sign-in. */
  function Challenged(env: Env, db: Db, pending: string, previous: string, verified: bool, token: string, gone: set<string>, refused: bool): Option<Db> {
    if pending !in db.pending || !verified then None
    else
      var p := db.pending[pending];
      Started(env, db.(pending := db.pending - {pending}), p.user, previous, WithFactor, p.digest, p.checked, token, gone, refused)
  }

  // --------------------------------------------------------------------- passwords

  /** The account under its new hash, with one session in the place of own. */
  function Rehashed(db: Db, id: string, own: string, hash: string, token: string): Db
    requires id in db.users
  {
    var out := SetUser(SignOut(db, id), id, db.users[id].(hash := hash));
    out.(sessions := (out.sessions - {own})[token := Session(id, hash)], issued := out.issued + {token})
  }

  /** passwordChangeAction's transaction, for a request made with own by a user then in role: every
      pending sign-in and other session ends and this one is rotated, if it still exists. */
  function PasswordChanged(db: Db, id: string, own: string, role: Role, hash: string, token: string, codes: bool): Option<Db> {
    if id !in db.users || db.users[id].role != role || db.users[id].Blocked() || !codes then None
    else if own !in db.sessions then None
    else Some(Rehashed(db, id, own, hash, token))
  }

  /** ResetAdminPassword, of the account with the given handle. */
  function PasswordReset(db: Db, id: string, hash: string): Option<Db> {
    if id !in db.users || db.users[id].Erased() || db.users[id].role != Admin then None
    else Some(SetUser(SignOut(db, id), id, db.users[id].(hash := hash)))
  }

  // ---------------------------------------------------------- suspension, bans, roles

  /** What confirmedTx rechecks of the administrator who acts, and that it is another account. */
  predicate MayAct(db: Db, actor: string, id: string) {
    actor in db.users && db.users[actor].role == Admin && !db.users[actor].Blocked() && actor != id
  }

  function Suspended(db: Db, actor: string, id: string, now: int): Option<Db> {
    if !MayAct(db, actor, id) || id !in db.users then None
    else
      var u := db.users[id];
      if u.role == Admin || u.banned || u.suspended.Some? then None
      else Some(SetUser(SignOut(db, id), id, u.(suspended := Some(now))))
  }

  function Restored(db: Db, actor: string, id: string): Option<Db> {
    if !MayAct(db, actor, id) || id !in db.users then None
    else
      var u := db.users[id];
      if u.role == Admin || u.banned || u.suspended.None? then None
      else Some(SetUser(db, id, u.(suspended := None)).(pending := db.pending - PendingOf(db.pending, id)))
  }

  /** The banned row, its sessions ended and its handle reserved. */
  function Marked(env: Env, db: Db, id: string, now: int): Db
    requires id in db.users
  {
    var u := db.users[id];
    var suspended := if u.suspended.Some? then u.suspended else Some(now);
    SetUser(SignOut(db, id), id, u.(banned := true, prior := u.suspended, suspended := suspended))
    .(reserved := db.reserved + {env.lower(u.handle)})
  }

  function Banned(env: Env, db: Db, actor: string, id: string, now: int): Option<Db> {
    if !MayAct(db, actor, id) || id !in db.users then None
    else
      var u := db.users[id];
      if u.role == Admin || u.banned || u.closed then None
      else
        var db' := Marked(env, db, id, now);
        Some(if u.role == Moderator then SetUser(db', id, db'.users[id].(role := Buyer)) else db')
  }

  /** Another banned account whose handle is the same up to case. */
  ghost predicate BannedVariant(env: Env, db: Db, id: string, lower: string) {
    exists v :: v in db.users && v != id && db.users[v].banned && env.lower(db.users[v].handle) == lower
  }

  ghost function Unbanned(env: Env, db: Db, actor: string, id: string): Option<Db> {
    if !MayAct(db, actor, id) || id !in db.users then None
    else
      var u := db.users[id];
      if u.role == Admin || !u.banned || u.closed then None
      else
        var lower := env.lower(u.handle);
        var kept := if BannedVariant(env, db, id, lower) then db.reserved else db.reserved - {lower};
        Some(SetUser(db, id, u.(banned := false, prior := None, suspended := u.prior))
             .(reserved := kept, pending := db.pending - PendingOf(db.pending, id)))
  }

  predicate GrantsStaff(from: Role, role: Role) {
    (role == Admin && from != Admin) || (role == Moderator && from != Moderator && from != Admin)
  }

  /** adminChange's role form. */
  function RoleChanged(db: Db, actor: string, id: string, role: Role): Option<Db> {
    if !MayAct(db, actor, id) || id !in db.users || role == Admin then None
    else
      var u := db.users[id];
      if u.role == Admin || (u.banned && role != Buyer) || (GrantsStaff(u.role, role) && !u.Factor()) then None
      else Some(SetUser(db, id, u.(role := role)))
  }

  ghost predicate AnotherAdmin(db: Db, id: string) {
    exists v :: v in db.users && v != id && db.users[v].ActiveAdmin()
  }

  /** SetRole, the host command. */
  ghost function RoleSet(db: Db, id: string, role: Role): Option<Db> {
    if id !in db.users then None
    else
      var u := db.users[id];
      if u.Erased() || (u.banned && role != Buyer) || u.role == role || (role == Admin && (u.suspended.Some? || u.closing))
         || (GrantsStaff(u.role, role) && !u.Factor()) then None
      else if u.role == Admin && !AnotherAdmin(db, id) then None
      else
        Some(SetUser(if u.role == Admin then SignOut(db, id) else db, id, u.(role := role)))
  }

  // ------------------------------------------------------------------- new accounts

  /** refuseTakenHandle. */
  ghost predicate Taken(env: Env, db: Db, handle: string) {
    || (exists v :: v in db.users && env.lower(db.users[v].handle) == env.lower(handle))
    || env.lower(handle) in db.reserved
  }

  function NewUser(handle: string, hash: string, role: Role): User {
    User(handle, hash, role, None, false, None, false, false, false, false)
  }

  ghost function Registered(env: Env, db: Db, id: string, handle: string, hash: string): Option<Db> {
    if id in db.users || Taken(env, db, handle) then None else Some(SetUser(db, id, NewUser(handle, hash, Buyer)))
  }

  /** installFirstAdmin. */
  ghost function Installed(env: Env, db: Db, id: string, handle: string, hash: string): Option<Db> {
    if db.installed || id in db.users || Taken(env, db, handle) then None
    else Some(SetUser(db, id, NewUser(handle, hash, Admin)).(installed := true))
  }
}
