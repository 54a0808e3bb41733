/** The account transactions as they run: row by row over mutable tables, committing only at the end
    (internal/market/actions_auth.go, actions_account.go, admin_password.go, admin_ban.go,
    actions_admin.go, admin_role.go). */
module AccountTables {
  import opened Results
  import opened Accounts

  /** SELECT count(*) of the active administrators other than id. */
  method CountOtherAdmins(users: map<string, User>, id: string) returns (n: nat)
    ensures n > 0 <==> exists v :: v in users && v != id && users[v].ActiveAdmin()
  {
    n := 0;
    var left := users.Keys;
    while left != {}
      invariant left <= users.Keys
      invariant n > 0 <==> exists v :: v in users && v !in left && v != id && users[v].ActiveAdmin()
      decreases |left|
    {
      var v :| v in left;
      if v != id && users[v].ActiveAdmin() { n := n + 1; }
      left := left - {v};
    }
  }

  /** EXISTS a users row, other than except, whose lower-cased handle is lower; with banned, only
      banned rows. */
  method HandleExists(env: Env, users: map<string, User>, lower: string, except: Option<string>, banned: bool) returns (found: bool)
    ensures found <==> exists v :: v in users && Some(v) != except && (banned ==> users[v].banned) && env.lower(users[v].handle) == lower
  {
    var left := users.Keys;
    while left != {}
      invariant left <= users.Keys
      invariant forall v :: v in users && v !in left ==>
                  !(Some(v) != except && (banned ==> users[v].banned) && env.lower(users[v].handle) == lower)
      decreases |left|
    {
      var v :| v in left;
      if Some(v) != except && (!banned || users[v].banned) && env.lower(users[v].handle) == lower { return true; }
      left := left - {v};
    }
    found := false;
  }

  /** Ending the other sessions and then the own one ends all of the account's. */
  lemma OthersAndOwn(sessions: map<string, Session>, id: string, own: string)
    ensures sessions - (set t | t in sessions && sessions[t].user == id && t != own) - {own}
         == sessions - SessionsOf(sessions, id) - {own}
  {}

  /** The transaction committed r, or was refused and left everything as it was. */
  ghost predicate Did(before: Db, r: Option<Db>, after: Db, ok: bool) {
    if r.Some? then ok && after == r.value else !ok && after == before
  }

  /** Of each table's rows exactly the account's own went. */
  ghost predicate EndedFor(before: Db, after: Db, id: string) {
    && (forall t :: t in after.sessions <==> t in before.sessions && before.sessions[t].user != id)
    && (forall t :: t in after.sessions ==> after.sessions[t] == before.sessions[t])
    && NoneDeferred(before, after, id)
  }

  ghost predicate NoneDeferred(before: Db, after: Db, id: string) {
    && (forall t :: t in after.pending <==> t in before.pending && before.pending[t].user != id)
    && (forall t :: t in after.pending ==> after.pending[t] == before.pending[t])
  }

  /** Every other account's row is as it was. */
  ghost predicate OthersKept(before: Db, after: Db, id: string) {
    && (forall v :: v != id ==> (v in after.users <==> v in before.users))
    && (forall v :: v in after.users && v != id ==> after.users[v] == before.users[v])
  }

  /** The one new session, for an account that may sign in; every other session but previous and the expired ones stays. */
  ghost predicate Opened(before: Db, after: Db, token: string, s: Session, previous: string, gone: set<string>) {
    && token in after.sessions && after.sessions[token] == s && s.user in after.users && !after.users[s.user].Blocked()
    && (forall t :: t != token ==> (t in after.sessions <==> t in before.sessions && t != previous && t !in gone))
    && (forall t :: t in after.sessions && t != token ==> after.sessions[t] == before.sessions[t])
    && after.users == before.users && after.reserved == before.reserved
  }

  /** The account's one session is token's, own's is gone, and everyone else's are as they were. */
  ghost predicate Rotated(before: map<string, Session>, after: map<string, Session>, id: string, own: string, token: string, hash: string) {
    && token in after && after[token] == Session(id, hash)
    && (forall t :: t in after && t != token ==> t != own && t in before && after[t] == before[t] && before[t].user != id)
    && (forall t :: t in before && before[t].user != id && t != own && t != token ==> t in after && after[t] == before[t])
  }

  /** Acting takes another account that is an administrator, not suspended and not closed. */
  ghost predicate ByAdministrator(db: Db, actor: string, id: string) {
    actor != id && actor in db.users && db.users[actor].role == Admin && db.users[actor].suspended.None? && !db.users[actor].closed
  }

  class Tables {
    var users: map<string, User>
    var sessions: map<string, Session>
    var pending: map<string, PendingLogin>
    var reserved: set<string>
    var installed: bool
    var issued: set<string>

    function View(): Db
      reads this
    {
      Db(users, sessions, pending, reserved, installed, issued)
    }

    constructor (db: Db)
      ensures View() == db
    {
      users, sessions, pending, reserved, installed, issued := db.users, db.sessions, db.pending, db.reserved, db.installed, db.issued;
    }

    /** DELETE FROM sessions and pending_logins WHERE user_id=id. */
    method EndSessions(id: string)
      modifies this`sessions, this`pending
      ensures View() == SignOut(old(View()), id)
      ensures EndedFor(old(View()), View(), id)
    {
      pending := pending - PendingOf(pending, id);
      sessions := sessions - SessionsOf(sessions, id);
    }

    method StartSession(env: Env, id: string, previous: string, how: Method, digest: string, checked: string, token: string,
                        gone: set<string>, refused: bool) returns (ok: bool)
      modifies this
      ensures Did(old(View()), Started(env, old(View()), id, previous, how, digest, checked, token, gone, refused), View(), ok)
      ensures ok ==> Opened(old(View()), View(), token, Session(id, checked), previous, gone) && pending == old(pending)
      ensures ok <==> && id in old(users) && !refused && old(users)[id].suspended.None? && !old(users)[id].closed
                      && env.digest(old(users)[id].hash) == digest
                      && (how.PasswordOnly? ==> !old(users)[id].totp && !old(users)[id].pgp)
      ensures ok && env.Valid() && digest == env.digest(checked) ==> checked == users[id].hash
    {
      if id !in users { return false; }
      var u := users[id];
      if refused { return false; }
      if u.suspended.Some? || u.closed { return false; }
      if env.digest(u.hash) != digest { return false; }
      if how == PasswordOnly && (u.totp || u.pgp) { return false; }
      sessions := sessions - (gone + {previous});
      sessions := sessions[token := Session(id, checked)];
      issued := issued + {token};
      ok := true;
    }

    method Challenge(env: Env, row: string, previous: string, verified: bool, token: string, gone: set<string>, refused: bool)
      returns (ok: bool)
      modifies this
      ensures Did(old(View()), Challenged(env, old(View()), row, previous, verified, token, gone, refused), View(), ok)
      ensures ok ==> verified && row in old(pending) && pending == old(pending) - {row}
      ensures ok <== && verified && !refused && row in old(pending) && old(pending)[row].user in old(users)
                     && old(users)[old(pending)[row].user].suspended.None? && !old(users)[old(pending)[row].user].closed
                     && env.digest(old(users)[old(pending)[row].user].hash) == old(pending)[row].digest
      ensures ok ==> Opened(old(View()), View(), token, Session(old(pending)[row].user, old(pending)[row].checked), previous, gone)
    {
      if row !in pending { return false; }
      var p := pending[row];
      if !verified { return false; }
      var before := pending;
      pending := pending - {row};
      ok := StartSession(env, p.user, previous, WithFactor, p.digest, p.checked, token, gone, refused);
      if !ok { pending := before; }
    }

    method ChangePassword(id: string, own: string, role: Role, hash: string, token: string, codes: bool) returns (ok: bool)
      modifies this
      ensures Did(old(View()), PasswordChanged(old(View()), id, own, role, hash, token, codes), View(), ok)
      ensures ok <==> && id in old(users) && old(users)[id].role == role && old(users)[id].suspended.None? && !old(users)[id].closed
                      && codes && own in old(sessions)
      ensures ok ==> id in users && users[id] == old(users)[id].(hash := hash) && OthersKept(old(View()), View(), id)
      ensures ok ==> Rotated(old(sessions), sessions, id, own, token, hash) && NoneDeferred(old(View()), View(), id)
    {
      if id !in users { return false; }
      var u := users[id];
      if u.role != role || u.suspended.Some? || u.closed || !codes { return false; }
      var others := set t | t in sessions && sessions[t].user == id && t != own;
      if own !in sessions - others { return false; }
      Rehash(id, own, others, hash, token);
      ok := true;
    }

    /** The writes of a password change: the other sessions end, and own is rotated. */
    method Rehash(id: string, own: string, others: set<string>, hash: string, token: string)
      requires id in users && others == set t | t in sessions && sessions[t].user == id && t != own
      modifies this
      ensures View() == Rehashed(old(View()), id, own, hash, token)
      ensures users == old(users)[id := old(users)[id].(hash := hash)]
      ensures Rotated(old(sessions), sessions, id, own, token, hash) && NoneDeferred(old(View()), View(), id)
    {
      OthersAndOwn(sessions, id, own);
      users := users[id := users[id].(hash := hash)];
      pending := pending - PendingOf(pending, id);
      sessions := (sessions - others - {own})[token := Session(id, hash)];
      issued := issued + {token};
    }

    method ResetAdminPassword(id: string, hash: string) returns (ok: bool)
      modifies this
      ensures Did(old(View()), PasswordReset(old(View()), id, hash), View(), ok)
      ensures ok ==> EndedFor(old(View()), View(), id) && OthersKept(old(View()), View(), id)
      ensures ok <==> id in old(users) && old(users)[id].role == Admin && !old(users)[id].closed && old(users)[id].hash != ""
      ensures ok ==> id in users && users[id] == old(users)[id].(hash := hash)
    {
      if id !in users { return false; }
      var u := users[id];
      if u.closed || u.hash == "" { return false; }
      if u.role != Admin { return false; }
      users := users[id := u.(hash := hash)];
      EndSessions(id);
      ok := true;
    }

    method SuspendAccount(actor: string, id: string, suspend: bool, now: int) returns (ok: bool)
      modifies this
      ensures Did(old(View()), if suspend then Suspended(old(View()), actor, id, now) else Restored(old(View()), actor, id), View(), ok)
      ensures ok <==> && ByAdministrator(old(View()), actor, id) && id in old(users) && old(users)[id].role != Admin && !old(users)[id].banned
                      && old(users)[id].suspended.Some? == !suspend
      ensures ok ==> OthersKept(old(View()), View(), id)
      ensures ok ==> id in users && users[id].role != Admin && !users[id].banned && users[id].suspended == if suspend then Some(now) else None
      ensures ok && suspend ==> EndedFor(old(View()), View(), id)
      ensures ok && !suspend ==> NoneDeferred(old(View()), View(), id) && sessions == old(sessions)
    {
      if !MayAct(View(), actor, id) || id !in users { return false; }
      var u := users[id];
      if u.role == Admin || u.banned { return false; }
      if suspend == u.suspended.Some? { return false; }
      if suspend { SignOutSuspended(id, now); } else { LiftSuspension(id); }
      ok := true;
    }

    method SignOutSuspended(id: string, now: int)
      requires id in users
      modifies this`users, this`sessions, this`pending
      ensures View() == SetUser(SignOut(old(View()), id), id, old(users)[id].(suspended := Some(now)))
      ensures EndedFor(old(View()), View(), id) && OthersKept(old(View()), View(), id)
    {
      users := users[id := users[id].(suspended := Some(now))];
      EndSessions(id);
    }

    method LiftSuspension(id: string)
      requires id in users
      modifies this`users, this`pending
      ensures View() == SetUser(old(View()), id, old(users)[id].(suspended := None)).(pending := pending)
      ensures pending == old(pending) - PendingOf(old(pending), id)
      ensures NoneDeferred(old(View()), View(), id) && OthersKept(old(View()), View(), id)
    {
      pending := pending - PendingOf(pending, id);
      users := users[id := users[id].(suspended := None)];
    }

    method BanAccount(env: Env, actor: string, id: string, now: int) returns (ok: bool)
      modifies this
      ensures Did(old(View()), Banned(env, old(View()), actor, id, now), View(), ok)
      ensures ok <==> && ByAdministrator(old(View()), actor, id) && id in old(users) && old(users)[id].role != Admin && !old(users)[id].banned
                      && !old(users)[id].closed
      ensures ok ==> EndedFor(old(View()), View(), id) && OthersKept(old(View()), View(), id)
      ensures ok ==> id in users && users[id].banned && users[id].suspended.Some? && users[id].role != Admin && users[id].role != Moderator
      ensures ok ==> id in old(users) && users[id].prior == old(users)[id].suspended && env.lower(users[id].handle) in reserved
    {
      if !MayAct(View(), actor, id) || id !in users { return false; }
      var u := users[id];
      if u.role == Admin || u.banned || u.closed { return false; }
      MarkBanned(env, id, now);
      if u.role == Moderator { Demote(id); }
      ok := true;
    }

    /** The ban itself, with the sessions it ends and the handle it reserves. */
    method MarkBanned(env: Env, id: string, now: int)
      requires id in users
      modifies this
      ensures View() == Marked(env, old(View()), id, now)
    {
      var u := users[id];
      var at := if u.suspended.Some? then u.suspended else Some(now);
      users := users[id := u.(banned := true, prior := u.suspended, suspended := at)];
      EndSessions(id);
      reserved := reserved + {env.lower(u.handle)};
    }

    /** A banned moderator leaves the staff. */
    method Demote(id: string)
      requires id in users
      modifies this`users
      ensures View() == SetUser(old(View()), id, old(users)[id].(role := Buyer))
    {
      users := users[id := users[id].(role := Buyer)];
    }

    method LiftBan(env: Env, actor: string, id: string) returns (ok: bool)
      modifies this
      ensures Did(old(View()), Unbanned(env, old(View()), actor, id), View(), ok)
      ensures ok <==> && ByAdministrator(old(View()), actor, id) && id in old(users) && old(users)[id].role != Admin && old(users)[id].banned
                      && !old(users)[id].closed
      ensures ok ==> id in users && users[id] == old(users)[id].(banned := false, prior := None, suspended := old(users)[id].prior)
      ensures ok ==> OthersKept(old(View()), View(), id) && NoneDeferred(old(View()), View(), id) && sessions == old(sessions)
      ensures ok ==> var lower := env.lower(users[id].handle);
                     && (lower in reserved <==> lower in old(reserved) && BannedVariant(env, View(), id, lower))
                     && forall other :: other != lower ==> (other in reserved <==> other in old(reserved))
    {
      if !MayAct(View(), actor, id) || id !in users { return false; }
      var u := users[id];
      if u.role == Admin || !u.banned || u.closed { return false; }
      var variant := HandleExists(env, users, env.lower(u.handle), Some(id), true);
      assert variant == BannedVariant(env, View(), id, env.lower(u.handle));
      pending := pending - PendingOf(pending, id);
      users := users[id := u.(suspended := u.prior, banned := false, prior := None)];
      if !variant { reserved := reserved - {env.lower(u.handle)}; }
      ok := true;
    }

    method ChangeRole(actor: string, id: string, role: Role) returns (ok: bool)
      modifies this
      ensures Did(old(View()), RoleChanged(old(View()), actor, id, role), View(), ok)
      ensures ok <==> && ByAdministrator(old(View()), actor, id) && id in old(users) && role != Admin && old(users)[id].role != Admin
                      && (old(users)[id].banned ==> role == Buyer)
                      && (role == Moderator && old(users)[id].role != Moderator ==> old(users)[id].totp || old(users)[id].pgp)
      ensures ok ==> OthersKept(old(View()), View(), id) && sessions == old(sessions) && pending == old(pending)
      ensures ok ==> id in users && id in old(users) && users[id] == old(users)[id].(role := role) && old(users)[id].role != Admin
    {
      if role == Admin || !MayAct(View(), actor, id) || id !in users { return false; }
      var u := users[id];
      if u.role == Admin { return false; }
      if u.banned && role != Buyer { return false; }
      if GrantsStaff(u.role, role) && !u.Factor() { return false; }
      users := users[id := u.(role := role)];
      ok := true;
    }

    method SetRole(id: string, role: Role) returns (ok: bool)
      modifies this
      ensures Did(old(View()), RoleSet(old(View()), id, role), View(), ok)
      ensures ok <==> && id in old(users) && !old(users)[id].closed && old(users)[id].hash != "" && old(users)[id].role != role
                      && (old(users)[id].banned ==> role == Buyer)
                      && (role == Admin ==> old(users)[id].suspended.None? && !old(users)[id].closing)
                      && (role == Admin || (role == Moderator && old(users)[id].role != Admin) ==> old(users)[id].totp || old(users)[id].pgp)
                      && (old(users)[id].role == Admin ==> exists v :: v in old(users) && v != id && old(users)[v].ActiveAdmin())
      ensures ok ==> id in users && users[id] == old(users)[id].(role := role) && OthersKept(old(View()), View(), id)
      ensures ok && old(users)[id].role == Admin ==> EndedFor(old(View()), View(), id)
      ensures ok && old(users)[id].role != Admin ==> sessions == old(sessions) && pending == old(pending)
    {
      if id !in users { return false; }
      var u := users[id];
      if u.Erased() || (u.banned && role != Buyer) || u.role == role { return false; }
      if role == Admin && (u.suspended.Some? || u.closing) { return false; }
      if GrantsStaff(u.role, role) && !u.Factor() { return false; }
      if u.role == Admin {
        var others := CountOtherAdmins(users, id);
        if others == 0 { return false; }
      }
      users := users[id := u.(role := role)];
      if u.role == Admin { EndSessions(id); }
      ok := true;
    }

    method RefuseTaken(env: Env, handle: string) returns (taken: bool)
      ensures taken == Taken(env, View(), handle)
    {
      taken := HandleExists(env, users, env.lower(handle), None, false);
      taken := taken || env.lower(handle) in reserved;
    }

    method InstallFirstAdmin(env: Env, id: string, handle: string, hash: string) returns (ok: bool)
      modifies this
      ensures Did(old(View()), Installed(env, old(View()), id, handle, hash), View(), ok)
      ensures ok ==> !old(installed) && installed && sessions == old(sessions) && env.lower(handle) !in old(reserved)
      ensures ok ==> forall v :: v in old(users) ==> env.lower(old(users)[v].handle) != env.lower(handle)
      ensures ok ==> users == old(users)[id := User(handle, hash, Admin, None, false, None, false, false, false, false)] && id !in old(users)
    {
      if installed { return false; }
      var taken := RefuseTaken(env, handle);
      if taken || id in users { return false; }
      users := users[id := NewUser(handle, hash, Admin)];
      installed := true;
      ok := true;
    }
  }
}
