/** One-use logo upload authorizations (internal/market/branding.go): tickets that are authorized,
    admitted once and used once, with the ticket looked up before the transaction that rechecks it. */
module Branding {
  import opened Results

  const LIFETIME: int := 600

  datatype Ticket = Ticket(token: string, session: string, admitted: bool, expires: int)

  /** A ticket row as withBrandingTicket read it, outside any transaction. */
  datatype Found = Found(token: string, actor: string, session: string)

  /** One committed replacement of the logo, with what the transaction had just checked. */
  datatype Replacement = Replacement(token: string, actor: string, session: string, body: string, live: bool, at: int)

  /** Who authorized an upload, in which session and when. */
  datatype Issue = Issue(user: string, session: string, at: int)

  /** tickets by administrator, the logo, the administrators who may act and their live sessions; and
      the history: who authorized which token, what lookups are under way, admissions, replacements. */
  datatype State = State(tickets: map<string, Ticket>, logo: Option<string>, admins: set<string>, sessions: map<string, string>,
                         issued: map<string, Issue>, found: set<Found>, admitted: seq<string>, replaced: seq<Replacement>)

  datatype Step =
    | Authorize(user: string, session: string, token: string, now: int)
    | Reset
    | Find(user: string)
    | Admit(f: Found, now: int)
    | Finish(f: Found, body: string, now: int)
    | Sweep(now: int)
    | Account(admins: set<string>, sessions: map<string, string>)

  /** What the transaction of withBrandingTicket rechecks under its locks. */
  predicate Holds(s: State, f: Found, admitted: bool, now: int) {
    && f.actor in s.admins && f.session in s.sessions && s.sessions[f.session] == f.actor
    && f.actor in s.tickets
    && var t := s.tickets[f.actor];
       t.token == f.token && t.session == f.session && t.admitted == admitted && now < t.expires
  }

  predicate Enabled(s: State, step: Step) {
    match step
    case Authorize(user, session, token, _) =>
      user in s.admins && session in s.sessions && s.sessions[session] == user && token !in s.issued
    case Find(user) => user in s.tickets
    case Admit(f, _) => f in s.found
    case Finish(f, _, _) => f in s.found
    case _ => true
  }

  function Next(s: State, step: Step): State
    requires Enabled(s, step)
  {
    match step
    case Authorize(user, session, token, now) =>
      s.(tickets := s.tickets[user := Ticket(token, session, false, now + LIFETIME)], issued := s.issued[token := Issue(user, session, now)])
    case Reset => s.(logo := None, tickets := map[])
    case Find(user) => s.(found := s.found + {Found(s.tickets[user].token, user, s.tickets[user].session)})
    case Admit(f, now) =>
      if Holds(s, f, false, now)
      then s.(tickets := s.tickets[f.actor := s.tickets[f.actor].(admitted := true)], admitted := s.admitted + [f.token])
      else s
    case Finish(f, body, now) =>
      if Holds(s, f, true, now) then
        var t := s.(tickets := s.tickets - {f.actor});
        if body != "" then
          var live := f.actor in s.admins && f.session in s.sessions && s.sessions[f.session] == f.actor;
          t.(logo := Some(body), replaced := s.replaced + [Replacement(f.token, f.actor, f.session, body, live, now)])
        else t
      else s
    case Sweep(now) => s.(tickets := map u | u in s.tickets && now < s.tickets[u].expires :: s.tickets[u])
    case Account(admins, sessions) => s.(admins := admins, sessions := sessions)
  }

  ghost predicate OthersKept(before: map<string, Ticket>, after: map<string, Ticket>, actor: string) {
    && (forall u :: u != actor ==> (u in after <==> u in before))
    && (forall u :: u in after && u != actor ==> after[u] == before[u])
  }

  /** The transactions as they run, over mutable rows. */
  class Rows {
    var tickets: map<string, Ticket>
    var logo: Option<string>

    constructor ()
      ensures tickets == map[] && logo == None
    {
      tickets, logo := map[], None;
    }

    /** withBrandingTicket's recheck, after the actor and session were found active. */
    method Recheck(f: Found, active: bool, admitted: bool, now: int) returns (ok: bool)
      ensures ok <==> active && f.actor in tickets && tickets[f.actor] == Ticket(f.token, f.session, admitted, tickets[f.actor].expires)
                      && now < tickets[f.actor].expires
    {
      if !active || f.actor !in tickets { return false; }
      var t := tickets[f.actor];
      ok := t.token == f.token && t.session == f.session && t.admitted == admitted && now < t.expires;
    }

    method AdmitTicket(s: State, f: Found, now: int)
      requires tickets == s.tickets && logo == s.logo && f in s.found
      modifies this
      ensures tickets == Next(s, Admit(f, now)).tickets && logo == s.logo
      ensures tickets != s.tickets ==> Holds(s, f, false, now) && forall later :: !Holds(s.(tickets := tickets), f, false, later)
      ensures OthersKept(s.tickets, tickets, f.actor)
    {
      var active := f.actor in s.admins && f.session in s.sessions && s.sessions[f.session] == f.actor;
      var ok := Recheck(f, active, false, now);
      if ok { tickets := tickets[f.actor := tickets[f.actor].(admitted := true)]; }
    }

    method FinishTicket(s: State, f: Found, body: string, now: int)
      requires tickets == s.tickets && logo == s.logo && f in s.found
      modifies this
      ensures tickets == Next(s, Finish(f, body, now)).tickets && logo == Next(s, Finish(f, body, now)).logo
      ensures logo != s.logo ==> logo == Some(body) && tickets != s.tickets
      ensures tickets != s.tickets ==>
                Holds(s, f, true, now) && forall admitted, later :: !Holds(s.(tickets := tickets), f, admitted, later)
      ensures OthersKept(s.tickets, tickets, f.actor)
    {
      var active := f.actor in s.admins && f.session in s.sessions && s.sessions[f.session] == f.actor;
      var ok := Recheck(f, active, true, now);
      if !ok { return; }
      tickets := tickets - {f.actor};
      if body != "" { logo := Some(body); }
    }
  }

  // -------------------------------------------------------------------- the invariant

  /** Some row still holds the token. */
  ghost predicate Alive(s: State, token: string) {
    exists u :: u in s.tickets && s.tickets[u].token == token
  }

  /** The row is what its authorization wrote, and ends ten minutes after it. */
  predicate TicketOk(issued: map<string, Issue>, u: string, t: Ticket) {
    t.token in issued && issued[t.token] == Issue(u, t.session, t.expires - 600)
  }

  /** The logo was replaced by the administrator and session that were authorized, in time. */
  predicate AsAuthorized(issued: map<string, Issue>, r: Replacement) {
    r.token in issued && r.actor == issued[r.token].user && r.session == issued[r.token].session && r.at < issued[r.token].at + 600
  }

  ghost predicate TicketsOk(s: State) {
    && (forall u :: u in s.tickets ==> TicketOk(s.issued, u, s.tickets[u]))
    && (forall f :: f in s.found ==> f.token in s.issued)
  }

  /** An admitted token's row is marked or gone, and only admitted tokens' rows are marked. */
  ghost predicate AdmittedOk(s: State) {
    && (forall i :: 0 <= i < |s.admitted| ==> s.admitted[i] in s.issued)
    && (forall i, u :: 0 <= i < |s.admitted| && u in s.tickets && s.tickets[u].token == s.admitted[i] ==> s.tickets[u].admitted)
    && (forall i, j :: 0 <= i < j < |s.admitted| ==> s.admitted[i] != s.admitted[j])
    && (forall u :: u in s.tickets && s.tickets[u].admitted ==> s.tickets[u].token in s.admitted)
  }

  /** A token that replaced the logo was admitted, and its row is gone. */
  ghost predicate ReplacedOk(s: State) {
    && (forall i :: 0 <= i < |s.replaced| ==> s.replaced[i].token in s.admitted && s.replaced[i].live)
    && (forall i :: 0 <= i < |s.replaced| ==> AsAuthorized(s.issued, s.replaced[i]) && !Alive(s, s.replaced[i].token))
    && (forall i, j :: 0 <= i < j < |s.replaced| ==> s.replaced[i].token != s.replaced[j].token)
  }

  ghost predicate Inv(s: State) {
    TicketsOk(s) && AdmittedOk(s) && ReplacedOk(s)
  }

  function Empty(): State {
    State(map[], None, {}, map[], map[], {}, [], [])
  }

  lemma EmptyInv()
    ensures Inv(Empty())
  {}

  /** A token that no row holds, and that was issued, never comes back. */
  lemma DeadStaysDead(s: State, step: Step, token: string)
    requires Enabled(s, step) && token in s.issued && !Alive(s, token)
    ensures token in Next(s, step).issued && !Alive(Next(s, step), token)
  {}

  lemma StepTickets(s: State, step: Step)
    requires TicketsOk(s) && Enabled(s, step)
    ensures TicketsOk(Next(s, step))
  {}

  lemma StepAdmitted(s: State, step: Step)
    requires Inv(s) && Enabled(s, step)
    ensures AdmittedOk(Next(s, step))
  {}

  lemma StepReplaced(s: State, step: Step)
    requires Inv(s) && Enabled(s, step)
    ensures ReplacedOk(Next(s, step))
  {
    var t := Next(s, step);
    forall i | 0 <= i < |s.replaced| ensures AsAuthorized(t.issued, s.replaced[i]) && !Alive(t, s.replaced[i].token) {
      assert AsAuthorized(s.issued, s.replaced[i]);
      DeadStaysDead(s, step, s.replaced[i].token);
    }
    if step.Finish? && Holds(s, step.f, true, step.now) {
      assert TicketOk(s.issued, step.f.actor, s.tickets[step.f.actor]);
      assert Alive(s, step.f.token) && !Alive(t, step.f.token);
    }
  }

  lemma StepInv(s: State, step: Step)
    requires Inv(s) && Enabled(s, step)
    ensures Inv(Next(s, step))
  {
    StepTickets(s, step);
    StepAdmitted(s, step);
    StepReplaced(s, step);
  }

  // ---------------------------------------------------------------------- whole runs

  ghost predicate Run(s: State, steps: seq<Step>, s': State)
    decreases |steps|
  {
    if steps == [] then s == s' else Enabled(s, steps[0]) && Run(Next(s, steps[0]), steps[1..], s')
  }

  lemma {:induction false} RunInv(s: State, steps: seq<Step>, s': State)
    requires Inv(s) && Run(s, steps, s')
    ensures Inv(s')
    decreases |steps|
  {
    if steps != [] {
      StepInv(s, steps[0]);
      RunInv(Next(s, steps[0]), steps[1..], s');
    }
  }

  /** Each authorization is admitted at most once and replaces the logo at most once, only after it was
      admitted, by its own administrator and session while they are live, and within ten minutes. */
  lemma {:induction false} UsedOnce(steps: seq<Step>, s: State)
    requires Run(Empty(), steps, s)
    ensures forall i, j :: 0 <= i < j < |s.admitted| ==> s.admitted[i] != s.admitted[j]
    ensures forall i, j :: 0 <= i < j < |s.replaced| ==> s.replaced[i].token != s.replaced[j].token
    ensures forall i :: 0 <= i < |s.replaced| ==> s.replaced[i].live && s.replaced[i].token in s.admitted
    ensures forall i :: 0 <= i < |s.replaced| ==> AsAuthorized(s.issued, s.replaced[i])
  {
    EmptyInv();
    RunInv(Empty(), steps, s);
  }

  /** No replacement since n used the token. */
  ghost predicate Unused(s: State, n: nat, token: string) {
    n <= |s.replaced| && forall i :: n <= i < |s.replaced| ==> s.replaced[i].token != token
  }

  lemma {:induction false} DeadNeverUsed(s: State, steps: seq<Step>, s': State, token: string, n: nat)
    requires Run(s, steps, s') && token in s.issued && !Alive(s, token) && Unused(s, n, token)
    ensures Unused(s', n, token)
    decreases |steps|
  {
    if steps != [] {
      DeadStaysDead(s, steps[0], token);
      DeadStep(s, steps[0], token, n);
      DeadNeverUsed(Next(s, steps[0]), steps[1..], s', token, n);
    }
  }

  lemma DeadStep(s: State, step: Step, token: string, n: nat)
    requires Enabled(s, step) && !Alive(s, token) && Unused(s, n, token)
    ensures Unused(Next(s, step), n, token)
  {
    if step.Finish? && Holds(s, step.f, true, step.now) { assert Alive(s, step.f.token); }
  }

  /** After a reset, no earlier authorization of anyone, and after a new authorization no earlier one of
      the same administrator, can change the logo any more. */
  lemma {:induction false} Superseded(s: State, step: Step, steps: seq<Step>, s': State, token: string)
    requires Inv(s) && Enabled(s, step) && Run(Next(s, step), steps, s') && token in s.issued
    requires step.Reset? || (step.Authorize? && s.issued[token].user == step.user)
    ensures Unused(s', |s.replaced|, token)
  {
    var t := Next(s, step);
    StepInv(s, step);
    assert !Alive(t, token);
    DeadNeverUsed(t, steps, s', token, |s.replaced|);
  }
}
