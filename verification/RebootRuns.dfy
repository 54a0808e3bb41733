/** Whole runs of the reboot agent: one step per lock region, over memory, file and timers, with
    failing saves, crashes, power failures and restarts (internal/hostcontrol/agent.go, store.go). */
module RebootRuns {
  import opened Results
  import opened RebootLedger
  import opened RebootController

  /** What the agent acknowledged: the receipt as accepted, the process that did so, and when the
      readiness check read the clock. */
  datatype Acceptance = Acceptance(order: nat, epoch: nat, receipt: Receipt, bootId: string, checkedAt: int)

  datatype Arming = Arming(at: int, due: int)

  /** A call of the reboot command, with the ledger file as it was then. */
  datatype Execution = Execution(id: string, epoch: nat, at: int, file: File)

  /** flushing: accepted, acknowledgement not yet sent; timers: armed and not fired; launching: past
      the lock, about to call the command; running: the command was called. */
  datatype World = World(
    deployment: string, file: File, up: Option<Memory>, epoch: nat, clock: int,
    flushing: set<string>, timers: set<string>, launching: set<string>, running: set<string>,
    accepted: map<string, Acceptance>, armed: map<string, Arming>, executed: seq<Execution>)

  datatype Step =
    | Start(boot: string, allowCreate: bool, create: SaveOutcome, recover: SaveOutcome)
    | Tick(now: int)
    | Ask(q: Request, now: int, later: int, ready: Reason, gone: bool, o: SaveOutcome)
    | Flushed(id: string)
    | FlushFailed(id: string, o: SaveOutcome)
    | Fire(id: string, holds: bool, o: SaveOutcome)
    | Launch(id: string)
    | ExecuteFailed(id: string, o: SaveOutcome)
    | ExecuteReturned(id: string)
    | Shutdown
    | Close(o: SaveOutcome)
    | Crash
    | PowerLoss(left: Option<Ledger>)

  ghost predicate Enabled(w: World, s: Step) {
    match s
    case Start(boot, _, _, _) => w.up.None? && ValidBootID(boot)
    case Tick(now) => w.clock <= now
    case Ask(_, now, later, _, _, _) => w.up.Some? && w.clock <= now <= later
    case Flushed(id) => w.up.Some? && id in w.flushing
    case FlushFailed(id, _) => w.up.Some? && id in w.flushing
    case Fire(id, _, _) => w.up.Some? && id in w.timers && id in w.armed && w.armed[id].due <= w.clock
    case Launch(id) => w.up.Some? && id in w.launching
    case ExecuteFailed(id, _) => w.up.Some? && id in w.running
    case ExecuteReturned(id) => w.up.Some? && id in w.running
    case Shutdown => w.up.Some?
    case Close(_) => w.up.Some?
    case Crash => w.up.Some?
    case PowerLoss(left) => w.file.Possible(left)
  }

  function Down(w: World): World {
    w.(up := None, flushing := {}, timers := {}, launching := {}, running := {})
  }

  ghost function StartFrom(w: World, s: Step): World
    requires s.Start?
  {
    var (r, f) := Opened(w.file, w.deployment, s.allowCreate, s.create);
    if r.Err? then w.(file := f)
    else
      var f' := if NeedsRecovery(r.value) then f.Write(Recovered(r.value, s.boot), s.recover) else f;
      if NeedsRecovery(r.value) && !s.recover.Succeeds? then w.(file := f')
      else w.(file := f', up := Some(Started(r.value, s.boot)), epoch := w.epoch + 1)
  }

  function AskOf(w: World, s: Step): World
    requires s.Ask? && w.up.Some? && w.up.value.PendingKnown()
  {
    var (m, f, a) := Reserved(w.up.value, w.file, s.q, s.now, s.later, s.ready, s.gone, s.o);
    var w' := w.(up := Some(m), file := f, clock := s.later);
    if a.first && a.receipt.Some? then
      w'.(flushing := w.flushing + {s.q.id},
          accepted := w.accepted[s.q.id := Acceptance(|w.accepted|, w.epoch, a.receipt.value, m.bootId, s.later)])
    else w'
  }

  function ArmOf(w: World, id: string): World
    requires w.up.Some? && w.up.value.PendingKnown() && id != ""
  {
    var m := w.up.value;
    var w' := w.(flushing := w.flushing - {id});
    if Arms(m, id) then
      w'.(up := Some(m.(armed := true)), timers := w.timers + {id},
          armed := w.armed[id := Arming(w.clock, w.clock + Delay(m, id, w.clock))])
    else w'
  }

  function CancelOf(w: World, id: string, to: ReceiptState, o: SaveOutcome): World
    requires w.up.Some? && w.up.value.PendingKnown() && id != ""
  {
    var (m, f, _) := Changed(w.up.value, w.file, id, to, o);
    w.(up := Some(m), file := f)
  }

  function FireOf(w: World, id: string, ready: bool, o: SaveOutcome): World
    requires w.up.Some? && w.up.value.PendingKnown() && id != ""
  {
    var (m, f, launch) := Fired(w.up.value, w.file, id, ready, o);
    w.(up := Some(m), file := f, timers := w.timers - {id}, launching := if launch then w.launching + {id} else w.launching)
  }

  function CloseOf(w: World, o: SaveOutcome): World
    requires w.up.Some? && w.up.value.PendingKnown()
  {
    var (m, f) := Closed(w.up.value, w.file, o);
    w.(up := Some(m), file := f)
  }

  ghost predicate CanStep(w: World, s: Step) {
    && Enabled(w, s)
    && (w.up.Some? ==> w.up.value.PendingKnown())
    && "" !in w.flushing + w.timers + w.running
  }

  ghost function Apply(w: World, s: Step): World
    requires CanStep(w, s)
  {
    match s
    case Start(_, _, _, _) => StartFrom(w, s)
    case Tick(now) => w.(clock := now)
    case Ask(_, _, _, _, _, _) => AskOf(w, s)
    case Flushed(id) => ArmOf(w, id)
    case FlushFailed(id, o) => CancelOf(w.(flushing := w.flushing - {id}), id, Abandoned, o)
    case Fire(id, ready, o) => FireOf(w, id, ready, o)
    case Launch(id) =>
      w.(launching := w.launching - {id}, running := w.running + {id},
         executed := w.executed + [Execution(id, w.epoch, w.clock, w.file)])
    case ExecuteFailed(id, o) => CancelOf(w.(running := w.running - {id}), id, Failed, o)
    case ExecuteReturned(id) => w.(running := w.running - {id})
    case Shutdown => w.(up := Some(w.up.value.(cancelled := true)))
    case Close(o) => CloseOf(w, o)
    case Crash => Down(w)
    case PowerLoss(left) => Down(w).(file := File(left, {}))
  }

  // -------------------------------------------------------------------- the invariant

  /** l still holds the acknowledged receipt, in some state, and no later last receipt is older. */
  predicate Keeps(l: Ledger, id: string, a: Acceptance) {
    && id in l.records && l.records[id].To(Accepted) == Saved(a.receipt, a.bootId)
    && l.lastId in l.records && a.receipt.acceptedAt <= l.records[l.lastId].receipt.acceptedAt
  }

  ghost predicate Remembers(l: Ledger, accepted: map<string, Acceptance>) {
    forall id :: id in accepted ==> Keeps(l, id, accepted[id])
  }

  /** Every content the next start may find passes load, and holds every acknowledged receipt. */
  ghost predicate ContentOk(deployment: string, accepted: map<string, Acceptance>, d: Option<Ledger>) {
    && (d.Some? ==> Loadable(d.value, deployment) && Remembers(d.value, accepted))
    && (d.None? ==> accepted == map[])
  }

  ghost predicate FileOk(w: World) {
    forall d :: w.file.Possible(d) ==> ContentOk(w.deployment, w.accepted, d)
  }

  /** A record is accepted or executing exactly when it is the pending one. */
  ghost predicate PendingOk(m: Memory) {
    && m.PendingKnown()
    && forall id :: id in m.ledger.records ==> (Active(m.ledger.records[id].receipt.state) <==> id == m.pending)
  }

  /** The file holds memory's ledger until a save fails, and its ids even then. */
  ghost predicate SeenOk(m: Memory, f: File) {
    && f.seen.Some? && m.ledger.records.Keys <= f.seen.value.records.Keys
    && (!m.broken ==> f.seen == Some(m.ledger))
    && (m.pending != "" ==> f.seen.value.records.Keys <= m.ledger.records.Keys)
  }

  ghost predicate MemoryOk(w: World) {
    w.up.Some? ==>
      var m := w.up.value;
      && ContentOk(w.deployment, w.accepted, Some(m.ledger)) && ValidBootID(m.bootId) && PendingOk(m) && SeenOk(m, w.file)
  }

  ghost predicate Executed(log: seq<Execution>, id: string) {
    exists i :: 0 <= i < |log| && log[i].id == id
  }

  predicate OfThisProcess(w: World, id: string) {
    id in w.accepted && w.accepted[id].epoch == w.epoch
  }

  /** Every request moves forward through the stages, in the process that accepted it. */
  ghost predicate StagesOk(w: World) {
    && (w.up.None? ==> w.flushing == w.timers == w.launching == w.running == {})
    && w.timers !! w.launching !! w.running
    && (forall id :: id in w.flushing + w.timers + w.launching + w.running ==> OfThisProcess(w, id))
    && w.flushing !! w.armed.Keys && w.timers + w.launching + w.running <= w.armed.Keys
    && (forall id :: Executed(w.executed, id) ==> id in w.armed && id !in w.timers + w.launching)
  }

  /** A request past the lock is the pending one, durably recorded as executing. */
  ghost predicate LaunchOk(w: World) {
    forall id :: id in w.launching + w.running ==>
      && w.up.Some? && w.up.value.pending == id && w.up.value.Is(id, ReceiptState.Executing)
      && w.file == File(Some(w.up.value.ledger), {})
  }

  predicate ArmedWell(accepted: map<string, Acceptance>, id: string, g: Arming) {
    id in accepted && g.at + GRACE <= g.due && accepted[id].receipt.rebootAt <= g.due
  }

  ghost predicate TimesOk(w: World) {
    && w.clock > 0
    && (forall id :: id in w.armed ==> ArmedWell(w.accepted, id, w.armed[id]))
    && (forall id :: id in w.launching ==> id in w.armed && w.armed[id].due <= w.clock)
  }

  predicate AcceptanceOk(count: nat, epoch: nat, clock: int, id: string, a: Acceptance) {
    a.order < count && a.epoch <= epoch && a.receipt.acceptedAt <= clock && a.receipt.state.Accepted? && a.receipt.id == id
  }

  /** b was accepted after a, so its readiness check read the clock ten minutes after a's time. */
  predicate Spaced(a: Acceptance, b: Acceptance) {
    a.order < b.order ==> a.receipt.acceptedAt + COOLDOWN <= b.checkedAt
  }

  ghost predicate AcceptancesOk(w: World) {
    && (forall id :: id in w.accepted ==> AcceptanceOk(|w.accepted|, w.epoch, w.clock, id, w.accepted[id]))
    && (forall i, j :: i in w.accepted && j in w.accepted ==> Spaced(w.accepted[i], w.accepted[j]))
    && (forall i, j :: i in w.accepted && j in w.accepted && w.accepted[i].order == w.accepted[j].order ==> i == j)
  }

  ghost predicate ExecutionOk(accepted: map<string, Acceptance>, armed: map<string, Arming>, e: Execution) {
    && e.id in accepted && accepted[e.id].epoch == e.epoch
    && e.id in armed && armed[e.id].due <= e.at
    && e.file.stale == {} && e.file.seen.Some?
    && e.id in e.file.seen.value.records && e.file.seen.value.records[e.id].receipt.state == ReceiptState.Executing
  }

  ghost predicate ExecutionsOk(w: World) {
    && (forall i :: 0 <= i < |w.executed| ==> ExecutionOk(w.accepted, w.armed, w.executed[i]))
    && (forall i, j :: 0 <= i < j < |w.executed| ==> w.executed[i].id != w.executed[j].id)
  }

  /** The parts of the invariant that read the ledgers. */
  ghost predicate LedgersOk(w: World) {
    FileOk(w) && MemoryOk(w) && LaunchOk(w)
  }

  /** The parts that do not. */
  ghost predicate HistoryOk(w: World) {
    StagesOk(w) && TimesOk(w) && AcceptancesOk(w) && ExecutionsOk(w)
  }

  ghost predicate Inv(w: World) {
    LedgersOk(w) && HistoryOk(w)
  }

  /** A host with no ledger yet, or with one that load accepts. */
  ghost predicate Init(w: World) {
    && w.up.None? && w.file.stale == {} && (w.file.seen.Some? ==> Loadable(w.file.seen.value, w.deployment))
    && w.clock > 0 && w.flushing == w.timers == w.launching == w.running == {}
    && w.accepted == map[] && w.armed == map[] && w.executed == []
  }

  lemma InitInv(w: World)
    requires Init(w)
    ensures Inv(w)
  {}

  // -------------------------------------------------------- ledgers through a change

  lemma SameSize<K, V>(a: map<K, V>, b: map<K, V>)
    requires a.Keys == b.Keys
    ensures |a| == |b|
  {
    assert |a| == |a.Keys| && |b| == |b.Keys|;
  }

  lemma MarkedOk(l: Ledger, id: string, s: ReceiptState, deployment: string, accepted: map<string, Acceptance>)
    requires ContentOk(deployment, accepted, Some(l)) && id in l.records && !s.Unknown?
    ensures ContentOk(deployment, accepted, Some(Marked(l, id, s)))
  {
    var n := Marked(l, id, s);
    SameSize(n.records, l.records);
    assert ValidRecord(id, l.records[id]);
    forall i | i in accepted ensures Keeps(n, i, accepted[i]) { assert Keeps(l, i, accepted[i]); }
  }

  lemma RecoveredLoads(l: Ledger, boot: string, deployment: string)
    requires Loadable(l, deployment)
    ensures Loadable(Recovered(l, boot), deployment)
  {
    var n := Recovered(l, boot);
    assert n.records.Keys == l.records.Keys;
    SameSize(n.records, l.records);
    forall i | i in n.records ensures ValidRecord(i, n.records[i]) { assert ValidRecord(i, l.records[i]); }
  }

  lemma RecoveredOk(l: Ledger, boot: string, deployment: string, accepted: map<string, Acceptance>)
    requires Loadable(l, deployment) && Remembers(l, accepted)
    ensures ContentOk(deployment, accepted, Some(Recovered(l, boot)))
  {
    RecoveredLoads(l, boot, deployment);
    forall i | i in accepted ensures Keeps(Recovered(l, boot), i, accepted[i]) { assert Keeps(l, i, accepted[i]); }
  }

  lemma StartedOk(l: Ledger, boot: string, deployment: string)
    requires Loadable(l, deployment)
    ensures PendingOk(Started(l, boot))
  {
    var n := Recovered(l, boot);
    forall i | i in n.records ensures !Active(n.records[i].receipt.state) && i != "" { assert ValidRecord(i, l.records[i]); }
  }

  lemma NothingToRecover(l: Ledger, boot: string)
    requires !NeedsRecovery(l)
    ensures Recovered(l, boot) == l
  {
    assert Recovered(l, boot).records == l.records;
  }

  lemma EnteredOk(m: Memory, id: string, now: int, deployment: string, accepted: map<string, Acceptance>)
    requires Loadable(m.ledger, deployment) && |m.ledger.records| < MAX_RECEIPTS && Remembers(m.ledger, accepted)
    requires ValidRequestID(id) && id !in m.ledger.records && ValidBootID(m.bootId) && now > 0
    requires forall i :: i in accepted ==> accepted[i].receipt.acceptedAt <= now
    ensures Loadable(Entered(m, id, now), deployment) && Remembers(Entered(m, id, now), accepted)
  {
    var n := Entered(m, id, now);
    assert n.records.Keys == m.ledger.records.Keys + {id};
    assert |n.records| == |n.records.Keys| == |m.ledger.records.Keys| + 1;
    forall i | i in accepted ensures Keeps(n, i, accepted[i]) { assert Keeps(m.ledger, i, accepted[i]); }
  }

  lemma WriteOk(w: World, l: Ledger, o: SaveOutcome)
    requires FileOk(w) && ContentOk(w.deployment, w.accepted, Some(l))
    ensures FileOk(w.(file := w.file.Write(l, o)))
  {
    var w' := w.(file := w.file.Write(l, o));
    forall d | w'.file.Possible(d) ensures ContentOk(w.deployment, w.accepted, d) {
      assert w.file.Possible(d) || d == Some(l);
    }
  }

  lemma IdsAreNames(w: World, id: string)
    requires MemoryOk(w) && w.up.Some? && id in w.accepted
    ensures id != "" && id in w.up.value.ledger.records
  {
    assert Keeps(w.up.value.ledger, id, w.accepted[id]);
    assert ValidRecord(id, w.up.value.ledger.records[id]);
  }

  lemma InvCanStep(w: World, s: Step)
    requires Inv(w) && Enabled(w, s)
    ensures CanStep(w, s)
  {
    forall id | id in w.flushing + w.timers + w.running ensures id != "" {
      assert OfThisProcess(w, id);
      IdsAreNames(w, id);
    }
  }

  lemma MarkedPending(m: Memory, id: string, to: ReceiptState, n: Memory)
    requires PendingOk(m) && m.pending == id != "" && n.ledger == Marked(m.ledger, id, to)
    requires n.pending == if Active(to) then id else ""
    requires "" !in m.ledger.records
    ensures PendingOk(n) && n.ledger.records.Keys == m.ledger.records.Keys
  {
    assert n.ledger.records.Keys == m.ledger.records.Keys;
  }

  lemma NoEmptyName(l: Ledger, deployment: string)
    requires Loadable(l, deployment)
    ensures "" !in l.records
  {
    forall id | id in l.records ensures id != "" { assert ValidRecord(id, l.records[id]); }
  }

  lemma ChangedSeen(m: Memory, f: File, id: string, to: ReceiptState, o: SaveOutcome)
    requires SeenOk(m, f) && m.PendingKnown() && id != ""
    ensures var (n, f', _) := Changed(m, f, id, to, o); SeenOk(n, f')
  {
    if m.pending == id { assert Marked(m.ledger, id, to).records.Keys == m.ledger.records.Keys; }
  }

  /** The state changes on the pending record, shared by four steps. */
  lemma ChangedOk(w: World, id: string, to: ReceiptState, o: SaveOutcome)
    requires FileOk(w) && MemoryOk(w) && w.up.Some? && id != "" && !to.Unknown? && !to.Accepted?
    ensures var w' := CancelOf(w, id, to, o);
            FileOk(w') && MemoryOk(w')
  {
    var m := w.up.value;
    if m.pending == id {
      MarkedOk(m.ledger, id, to, w.deployment, w.accepted);
      NoEmptyName(m.ledger, w.deployment);
      ChangedSeen(m, w.file, id, to, o);
      ChangedPending(m, w.file, id, to, o);
      WriteOk(w, Marked(m.ledger, id, to), o);
    }
  }

  lemma ChangedPending(m: Memory, f: File, id: string, to: ReceiptState, o: SaveOutcome)
    requires PendingOk(m) && id != "" && "" !in m.ledger.records && !to.Accepted?
    ensures PendingOk(Changed(m, f, id, to, o).0)
  {
    if m.pending == id && o.Succeeds? { MarkedPending(m, id, to, Changed(m, f, id, to, o).0); }
  }

  // ---------------------------------------------------- each step keeps LedgersOk

  /** Requests only leave the stages, and only flags change in memory. */
  predicate OnlyFlags(w: World, w': World) {
    && w'.launching + w'.running <= w.launching + w.running
    && w'.deployment == w.deployment && w'.file == w.file && w'.accepted == w.accepted
    && (if w.up.None? then w'.up.None?
        else w'.up.Some? && var m := w'.up.value; m == w.up.value.(armed := m.armed, closed := m.closed, cancelled := m.cancelled))
  }

  lemma LedgersFrame(w: World, w': World)
    requires LedgersOk(w) && OnlyFlags(w, w')
    ensures LedgersOk(w')
  {}

  lemma CancelLedgers(w: World, id: string, to: ReceiptState, o: SaveOutcome)
    requires LedgersOk(w) && w.up.Some? && id != "" && !to.Unknown? && !Active(to) && id !in w.launching + w.running
    ensures LedgersOk(CancelOf(w, id, to, o))
  {
    ChangedOk(w, id, to, o);
  }

  lemma OpenedOk(w: World, s: Step)
    requires FileOk(w) && Enabled(w, s) && s.Start?
    ensures var (r, f) := Opened(w.file, w.deployment, s.allowCreate, s.create);
            FileOk(w.(file := f)) && (r.Ok? ==> Remembers(r.value, w.accepted))
  {
    assert w.file.Possible(w.file.seen);
    var (r, f) := Opened(w.file, w.deployment, s.allowCreate, s.create);
    if w.file.seen.None? {
      assert w.accepted == map[];
      WriteOk(w, Empty(w.deployment), s.create);
    }
  }

  lemma FirstMemory(w: World, m: Memory)
    requires FileOk(w) && w.file.seen == Some(m.ledger) && ValidBootID(m.bootId) && PendingOk(m)
    ensures MemoryOk(w.(up := Some(m), epoch := w.epoch + 1))
  {
    assert w.file.Possible(w.file.seen);
  }

  lemma StartOk(w: World, s: Step)
    requires FileOk(w) && CanStep(w, s) && s.Start?
    ensures FileOk(StartFrom(w, s)) && MemoryOk(StartFrom(w, s))
  {
    var (r, f) := Opened(w.file, w.deployment, s.allowCreate, s.create);
    var w1 := w.(file := f);
    OpenedOk(w, s);
    if r.Ok? {
      var m := Started(r.value, s.boot);
      RecoveredOk(r.value, s.boot, w.deployment, w.accepted);
      StartedOk(r.value, s.boot, w.deployment);
      if NeedsRecovery(r.value) {
        WriteOk(w1, m.ledger, s.recover);
        if s.recover.Succeeds? { FirstMemory(w1.(file := File(Some(m.ledger), {})), m); }
      } else {
        NothingToRecover(r.value, s.boot);
        FirstMemory(w1, m);
      }
    }
  }

  lemma StartLedgers(w: World, s: Step)
    requires LedgersOk(w) && CanStep(w, s) && s.Start?
    requires w.launching + w.running == {}
    ensures LedgersOk(StartFrom(w, s))
  {
    StartOk(w, s);
  }

  lemma AskAccepts(w: World, s: Step)
    requires MemoryOk(w) && TimesOk(w) && AcceptancesOk(w) && Enabled(w, s) && s.Ask?
    requires Admits(w.up.value, s.q, s.now, s.later, s.ready, s.gone)
    ensures ContentOk(w.deployment, w.accepted, Some(Entered(w.up.value, s.q.id, s.now)))
    ensures s.q.id !in w.accepted && s.q.id != ""
    ensures forall i :: i in w.accepted ==> w.accepted[i].receipt.acceptedAt + COOLDOWN <= s.later
  {
    var m := w.up.value;
    forall i | i in w.accepted
      ensures w.accepted[i].receipt.acceptedAt <= s.now && w.accepted[i].receipt.acceptedAt + COOLDOWN <= s.later && i in m.ledger.records
    {
      assert Keeps(m.ledger, i, w.accepted[i]);
      assert AcceptanceOk(|w.accepted|, w.epoch, w.clock, i, w.accepted[i]);
    }
    EnteredOk(m, s.q.id, s.now, w.deployment, w.accepted);
  }

  lemma EnteredRemembers(m: Memory, id: string, now: int, accepted: map<string, Acceptance>, a: Acceptance)
    requires Remembers(Entered(m, id, now), accepted) && id !in accepted
    requires a.receipt == Receipt(id, Accepted, now, now + GRACE) && a.bootId == m.bootId
    ensures Remembers(Entered(m, id, now), accepted[id := a])
  {
    var more := accepted[id := a];
    forall i | i in more ensures Keeps(Entered(m, id, now), i, more[i]) {
      if i != id { assert Keeps(Entered(m, id, now), i, accepted[i]); }
    }
  }

  lemma EnteredPending(m: Memory, id: string, now: int)
    requires PendingOk(m) && m.pending == "" && id !in m.ledger.records && "" !in m.ledger.records
    ensures PendingOk(m.(ledger := Entered(m, id, now), pending := id))
  {}

  /** A save that failed, with nothing pending: memory only remembers that it is broken. */
  lemma FailedSave(w: World, l: Ledger, o: SaveOutcome)
    requires LedgersOk(w) && w.up.Some? && w.up.value.pending == "" && !o.Succeeds? && w.launching + w.running == {}
    requires ContentOk(w.deployment, w.accepted, Some(l)) && w.up.value.ledger.records.Keys <= l.records.Keys
    ensures LedgersOk(w.(file := w.file.Write(l, o), up := Some(w.up.value.(broken := true))))
  {
    WriteOk(w, l, o);
  }

  lemma NamesLaunched(w: World)
    requires MemoryOk(w) && StagesOk(w) && w.up.Some?
    ensures "" !in w.launching + w.running
  {
    forall x | x in w.launching + w.running ensures x != "" {
      assert OfThisProcess(w, x);
      IdsAreNames(w, x);
    }
  }

  lemma NoneWhenIdle(w: World)
    requires MemoryOk(w) && StagesOk(w) && LaunchOk(w) && w.up.Some? && w.up.value.pending == ""
    ensures w.launching + w.running == {}
  {
    NamesLaunched(w);
    assert forall x :: x !in w.launching + w.running;
  }

  lemma SettledLedgers(w: World, l: Ledger)
    requires w.up.Some? && w.up.value.ledger == l && w.file == File(Some(l), {}) && w.launching + w.running == {}
    requires ContentOk(w.deployment, w.accepted, Some(l)) && ValidBootID(w.up.value.bootId) && PendingOk(w.up.value)
    ensures LedgersOk(w)
  {
    assert forall d :: w.file.Possible(d) <==> d == Some(l);
  }

  lemma AskSaved(w: World, s: Step)
    requires MemoryOk(w) && Enabled(w, s) && s.Ask? && s.o.Succeeds? && w.launching + w.running == {}
    requires Admits(w.up.value, s.q, s.now, s.later, s.ready, s.gone)
    requires ContentOk(w.deployment, w.accepted, Some(Entered(w.up.value, s.q.id, s.now))) && s.q.id !in w.accepted
    ensures LedgersOk(AskOf(w, s))
  {
    var w', m, id := AskOf(w, s), w.up.value, s.q.id;
    NoEmptyName(m.ledger, w.deployment);
    EnteredPending(m, id, s.now);
    EnteredRemembers(m, id, s.now, w.accepted, w'.accepted[id]);
    SettledLedgers(w', Entered(m, id, s.now));
  }

  lemma AskUnsaved(w: World, s: Step)
    requires LedgersOk(w) && CanStep(w, s) && s.Ask? && !s.o.Succeeds? && w.launching + w.running == {}
    requires Admits(w.up.value, s.q, s.now, s.later, s.ready, s.gone)
    requires ContentOk(w.deployment, w.accepted, Some(Entered(w.up.value, s.q.id, s.now)))
    ensures LedgersOk(AskOf(w, s))
  {
    FailedSave(w.(clock := s.later), Entered(w.up.value, s.q.id, s.now), s.o);
  }

  lemma AskLedgers(w: World, s: Step)
    requires Inv(w) && CanStep(w, s) && s.Ask?
    ensures LedgersOk(AskOf(w, s))
  {
    if Admits(w.up.value, s.q, s.now, s.later, s.ready, s.gone) {
      AskAccepts(w, s);
      NoneWhenIdle(w);
      if s.o.Succeeds? { AskSaved(w, s); } else { AskUnsaved(w, s); }
    } else {
      LedgersFrame(w, AskOf(w, s));
    }
  }

  lemma ExecutingLedgers(w: World, id: string, o: SaveOutcome)
    requires LedgersOk(w) && w.up.Some? && Performs(w.up.value, id) && id != "" && w.launching + w.running == {}
    ensures LedgersOk(CancelOf(w, id, Executing, o))
  {
    ChangedOk(w, id, Executing, o);
  }

  lemma EnterLaunch(w: World, id: string)
    requires LedgersOk(w) && w.up.Some? && w.up.value.pending == id && w.up.value.Is(id, ReceiptState.Executing)
    requires w.launching + w.running == {} && w.file == File(Some(w.up.value.ledger), {})
    ensures LedgersOk(w.(launching := w.launching + {id}))
  {}

  lemma NoneLaunched(w: World, id: string)
    requires LaunchOk(w) && w.up.Some? && w.up.value.pending == id && w.up.value.Is(id, Accepted)
    ensures w.launching + w.running == {}
  {
    assert forall x :: x !in w.launching + w.running;
  }

  lemma FireLedgers(w: World, s: Step)
    requires LedgersOk(w) && CanStep(w, s) && s.Fire? && s.id !in w.launching + w.running
    ensures LedgersOk(FireOf(w, s.id, s.holds, s.o))
  {
    var id, w1 := s.id, w.(timers := w.timers - {s.id});
    LedgersFrame(w, w1);
    if Performs(w.up.value, id) {
      if s.holds {
        NoneLaunched(w, id);
        ExecutingLedgers(w1, id, s.o);
        if s.o.Succeeds? { EnterLaunch(CancelOf(w1, id, Executing, s.o), id); }
      } else {
        CancelLedgers(w1, id, Cancelled, s.o);
      }
    }
  }

  lemma CloseLedgers(w: World, o: SaveOutcome)
    requires LedgersOk(w) && w.up.Some? && w.up.value.PendingKnown()
    ensures LedgersOk(CloseOf(w, o))
  {
    var c := w.up.value.(closed := true, cancelled := true);
    var w1 := w.(up := Some(c));
    LedgersFrame(w, w1);
    if c.pending != "" && c.Is(c.pending, Accepted) {
      NoneLaunched(w1, c.pending);
      CancelLedgers(w1, c.pending, Abandoned, o);
    }
  }

  lemma DownLedgers(w: World, left: Option<Ledger>)
    requires FileOk(w) && w.file.Possible(left)
    ensures LedgersOk(Down(w)) && LedgersOk(Down(w).(file := File(left, {})))
  {
    var w' := Down(w).(file := File(left, {}));
    assert forall d :: w'.file.Possible(d) ==> d == left;
  }

  /** A request in one stage is in no other. */
  lemma OneStage(w: World, id: string)
    requires StagesOk(w)
    ensures id in w.flushing + w.timers ==> id !in w.launching + w.running
    ensures id in w.running ==> id !in w.launching
    ensures w.up.None? ==> w.launching + w.running == {}
  {}

  lemma FlushFailedLedgers(w: World, s: Step)
    requires LedgersOk(w) && CanStep(w, s) && s.FlushFailed? && s.id !in w.launching + w.running
    ensures LedgersOk(Apply(w, s))
  {
    var w1 := w.(flushing := w.flushing - {s.id});
    LedgersFrame(w, w1);
    CancelLedgers(w1, s.id, Abandoned, s.o);
  }

  lemma ExecuteFailedLedgers(w: World, s: Step)
    requires LedgersOk(w) && CanStep(w, s) && s.ExecuteFailed? && s.id !in w.launching
    ensures LedgersOk(Apply(w, s))
  {
    var w1 := w.(running := w.running - {s.id});
    LedgersFrame(w, w1);
    CancelLedgers(w1, s.id, Failed, s.o);
  }

  predicate SavesNothing(s: Step) {
    s.Tick? || s.Flushed? || s.Launch? || s.ExecuteReturned? || s.Shutdown?
  }

  lemma QuietShape(w: World, s: Step)
    requires CanStep(w, s) && SavesNothing(s)
    ensures OnlyFlags(w, Apply(w, s))
  {}

  lemma QuietLedgers(w: World, s: Step)
    requires LedgersOk(w) && CanStep(w, s) && SavesNothing(s)
    ensures LedgersOk(Apply(w, s))
  {
    QuietShape(w, s);
    LedgersFrame(w, Apply(w, s));
  }

  /** The steps that may save, in a process that is up. */
  lemma SavingLedgers(w: World, s: Step)
    requires LedgersOk(w) && StagesOk(w) && CanStep(w, s) && (s.FlushFailed? || s.Fire? || s.ExecuteFailed?)
    ensures LedgersOk(Apply(w, s))
  {
    OneStage(w, s.id);
    match s
    case FlushFailed(_, _) => FlushFailedLedgers(w, s);
    case Fire(_, _, _) => FireLedgers(w, s);
    case ExecuteFailed(_, _) => ExecuteFailedLedgers(w, s);
  }

  lemma StoppingLedgers(w: World, s: Step)
    requires LedgersOk(w) && CanStep(w, s) && (s.Close? || s.Crash? || s.PowerLoss?)
    ensures LedgersOk(Apply(w, s))
  {
    match s
    case Close(o) => CloseLedgers(w, o);
    case Crash => DownLedgers(w, w.file.seen);
    case PowerLoss(left) => DownLedgers(w, left);
  }

  lemma RunningLedgers(w: World, s: Step)
    requires LedgersOk(w) && StagesOk(w) && CanStep(w, s) && !s.Start? && !s.Ask?
    ensures LedgersOk(Apply(w, s))
  {
    if s.FlushFailed? || s.Fire? || s.ExecuteFailed? {
      SavingLedgers(w, s);
    } else if s.Close? || s.Crash? || s.PowerLoss? {
      StoppingLedgers(w, s);
    } else {
      QuietLedgers(w, s);
    }
  }

  lemma StepLedgers(w: World, s: Step)
    requires Inv(w) && CanStep(w, s)
    ensures LedgersOk(Apply(w, s))
  {
    if s.Ask? {
      AskLedgers(w, s);
    } else if s.Start? {
      OneStage(w, "");
      StartLedgers(w, s);
    } else {
      RunningLedgers(w, s);
    }
  }

  // ---------------------------------------------------- each step keeps HistoryOk

  lemma HistoryFrame(w: World, w': World)
    requires HistoryOk(w) && (w'.up.None? ==> w.up.None?) && w' == w.(up := w'.up, file := w'.file)
    ensures HistoryOk(w')
  {}

  lemma UpHistory(w: World, m: Memory)
    requires HistoryOk(w) && w.up.None?
    ensures HistoryOk(w.(up := Some(m), epoch := w.epoch + 1))
  {
    var w' := w.(up := Some(m), epoch := w.epoch + 1);
    UpStages(w, m);
    UpAcceptances(w, m);
    assert TimesOk(w') && ExecutionsOk(w');
  }

  lemma UpStages(w: World, m: Memory)
    requires StagesOk(w) && w.up.None?
    ensures StagesOk(w.(up := Some(m), epoch := w.epoch + 1))
  {}

  lemma UpAcceptances(w: World, m: Memory)
    requires AcceptancesOk(w)
    ensures AcceptancesOk(w.(up := Some(m), epoch := w.epoch + 1))
  {
    var w' := w.(up := Some(m), epoch := w.epoch + 1);
    forall id | id in w.accepted ensures AcceptanceOk(|w.accepted|, w'.epoch, w.clock, id, w.accepted[id]) {
      assert AcceptanceOk(|w.accepted|, w.epoch, w.clock, id, w.accepted[id]);
    }
  }

  lemma LoadedHistory(w: World, w': World)
    requires HistoryOk(w) && w.up.None?
    requires w' == w.(file := w'.file) || (w'.up.Some? && w' == w.(file := w'.file, up := w'.up, epoch := w.epoch + 1))
    ensures HistoryOk(w')
  {
    HistoryFrame(w, w.(file := w'.file));
    if w'.up.Some? { UpHistory(w.(file := w'.file), w'.up.value); }
  }

  lemma StartShape(w: World, s: Step)
    requires CanStep(w, s) && s.Start?
    ensures var w' := StartFrom(w, s);
            w' == w.(file := w'.file) || (w'.up.Some? && w' == w.(file := w'.file, up := w'.up, epoch := w.epoch + 1))
  {}

  lemma StartHistory(w: World, s: Step)
    requires HistoryOk(w) && CanStep(w, s) && s.Start?
    ensures HistoryOk(StartFrom(w, s))
  {
    StartShape(w, s);
    LoadedHistory(w, StartFrom(w, s));
  }

  lemma TickHistory(w: World, now: int)
    requires HistoryOk(w) && w.clock <= now
    ensures HistoryOk(w.(clock := now))
  {}

  /** The acceptances with one more. */
  lemma AcceptOne(w: World, id: string, a: Acceptance, later: int)
    requires AcceptancesOk(w) && id !in w.accepted && w.clock <= later
    requires AcceptanceOk(|w.accepted| + 1, w.epoch, later, id, a) && a.order == |w.accepted|
    requires forall i :: i in w.accepted ==> w.accepted[i].receipt.acceptedAt + COOLDOWN <= a.checkedAt
    ensures AcceptancesOk(w.(accepted := w.accepted[id := a], clock := later))
  {
    var more := w.accepted[id := a];
    assert more.Keys == w.accepted.Keys + {id};
    assert |more| == |more.Keys| == |w.accepted.Keys| + 1;
    forall i | i in more
      ensures AcceptanceOk(|more|, w.epoch, later, i, more[i]) && (i != id ==> more[i].order < a.order)
    {
      if i != id { assert AcceptanceOk(|w.accepted|, w.epoch, w.clock, i, w.accepted[i]); }
    }
    forall i, j | i in more && j in more ensures Spaced(more[i], more[j]) {
      if i != id && j != id { assert Spaced(w.accepted[i], w.accepted[j]); }
    }
  }

  lemma AcceptFrame(w: World, id: string, a: Acceptance, later: int)
    requires TimesOk(w) && ExecutionsOk(w) && id !in w.accepted && w.clock <= later
    ensures var w' := w.(accepted := w.accepted[id := a], clock := later);
            TimesOk(w') && ExecutionsOk(w')
  {
    var more := w.accepted[id := a];
    forall i | i in w.armed ensures ArmedWell(more, i, w.armed[i]) { assert ArmedWell(w.accepted, i, w.armed[i]); }
    forall k | 0 <= k < |w.executed| ensures ExecutionOk(more, w.armed, w.executed[k]) {
      assert ExecutionOk(w.accepted, w.armed, w.executed[k]);
    }
  }

  lemma AcceptStages(w: World, id: string, a: Acceptance, later: int)
    requires StagesOk(w) && TimesOk(w) && w.up.Some? && id !in w.accepted && a.epoch == w.epoch
    ensures StagesOk(w.(flushing := w.flushing + {id}, accepted := w.accepted[id := a], clock := later))
  {
    var w' := w.(flushing := w.flushing + {id}, accepted := w.accepted[id := a], clock := later);
    forall i | i in w.armed ensures i in w.accepted { assert ArmedWell(w.accepted, i, w.armed[i]); }
    forall i | i in w.flushing + w.timers + w.launching + w.running ensures OfThisProcess(w', i) && i != id {
      assert OfThisProcess(w, i);
    }
  }

  lemma AcceptHistory(w: World, id: string, a: Acceptance, later: int)
    requires HistoryOk(w) && w.up.Some? && id !in w.accepted && w.clock <= later
    requires AcceptanceOk(|w.accepted| + 1, w.epoch, later, id, a) && a.order == |w.accepted| && a.epoch == w.epoch
    requires forall i :: i in w.accepted ==> w.accepted[i].receipt.acceptedAt + COOLDOWN <= a.checkedAt
    ensures HistoryOk(w.(flushing := w.flushing + {id}, accepted := w.accepted[id := a], clock := later))
  {
    AcceptOne(w, id, a, later);
    AcceptFrame(w, id, a, later);
    AcceptStages(w, id, a, later);
  }

  lemma AcceptedHistory(w: World, s: Step)
    requires HistoryOk(w) && MemoryOk(w) && CanStep(w, s) && s.Ask? && s.o.Succeeds?
    requires Admits(w.up.value, s.q, s.now, s.later, s.ready, s.gone)
    ensures HistoryOk(AskOf(w, s))
  {
    AskAccepts(w, s);
    var w', id := AskOf(w, s), s.q.id;
    var a := w'.accepted[id];
    AcceptHistory(w, id, a, s.later);
    HistoryFrame(w.(flushing := w.flushing + {id}, accepted := w.accepted[id := a], clock := s.later), w');
  }

  lemma AskHistory(w: World, s: Step)
    requires HistoryOk(w) && MemoryOk(w) && CanStep(w, s) && s.Ask?
    ensures HistoryOk(AskOf(w, s))
  {
    if Admits(w.up.value, s.q, s.now, s.later, s.ready, s.gone) && s.o.Succeeds? {
      AcceptedHistory(w, s);
    } else {
      TickHistory(w, s.later);
      HistoryFrame(w.(clock := s.later), AskOf(w, s));
    }
  }

  lemma LeaveHistory(w: World, flushing: set<string>, timers: set<string>, running: set<string>)
    requires HistoryOk(w) && flushing <= w.flushing && timers <= w.timers && running <= w.running
    ensures HistoryOk(w.(flushing := flushing, timers := timers, running := running))
  {
    var w' := w.(flushing := flushing, timers := timers, running := running);
    forall id | id in flushing + timers + w.launching + running ensures OfThisProcess(w', id) { assert OfThisProcess(w, id); }
    assert StagesOk(w');
  }

  lemma ArmStages(w: World, id: string, g: Arming)
    requires StagesOk(w) && w.up.Some? && id in w.flushing
    ensures StagesOk(w.(flushing := w.flushing - {id}, timers := w.timers + {id}, armed := w.armed[id := g]))
  {
    var w' := w.(flushing := w.flushing - {id}, timers := w.timers + {id}, armed := w.armed[id := g]);
    assert OfThisProcess(w, id);
    assert !Executed(w.executed, id);
    assert w'.armed.Keys == w.armed.Keys + {id};
    forall i | i in w'.flushing + w'.timers + w'.launching + w'.running ensures OfThisProcess(w', i) { assert OfThisProcess(w, i); }
  }

  lemma ArmHistory(w: World, id: string, g: Arming)
    requires HistoryOk(w) && w.up.Some? && id in w.flushing && ArmedWell(w.accepted, id, g)
    ensures HistoryOk(w.(flushing := w.flushing - {id}, timers := w.timers + {id}, armed := w.armed[id := g]))
  {
    var w' := w.(flushing := w.flushing - {id}, timers := w.timers + {id}, armed := w.armed[id := g]);
    ArmStages(w, id, g);
    forall k | 0 <= k < |w.executed| ensures ExecutionOk(w.accepted, w'.armed, w.executed[k]) {
      assert ExecutionOk(w.accepted, w.armed, w.executed[k]);
      assert Executed(w.executed, w.executed[k].id);
    }
    forall i | i in w'.armed ensures ArmedWell(w.accepted, i, w'.armed[i]) {
      if i != id { assert ArmedWell(w.accepted, i, w.armed[i]); }
    }
  }

  lemma ArmsWell(w: World, id: string)
    requires StagesOk(w) && MemoryOk(w) && w.up.Some? && id in w.flushing && id != "" && Arms(w.up.value, id)
    ensures w.up.value.PendingKnown() && ArmedWell(w.accepted, id, ArmOf(w, id).armed[id])
  {
    assert OfThisProcess(w, id);
    assert Keeps(w.up.value.ledger, id, w.accepted[id]);
  }

  lemma FlushedHistory(w: World, s: Step)
    requires HistoryOk(w) && MemoryOk(w) && CanStep(w, s) && s.Flushed?
    ensures HistoryOk(ArmOf(w, s.id))
  {
    var w', id := ArmOf(w, s.id), s.id;
    if Arms(w.up.value, id) {
      ArmsWell(w, id);
      ArmHistory(w, id, w'.armed[id]);
      HistoryFrame(w'.(up := w.up), w');
    } else {
      LeaveHistory(w, w.flushing - {id}, w.timers, w.running);
    }
  }

  lemma LaunchStages(w: World, id: string)
    requires StagesOk(w) && w.up.Some? && id in w.timers
    ensures StagesOk(w.(timers := w.timers - {id}, launching := w.launching + {id}))
  {
    assert OfThisProcess(w, id);
  }

  lemma LaunchHistory(w: World, id: string)
    requires HistoryOk(w) && w.up.Some? && id in w.timers && w.armed[id].due <= w.clock
    ensures HistoryOk(w.(timers := w.timers - {id}, launching := w.launching + {id}))
  {
    LaunchStages(w, id);
    assert TimesOk(w.(timers := w.timers - {id}, launching := w.launching + {id}));
  }

  lemma FireHistory(w: World, s: Step)
    requires HistoryOk(w) && CanStep(w, s) && s.Fire?
    ensures HistoryOk(FireOf(w, s.id, s.holds, s.o))
  {
    var w', id := FireOf(w, s.id, s.holds, s.o), s.id;
    if id in w'.launching && id !in w.launching {
      LaunchHistory(w, id);
    } else {
      LeaveHistory(w, w.flushing, w.timers - {id}, w.running);
    }
    HistoryFrame(w'.(up := w.up, file := w.file), w');
  }

  lemma LaunchedOnce(w: World, e: Execution)
    requires StagesOk(w) && LaunchOk(w) && TimesOk(w) && ExecutionsOk(w) && e.id in w.launching && e == Execution(e.id, w.epoch, w.clock, w.file)
    ensures ExecutionsOk(w.(executed := w.executed + [e]))
  {
    assert OfThisProcess(w, e.id);
    assert e.id in w.launching + w.running && e.id in w.timers + w.launching;
    forall k | 0 <= k < |w.executed| ensures w.executed[k].id != e.id { assert Executed(w.executed, w.executed[k].id); }
  }

  lemma RunningStages(w: World, w': World, e: Execution)
    requires StagesOk(w) && w.up.Some? && e.id in w.launching
    requires w' == w.(launching := w.launching - {e.id}, running := w.running + {e.id}, executed := w.executed + [e])
    ensures StagesOk(w')
  {
    assert OfThisProcess(w, e.id);
    forall i | Executed(w'.executed, i) ensures i in w.armed && i !in w'.timers + w'.launching {
      if i != e.id {
        var k :| 0 <= k < |w'.executed| && w'.executed[k].id == i;
        assert w.executed[k].id == i;
        assert Executed(w.executed, i);
      }
    }
  }

  lemma RunningHistory(w: World, e: Execution)
    requires HistoryOk(w) && LaunchOk(w) && w.up.Some? && e.id in w.launching && e == Execution(e.id, w.epoch, w.clock, w.file)
    ensures HistoryOk(w.(launching := w.launching - {e.id}, running := w.running + {e.id}, executed := w.executed + [e]))
  {
    var w' := w.(launching := w.launching - {e.id}, running := w.running + {e.id}, executed := w.executed + [e]);
    RunningStages(w, w', e);
    LaunchedOnce(w, e);
    assert TimesOk(w') && AcceptancesOk(w');
  }

  lemma DownHistory(w: World)
    requires HistoryOk(w)
    ensures HistoryOk(Down(w))
  {}

  /** The steps that leave the stages, the clock and the log alone. */
  lemma QuietHistory(w: World, s: Step)
    requires HistoryOk(w) && CanStep(w, s) && (s.Shutdown? || s.Close?)
    ensures HistoryOk(Apply(w, s))
  {
    HistoryFrame(w, Apply(w, s));
  }

  lemma StopHistory(w: World, s: Step)
    requires HistoryOk(w) && CanStep(w, s) && (s.Crash? || s.PowerLoss?)
    ensures HistoryOk(Apply(w, s))
  {
    DownHistory(w);
    HistoryFrame(Down(w), Apply(w, s));
  }

  lemma LeavingHistory(w: World, s: Step)
    requires HistoryOk(w) && CanStep(w, s) && (s.FlushFailed? || s.ExecuteFailed? || s.ExecuteReturned?)
    ensures HistoryOk(Apply(w, s))
  {
    var flushing := if s.FlushFailed? then w.flushing - {s.id} else w.flushing;
    var running := if s.FlushFailed? then w.running else w.running - {s.id};
    LeaveHistory(w, flushing, w.timers, running);
    HistoryFrame(w.(flushing := flushing, running := running), Apply(w, s));
  }

  /** The steps after the timer was armed. */
  lemma LateHistory(w: World, s: Step)
    requires HistoryOk(w) && LaunchOk(w) && CanStep(w, s) && !s.Start? && !s.Tick? && !s.Ask? && !s.Flushed?
    ensures HistoryOk(Apply(w, s))
  {
    if s.Fire? {
      FireHistory(w, s);
    } else if s.Launch? {
      RunningHistory(w, Execution(s.id, w.epoch, w.clock, w.file));
    } else if s.Shutdown? || s.Close? {
      QuietHistory(w, s);
    } else if s.Crash? || s.PowerLoss? {
      StopHistory(w, s);
    } else {
      LeavingHistory(w, s);
    }
  }

  lemma StepHistory(w: World, s: Step)
    requires HistoryOk(w) && MemoryOk(w) && LaunchOk(w) && CanStep(w, s)
    ensures HistoryOk(Apply(w, s))
  {
    match s
    case Start(_, _, _, _) => StartHistory(w, s);
    case Tick(now) => TickHistory(w, now);
    case Ask(_, _, _, _, _, _) => AskHistory(w, s);
    case Flushed(_) => FlushedHistory(w, s);
    case _ => LateHistory(w, s);
  }

  /** Every step of every process keeps the invariant. */
  lemma StepInv(w: World, s: Step)
    requires Inv(w) && Enabled(w, s)
    ensures CanStep(w, s) && Inv(Apply(w, s))
  {
    InvCanStep(w, s);
    StepLedgers(w, s);
    StepHistory(w, s);
  }

  // ------------------------------------------------------------------- whole runs

  /** The states a sequence of steps leads through, if each was enabled in turn. */
  ghost predicate Run(w: World, steps: seq<Step>, w': World)
    decreases |steps|
  {
    if steps == [] then w == w'
    else CanStep(w, steps[0]) && Run(Apply(w, steps[0]), steps[1..], w')
  }

  lemma {:induction false} RunInv(w: World, steps: seq<Step>, w': World)
    requires Inv(w) && Run(w, steps, w')
    ensures Inv(w')
    decreases |steps|
  {
    if steps != [] {
      StepInv(w, steps[0]);
      RunInv(Apply(w, steps[0]), steps[1..], w');
    }
  }

  /** Each request is executed at most once, only by the process that accepted it, only while its
      record is durably saved as executing, at or after its RebootAt, and at least the full grace
      after its acknowledgement was flushed and its timer armed. */
  lemma {:induction false} ExecutedOnce(w: World, steps: seq<Step>, w': World)
    requires Init(w) && Run(w, steps, w')
    ensures forall i, j :: 0 <= i < j < |w'.executed| ==> w'.executed[i].id != w'.executed[j].id
    ensures forall i :: 0 <= i < |w'.executed| ==>
              var e := w'.executed[i];
              && e.id in w'.accepted && w'.accepted[e.id].epoch == e.epoch
              && e.file.stale == {} && e.file.seen.Some? && e.id in e.file.seen.value.records
              && e.file.seen.value.records[e.id].receipt.state == ReceiptState.Executing
              && w'.accepted[e.id].receipt.rebootAt <= e.at
              && e.id in w'.armed && w'.armed[e.id].at + 30_000_000_000 <= e.at
  {
    InitInv(w);
    RunInv(w, steps, w');
    forall i | 0 <= i < |w'.executed|
      ensures ExecutionOk(w'.accepted, w'.armed, w'.executed[i]) && w'.executed[i].id in w'.armed
      ensures ArmedWell(w'.accepted, w'.executed[i].id, w'.armed[w'.executed[i].id])
    {}
  }

  /** Every acceptance's readiness check read the clock at least ten minutes after the acceptance
      time of every receipt acknowledged before it, across all restarts. */
  lemma {:induction false} CooldownHolds(w: World, steps: seq<Step>, w': World, i: string, j: string)
    requires Init(w) && Run(w, steps, w') && i in w'.accepted && j in w'.accepted && i != j
    ensures w'.accepted[i].order != w'.accepted[j].order
    ensures w'.accepted[i].order < w'.accepted[j].order ==>
              w'.accepted[i].receipt.acceptedAt + 600_000_000_000 <= w'.accepted[j].checkedAt
  {
    InitInv(w);
    RunInv(w, steps, w');
    assert Spaced(w'.accepted[i], w'.accepted[j]);
  }

  /** Whenever an agent runs, a record is active exactly when it is the pending one; and every
      content it can leave behind is one the next agent can load, with at most 4096 records and
      every acknowledged receipt in it. */
  lemma {:induction false} LedgersLoad(w: World, steps: seq<Step>, w': World, d: Option<Ledger>)
    requires Init(w) && Run(w, steps, w') && w'.file.Possible(d)
    ensures w'.up.Some? ==> PendingOk(w'.up.value) && Loadable(w'.up.value.ledger, w'.deployment)
    ensures d.Some? ==> Loadable(d.value, w'.deployment) && |d.value.records| <= 4096
    ensures forall id :: id in w'.accepted ==>
              d.Some? && id in d.value.records && d.value.records[id].To(Accepted) == Saved(w'.accepted[id].receipt, w'.accepted[id].bootId)
  {
    InitInv(w);
    RunInv(w, steps, w');
    assert ContentOk(w'.deployment, w'.accepted, d);
    forall id | id in w'.accepted ensures d.Some? && Keeps(d.value, id, w'.accepted[id]) {}
  }
}
