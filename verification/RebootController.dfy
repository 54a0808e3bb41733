/** The reboot agent's controller (internal/hostcontrol/agent.go): the object whose methods each run
    under one lock, and the value-level transition each of them performs. */
module RebootController {
  import opened Results
  import opened RebootLedger

  const OK: int := 200
  const ACCEPTED: int := 202
  const BAD_REQUEST: int := 400
  const CONFLICT: int := 409
  const UNAVAILABLE: int := 503

  datatype Request = Request(version: int, action: bool, id: string, requestedAt: int)

  /** An answer to POST /v1/reboot; first (the source's fresh) tells the handler to arm the timer after flushing. */
  datatype Answer = Answer(receipt: Option<Receipt>, first: bool, code: int)

  datatype Reason = StateUnavailable | RebootPending | Cooling | NotReady(why: string) | Ready

  datatype Status = Status(ready: bool, reason: Reason, pending: Option<Receipt>, last: Option<Receipt>)

  /** The controller's fields. An empty pending id means no request is pending. */
  datatype Memory = Memory(ledger: Ledger, bootId: string, pending: string, armed: bool, closed: bool, broken: bool,
                           cancelled: bool)
  {
    predicate PendingKnown() {
      pending == "" || pending in ledger.records
    }

    predicate Stopped() {
      closed || broken || cancelled
    }

    predicate Is(id: string, s: ReceiptState) {
      id in ledger.records && ledger.records[id].receipt.state == s
    }
  }

  /** A request in the form the protocol asks for. */
  predicate WellFormed(q: Request) {
    q.version == 1 && q.action && ValidRequestID(q.id) && q.requestedAt != 0
  }

  function Lookup(l: Ledger, id: string): Option<Receipt> {
    if id in l.records then Some(l.records[id].receipt) else None
  }

  // ------------------------------------------------------ the transitions, on values

  function Marked(l: Ledger, id: string, s: ReceiptState): Ledger
    requires id in l.records
  {
    l.(records := l.records[id := l.records[id].To(s)])
  }

  function Settled(r: Saved, bootId: string): Saved {
    if !Active(r.receipt.state) then r else if r.bootId != bootId then r.To(BootChanged) else r.To(Abandoned)
  }

  /** Start-up gives up every request that was still active. */
  function Recovered(l: Ledger, bootId: string): Ledger {
    l.(records := map id | id in l.records :: Settled(l.records[id], bootId))
  }

  predicate NeedsRecovery(l: Ledger) {
    exists id :: id in l.records && Active(l.records[id].receipt.state)
  }

  function Started(l: Ledger, bootId: string): Memory {
    Memory(Recovered(l, bootId), bootId, "", false, false, false, false)
  }

  function StatusOf(m: Memory, now: int, ready: Reason): (s: Status)
    requires m.PendingKnown()
  {
    var last := Lookup(m.ledger, m.ledger.lastId);
    if m.pending != "" then Status(false, RebootPending, Lookup(m.ledger, m.pending), last)
    else if m.Stopped() || |m.ledger.records| >= MAX_RECEIPTS then Status(false, StateUnavailable, None, last)
    else if last.Some? && now < last.value.acceptedAt + COOLDOWN then Status(false, Cooling, None, last)
    else Status(ready.Ready?, ready, None, last)
  }

  function Entered(m: Memory, id: string, now: int): Ledger {
    m.ledger.(lastId := id,
              records := m.ledger.records[id := Saved(Receipt(id, Accepted, now, now + GRACE), m.bootId)])
  }

  /** Whether reserve gets as far as saving a new receipt. */
  predicate Admits(m: Memory, q: Request, now: int, later: int, ready: Reason, gone: bool)
    requires m.PendingKnown()
  {
    && q.version == PROTOCOL_VERSION && q.action && ValidRequestID(q.id) && q.requestedAt != 0
    && q.id !in m.ledger.records
    && -5 * SECOND <= now - q.requestedAt <= 60 * SECOND
    && !m.broken && !m.closed && |m.ledger.records| < MAX_RECEIPTS
    && m.pending == "" && StatusOf(m, later, ready).reason.Ready? && !gone
  }

  function RefusalCode(m: Memory, q: Request, now: int, later: int, ready: Reason): int
    requires m.PendingKnown()
  {
    if q.version != PROTOCOL_VERSION || !q.action || !ValidRequestID(q.id) || q.requestedAt == 0 then BAD_REQUEST
    else if !(-5 * SECOND <= now - q.requestedAt <= 60 * SECOND) then BAD_REQUEST
    else if m.broken || m.closed || |m.ledger.records| >= MAX_RECEIPTS then UNAVAILABLE
    else if m.pending != "" || !StatusOf(m, later, ready).reason.Ready? then CONFLICT
    else UNAVAILABLE
  }

  /** reserve: a known id is answered from the ledger, a new one is admitted, or it is refused. */
  function Reserved(m: Memory, f: File, q: Request, now: int, later: int, ready: Reason, gone: bool, o: SaveOutcome)
    : (r: (Memory, File, Answer))
    requires m.PendingKnown()
  {
    if Admits(m, q, now, later, ready, gone) then
      var next := Entered(m, q.id, now);
      if o.Succeeds? then
        (m.(ledger := next, pending := q.id), f.Write(next, o), Answer(Some(next.records[q.id].receipt), true, ACCEPTED))
      else (m.(broken := true), f.Write(next, o), Answer(None, false, UNAVAILABLE))
    else if q.version == PROTOCOL_VERSION && q.action && q.requestedAt != 0 && ValidRequestID(q.id) && q.id in m.ledger.records then
      (m, f, Answer(Some(m.ledger.records[q.id].receipt), false, OK))
    else (m, f, Answer(None, false, RefusalCode(m, q, now, later, ready)))
  }

  predicate Arms(m: Memory, id: string) {
    !m.Stopped() && m.pending == id && !m.armed
  }

  /** The delay arm asks of the timer: to RebootAt, and never less than the full grace. */
  function Delay(m: Memory, id: string, now: int): int
    requires id in m.ledger.records
  {
    var d := m.ledger.records[id].receipt.rebootAt - now;
    if d < GRACE then GRACE else d
  }

  function Changed(m: Memory, f: File, id: string, s: ReceiptState, o: SaveOutcome): (r: (Memory, File, bool))
    requires m.PendingKnown() && id != ""
  {
    if m.pending != id then (m, f, false)
    else
      var next := Marked(m.ledger, id, s);
      if !o.Succeeds? then (m.(broken := true), f.Write(next, o), false)
      else if s.Executing? then (m.(ledger := next), f.Write(next, o), true)
      else (m.(ledger := next, pending := "", armed := false), f.Write(next, o), true)
  }

  predicate Performs(m: Memory, id: string) {
    !m.Stopped() && m.pending == id && m.Is(id, Accepted)
  }

  /** perform up to its unlock: launch tells whether execute is to be called. */
  function Fired(m: Memory, f: File, id: string, ready: bool, o: SaveOutcome): (r: (Memory, File, bool))
    requires m.PendingKnown() && id != ""
  {
    if !Performs(m, id) then (m, f, false)
    else
      var (m', f', done) := Changed(m, f, id, if ready then Executing else Cancelled, o);
      (m', f', ready && done)
  }

  function Closed(m: Memory, f: File, o: SaveOutcome): (r: (Memory, File))
    requires m.PendingKnown()
  {
    var c := m.(closed := true, cancelled := true);
    if c.pending != "" && c.Is(c.pending, Accepted) then
      var (m', f', _) := Changed(c, f, c.pending, Abandoned, o);
      (m', f')
    else (c, f)
  }

  // ---------------------------------------------------------------------- the object

  class Controller {
    const store: LedgerStore
    const bootID: string
    var state: Ledger
    var pendingID: string
    var stopTimer: bool
    var closed: bool
    var broken: bool
    var cancelled: bool

    /** The fields, as a value. */
    function View(): Memory
      reads this
    {
      Memory(state, bootID, pendingID, stopTimer, closed, broken, cancelled)
    }

    constructor (s: LedgerStore, initial: Ledger, boot: string)
      ensures View() == Memory(initial, boot, "", false, false, false, false) && store == s
    {
      store, state, bootID := s, initial, boot;
      pendingID, stopTimer, closed, broken, cancelled := "", false, false, false, false;
    }

    method ReadStatus(now: int, ready: Reason) returns (s: Status)
      requires View().PendingKnown()
      ensures s == StatusOf(View(), now, ready)
      ensures s.ready <==> && pendingID == "" && !View().Stopped() && |state.records| < MAX_RECEIPTS && ready.Ready?
                           && (state.lastId in state.records ==> state.records[state.lastId].receipt.acceptedAt + COOLDOWN <= now)
      ensures (s.ready <==> s.reason.Ready?) && (s.pending.Some? <==> pendingID != "") && (s.reason.RebootPending? <== pendingID != "")
      ensures pendingID == "" && (View().Stopped() || |state.records| >= MAX_RECEIPTS) ==> s.reason.StateUnavailable?
      ensures pendingID != "" ==> s.pending == Some(state.records[pendingID].receipt)
      ensures s.last == if state.lastId in state.records then Some(state.records[state.lastId].receipt) else None
    {
      var last := Lookup(state, state.lastId);
      if pendingID != "" && pendingID in state.records {
        return Status(false, RebootPending, Some(state.records[pendingID].receipt), last);
      }
      if broken || closed || cancelled || |state.records| >= MAX_RECEIPTS {
        return Status(false, StateUnavailable, None, last);
      }
      if last.Some? && now < last.value.acceptedAt + COOLDOWN {
        return Status(false, Cooling, None, last);
      }
      s := Status(ready.Ready?, ready, None, last);
    }

    method Reserve(q: Request, now: int, later: int, ready: Reason, gone: bool, o: SaveOutcome) returns (a: Answer)
      requires View().PendingKnown()
      modifies this, store
      ensures (View(), store.file, a) == Reserved(old(View()), old(store.file), q, now, later, ready, gone, o)
      ensures a.first ==> && WellFormed(q) && -5_000_000_000 <= now - q.requestedAt <= 60_000_000_000 && q.id !in old(state).records
                          && old(pendingID) == "" && !old(View()).Stopped() && |old(state).records| < 4096 && ready.Ready? && !gone
      ensures a.first ==> && a.receipt == Some(Receipt(q.id, Accepted, now, now + 30_000_000_000)) && a.code == 202
                          && pendingID == q.id && store.file == File(Some(state), {}) && state.lastId == q.id
                          && state.records == old(state).records[q.id := Saved(a.receipt.value, bootID)]
      ensures WellFormed(q) && q.id in old(state).records ==> a == Answer(Some(old(state).records[q.id].receipt), false, 200)
      ensures !a.first ==> state == old(state) && pendingID == old(pendingID)
      ensures a.code == 400 <==> !WellFormed(q) || (q.id !in old(state).records && !(-5_000_000_000 <= now - q.requestedAt <= 60_000_000_000))
      ensures a.code == 409 ==> old(pendingID) != "" || !StatusOf(old(View()), later, ready).ready
      ensures a.code == 503 ==> old(broken) || old(closed) || |old(state).records| >= 4096 || gone || !o.Succeeds?
    {
      if q.version != PROTOCOL_VERSION || !q.action || !ValidRequestID(q.id) || q.requestedAt == 0 {
        return Answer(None, false, BAD_REQUEST);
      }
      if q.id in state.records {
        return Answer(Some(state.records[q.id].receipt), false, OK);
      }
      var age := now - q.requestedAt;
      if age < -5 * SECOND || age > 60 * SECOND {
        return Answer(None, false, BAD_REQUEST);
      }
      if broken || closed || |state.records| >= MAX_RECEIPTS {
        return Answer(None, false, UNAVAILABLE);
      }
      var status := ReadStatus(later, ready);
      if pendingID != "" || status.reason != Ready {
        return Answer(None, false, CONFLICT);
      }
      if gone {
        return Answer(None, false, UNAVAILABLE);
      }
      var receipt := Receipt(q.id, Accepted, now, now + GRACE);
      var next := state.(lastId := q.id, records := state.records[q.id := Saved(receipt, bootID)]);
      var ok := store.Save(next, o);
      if !ok {
        broken := true;
        return Answer(None, false, UNAVAILABLE);
      }
      state, pendingID := next, q.id;
      a := Answer(Some(receipt), true, ACCEPTED);
    }

    /** The delay for which a timer is scheduled, if one is. */
    method Arm(id: string, now: int) returns (delay: Option<int>)
      requires View().PendingKnown() && id != ""
      modifies this`stopTimer
      ensures delay == (if Arms(old(View()), id) then Some(Delay(old(View()), id, now)) else None)
      ensures View() == old(View()).(armed := old(View()).armed || Arms(old(View()), id))
      ensures delay.Some? ==> pendingID == id && delay.value >= GRACE && now + delay.value >= state.records[id].receipt.rebootAt
      ensures delay.Some? ==> !Arms(View(), id)
    {
      if closed || broken || cancelled || pendingID != id || stopTimer { return None; }
      var d := state.records[id].receipt.rebootAt - now;
      if d < GRACE { d := GRACE; }
      stopTimer := true;
      delay := Some(d);
    }

    method ChangeState(id: string, s: ReceiptState, o: SaveOutcome) returns (ok: bool)
      requires View().PendingKnown() && id != ""
      modifies this, store
      ensures (View(), store.file, ok) == Changed(old(View()), old(store.file), id, s, o)
      ensures ok ==> store.file == File(Some(state), {}) && View().Is(id, s) && pendingID == if s.Executing? then id else ""
      ensures ok ==> state.records.Keys == old(state).records.Keys && forall x :: x in state.records && x != id ==> state.records[x] == old(state).records[x]
      ensures !ok ==> state == old(state) && pendingID == old(pendingID) && (pendingID == id ==> broken)
    {
      if pendingID != id { return false; }
      var next := state.(records := state.records[id := state.records[id].To(s)]);
      var saved := store.Save(next, o);
      if !saved {
        broken := true;
        return false;
      }
      state := next;
      if s != Executing {
        pendingID := "";
        stopTimer := false;
      }
      ok := true;
    }

    /** perform, up to where it releases the lock. */
    method Perform(id: string, ready: bool, o: SaveOutcome) returns (launch: bool)
      requires View().PendingKnown() && id != ""
      modifies this, store
      ensures (View(), store.file, launch) == Fired(old(View()), old(store.file), id, ready, o)
      ensures launch ==> ready && Performs(old(View()), id) && pendingID == id && View().Is(id, Executing) && store.file == File(Some(state), {})
      ensures !launch ==> forall x :: View().Is(x, Executing) ==> old(View()).Is(x, Executing)
      ensures !Performs(View(), id)
      ensures Performs(old(View()), id) && !ready && o.Succeeds? ==> View().Is(id, Cancelled) && pendingID == "" && store.file == File(Some(state), {})
    {
      if closed || broken || cancelled || pendingID != id || state.records[id].receipt.state != Accepted {
        return false;
      }
      if !ready {
        var _ := ChangeState(id, Cancelled, o);
        return false;
      }
      launch := ChangeState(id, Executing, o);
    }

    method Close(o: SaveOutcome)
      requires View().PendingKnown()
      modifies this, store
      ensures (View(), store.file) == Closed(old(View()), old(store.file), o)
      ensures forall id :: !Arms(View(), id) && !Performs(View(), id)
      ensures pendingID != "" && View().Is(pendingID, Accepted) ==> broken
      ensures old(pendingID) != "" && old(View()).Is(old(pendingID), Accepted) && o.Succeeds? ==>
                View().Is(old(pendingID), Abandoned) && pendingID == "" && store.file == File(Some(state), {})
      ensures store.file != old(store.file) ==> old(pendingID) != "" && old(View()).Is(old(pendingID), Accepted)
    {
      cancelled := true;
      closed := true;
      if pendingID != "" && state.records[pendingID].receipt.state == Accepted {
        var _ := ChangeState(pendingID, Abandoned, o);
      }
    }
  }

  /** newController's loop over the loaded records, in any order. */
  method SettleRecords(initial: map<string, Saved>, bootID: string) returns (records: map<string, Saved>, changed: bool)
    ensures records == map id | id in initial :: Settled(initial[id], bootID)
    ensures forall id :: id in initial ==>
              records[id] == match initial[id].receipt.state
                             case Accepted => initial[id].To(if initial[id].bootId == bootID then Abandoned else BootChanged)
                             case Executing => initial[id].To(if initial[id].bootId == bootID then Abandoned else BootChanged)
                             case _ => initial[id]
    ensures changed <==> exists id :: id in initial && Active(initial[id].receipt.state)
  {
    records, changed := initial, false;
    var left := initial.Keys;
    while left != {}
      invariant left <= initial.Keys == records.Keys
      invariant forall id :: id in initial ==> records[id] == if id in left then initial[id] else Settled(initial[id], bootID)
      invariant changed <==> exists id :: id in initial && id !in left && Active(initial[id].receipt.state)
      decreases |left|
    {
      var id :| id in left;
      left := left - {id};
      var record := records[id];
      if Active(record.receipt.state) {
        records := records[id := record.To(if record.bootId != bootID then BootChanged else Abandoned)];
        changed := true;
      }
    }
  }

  /** newController: every active record is settled, and the result saved if anything changed. */
  method NewController(store: LedgerStore, initial: Ledger, bootID: string, o: SaveOutcome) returns (c: Controller?)
    modifies store
    ensures store.file == if NeedsRecovery(initial) then old(store.file).Write(Recovered(initial, bootID), o) else old(store.file)
    ensures c == null <==> NeedsRecovery(initial) && !o.Succeeds?
    ensures c != null ==> fresh(c) && c.store == store && c.View() == Started(initial, bootID)
  {
    c := new Controller(store, initial, bootID);
    var records, changed := SettleRecords(initial.records, bootID);
    c.state := c.state.(records := records);
    if changed {
      var ok := store.Save(c.state, o);
      if !ok { c := null; }
    }
  }
}
