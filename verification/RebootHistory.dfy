/** What never changes in the reboot agent's memory, file and history, and the one case in which a
    finished record on disk does (internal/hostcontrol/agent.go). */
module RebootHistory {
  import opened Results
  import opened RebootLedger
  import opened RebootController
  import opened RebootRuns

  ghost predicate Extends<K, V>(a: map<K, V>, b: map<K, V>) {
    forall k :: k in a ==> k in b && b[k] == a[k]
  }

  /** History is only added to: a request is accepted, armed and executed at most once each. */
  lemma HistoryGrows(w: World, s: Step)
    requires Inv(w) && CanStep(w, s)
    ensures Extends(w.accepted, Apply(w, s).accepted) && Extends(w.armed, Apply(w, s).armed)
    ensures w.executed <= Apply(w, s).executed && w.epoch <= Apply(w, s).epoch
  {
    if s.Ask? {
      AskIsNew(w, s);
      AskGrows(w, s);
    } else if s.Flushed? {
      ArmGrows(w, s);
    } else {
      OtherGrows(w, s);
    }
  }

  lemma OtherGrows(w: World, s: Step)
    requires CanStep(w, s) && !s.Ask? && !s.Flushed?
    ensures w.accepted == Apply(w, s).accepted && w.armed == Apply(w, s).armed
    ensures w.executed <= Apply(w, s).executed && w.epoch <= Apply(w, s).epoch
    ensures !s.Launch? ==> w.executed == Apply(w, s).executed
  {
    if s.Start? { StartShape(w, s); }
  }

  lemma AskIsNew(w: World, s: Step)
    requires Inv(w) && Enabled(w, s) && s.Ask?
    ensures w.up.value.PendingKnown()
    ensures Admits(w.up.value, s.q, s.now, s.later, s.ready, s.gone) ==> s.q.id !in w.accepted
  {
    if Admits(w.up.value, s.q, s.now, s.later, s.ready, s.gone) { AskAccepts(w, s); }
  }

  lemma AskGrows(w: World, s: Step)
    requires CanStep(w, s) && s.Ask?
    requires Admits(w.up.value, s.q, s.now, s.later, s.ready, s.gone) ==> s.q.id !in w.accepted
    ensures Extends(w.accepted, Apply(w, s).accepted) && w.armed == Apply(w, s).armed
    ensures w.executed == Apply(w, s).executed && w.epoch == Apply(w, s).epoch
  {}

  lemma ArmGrows(w: World, s: Step)
    requires StagesOk(w) && CanStep(w, s) && s.Flushed?
    ensures w.accepted == Apply(w, s).accepted && Extends(w.armed, Apply(w, s).armed)
    ensures forall id :: id in Apply(w, s).armed ==> id in w.armed || id in w.flushing
    ensures w.executed == Apply(w, s).executed && w.epoch == Apply(w, s).epoch
  {}

  /** A request accepted by an earlier process is never armed or executed by a later one. */
  lemma RestartNeverResumes(w: World, s: Step, id: string)
    requires StagesOk(w) && CanStep(w, s) && id in w.accepted && w.accepted[id].epoch < w.epoch
    ensures id in Apply(w, s).armed <==> id in w.armed
    ensures forall k :: |w.executed| <= k < |Apply(w, s).executed| ==> Apply(w, s).executed[k].id != id
  {
    assert !OfThisProcess(w, id);
    assert id !in w.flushing && id !in w.launching;
    if s.Flushed? {
      ArmGrows(w, s);
    } else if !s.Launch? {
      OtherLeaves(w, s);
    }
  }

  lemma OtherLeaves(w: World, s: Step)
    requires CanStep(w, s) && !s.Flushed? && !s.Launch?
    ensures w.armed == Apply(w, s).armed && w.executed == Apply(w, s).executed
  {}

  /** Asking again for a known id only reports its record. */
  lemma RepeatOnlyReports(m: Memory, f: File, q: Request, now: int, later: int, ready: Reason, gone: bool, o: SaveOutcome)
    requires m.PendingKnown() && q.id in m.ledger.records
    requires q.version == PROTOCOL_VERSION && q.action && ValidRequestID(q.id) && q.requestedAt != 0
    ensures Reserved(m, f, q, now, later, ready, gone, o) == (m, f, Answer(Some(m.ledger.records[q.id].receipt), false, OK))
  {}

  /** r' is r, or r moved on from an active state. */
  predicate MovesOn(r: Saved, r': Saved) {
    r' == r.To(r'.receipt.state) && (!Active(r.receipt.state) ==> r' == r)
  }

  ghost predicate KeepsRecords(m: Memory, m': Memory) {
    forall id :: id in m.ledger.records ==> id in m'.ledger.records && MovesOn(m.ledger.records[id], m'.ledger.records[id])
  }

  lemma ChangedMovesOn(m: Memory, f: File, id: string, to: ReceiptState, o: SaveOutcome)
    requires PendingOk(m) && id != ""
    ensures KeepsRecords(m, Changed(m, f, id, to, o).0)
  {}

  lemma ReservedMovesOn(m: Memory, f: File, s: Step)
    requires PendingOk(m) && s.Ask?
    ensures KeepsRecords(m, Reserved(m, f, s.q, s.now, s.later, s.ready, s.gone, s.o).0)
  {}

  lemma ClosedMovesOn(m: Memory, f: File, o: SaveOutcome)
    requires PendingOk(m)
    ensures KeepsRecords(m, Closed(m, f, o).0)
  {
    var c := m.(closed := true, cancelled := true);
    if c.pending != "" { ChangedMovesOn(c, f, c.pending, Abandoned, o); }
  }

  /** While an agent runs, no record leaves its memory and no finished record changes. */
  lemma MemoryKeeps(w: World, s: Step)
    requires CanStep(w, s) && w.up.Some? && PendingOk(w.up.value) && Apply(w, s).up.Some?
    ensures KeepsRecords(w.up.value, Apply(w, s).up.value)
  {
    if s.Ask? {
      AskMovesOn(w, s);
    } else if s.Close? {
      CloseMovesOn(w, s);
    } else if s.FlushFailed? || s.Fire? || s.ExecuteFailed? {
      StateMovesOn(w, s);
    } else {
      SameRecords(w, s);
    }
  }

  lemma AskMovesOn(w: World, s: Step)
    requires CanStep(w, s) && s.Ask? && PendingOk(w.up.value)
    ensures Apply(w, s).up.Some? && KeepsRecords(w.up.value, Apply(w, s).up.value)
  {
    ReservedMovesOn(w.up.value, w.file, s);
  }

  lemma CloseMovesOn(w: World, s: Step)
    requires CanStep(w, s) && s.Close? && PendingOk(w.up.value)
    ensures Apply(w, s).up.Some? && KeepsRecords(w.up.value, Apply(w, s).up.value)
  {
    ClosedMovesOn(w.up.value, w.file, s.o);
  }

  lemma StateMovesOn(w: World, s: Step)
    requires CanStep(w, s) && w.up.Some? && (s.FlushFailed? || s.Fire? || s.ExecuteFailed?) && PendingOk(w.up.value)
    ensures Apply(w, s).up.Some? && KeepsRecords(w.up.value, Apply(w, s).up.value)
  {
    var to := if s.FlushFailed? then Abandoned else if s.ExecuteFailed? then Failed
              else if s.holds then ReceiptState.Executing else Cancelled;
    ChangedMovesOn(w.up.value, w.file, s.id, to, s.o);
  }

  lemma SameRecords(w: World, s: Step)
    requires CanStep(w, s) && w.up.Some? && Apply(w, s).up.Some?
    requires !s.Ask? && !s.Close? && !s.FlushFailed? && !s.Fire? && !s.ExecuteFailed?
    ensures w.up.value.ledger == Apply(w, s).up.value.ledger
  {}

  // --------------------------------------------- how the file can differ from memory

  /** After a failed save the file may hold the pending record one state ahead of memory. */
  ghost predicate Ahead(w: World, m: Memory, id: string, on: Saved) {
    && m.broken && m.pending == id && id in m.ledger.records && on == m.ledger.records[id].To(on.receipt.state)
    && (|| (m.Is(id, Accepted) && on.receipt.state in {Cancelled, Abandoned, ReceiptState.Executing}
            && (on.receipt.state.Cancelled? ==> id !in w.flushing))
        || (m.Is(id, ReceiptState.Executing) && on.receipt.state.Failed? && id !in w.running))
  }

  ghost predicate RecordAgrees(w: World, m: Memory, id: string)
    requires w.file.seen.Some?
  {
    && id in m.ledger.records && id in w.file.seen.value.records
    && (w.file.seen.value.records[id] == m.ledger.records[id] || Ahead(w, m, id, w.file.seen.value.records[id]))
  }

  ghost predicate FileAgrees(w: World) {
    w.up.Some? && w.file.seen.Some? ==>
      var m := w.up.value;
      && (forall id :: id in m.ledger.records ==> RecordAgrees(w, m, id))
      && (m.pending != "" && m.Is(m.pending, ReceiptState.Executing) ==> m.pending in w.armed)
  }

  lemma AgreesWhenEqual(w: World)
    requires w.up.Some? ==> w.file.seen == Some(w.up.value.ledger)
    requires w.up.Some? && w.up.value.pending != "" && w.up.value.Is(w.up.value.pending, ReceiptState.Executing) ==> w.up.value.pending in w.armed
    ensures FileAgrees(w)
  {}

  lemma RecordFrame(w: World, w': World, m: Memory, id: string)
    requires w.file.seen.Some? && RecordAgrees(w, m, id) && w'.file == w.file
    requires w'.flushing <= w.flushing && w'.running <= w.running
    ensures RecordAgrees(w', m, id)
  {}

  /** The pending record's state, changed in memory or only on disk. */
  lemma CancelAgrees(w: World, id: string, to: ReceiptState, o: SaveOutcome)
    requires MemoryOk(w) && FileAgrees(w) && w.up.Some? && id != "" && !Active(to)
    requires w.up.value.pending == id ==>
               || (w.up.value.Is(id, Accepted) && to in {Cancelled, Abandoned} && (to.Cancelled? ==> id !in w.flushing))
               || (w.up.value.Is(id, ReceiptState.Executing) && to.Failed? && id !in w.running)
    ensures FileAgrees(CancelOf(w, id, to, o))
  {
    var w', m := CancelOf(w, id, to, o), w.up.value;
    if m.pending == id {
      if o.Succeeds? {
        AgreesWhenEqual(w');
      } else {
        forall i | i in m.ledger.records ensures RecordAgrees(w', w'.up.value, i) { assert RecordAgrees(w, m, i); }
      }
    }
  }

  lemma FireAgrees(w: World, id: string, ready: bool, o: SaveOutcome)
    requires MemoryOk(w) && StagesOk(w) && FileAgrees(w) && w.up.Some? && id in w.timers && id != ""
    ensures FileAgrees(FireOf(w, id, ready, o))
  {
    var w', m := FireOf(w, id, ready, o), w.up.value;
    if Performs(m, id) {
      if o.Succeeds? {
        AgreesWhenEqual(w');
      } else {
        forall i | i in m.ledger.records ensures RecordAgrees(w', w'.up.value, i) { assert RecordAgrees(w, m, i); }
      }
    }
  }

  lemma AskAgrees(w: World, s: Step)
    requires MemoryOk(w) && FileAgrees(w) && Enabled(w, s) && s.Ask?
    ensures FileAgrees(AskOf(w, s))
  {
    if Admits(w.up.value, s.q, s.now, s.later, s.ready, s.gone) {
      AdmittedAgrees(w, s);
    } else {
      ClockAgrees(w, AskOf(w, s));
    }
  }

  lemma AdmittedAgrees(w: World, s: Step)
    requires MemoryOk(w) && FileAgrees(w) && Enabled(w, s) && s.Ask?
    requires Admits(w.up.value, s.q, s.now, s.later, s.ready, s.gone)
    ensures FileAgrees(AskOf(w, s))
  {
    var w', m := AskOf(w, s), w.up.value;
    if s.o.Succeeds? {
      AgreesWhenEqual(w');
    } else {
      forall i | i in m.ledger.records ensures RecordAgrees(w', w'.up.value, i) { assert RecordAgrees(w, m, i); }
    }
  }

  lemma LeaveAgrees(w: World, flushing: set<string>, running: set<string>)
    requires FileAgrees(w) && flushing <= w.flushing && running <= w.running
    ensures FileAgrees(w.(flushing := flushing, running := running))
  {
    var w' := w.(flushing := flushing, running := running);
    if w.up.Some? && w.file.seen.Some? {
      forall i | i in w.up.value.ledger.records ensures RecordAgrees(w', w.up.value, i) { RecordFrame(w, w', w.up.value, i); }
    }
  }

  lemma FlushFailedAgrees(w: World, id: string, o: SaveOutcome)
    requires MemoryOk(w) && StagesOk(w) && FileAgrees(w) && w.up.Some? && id in w.flushing && id != ""
    ensures FileAgrees(CancelOf(w.(flushing := w.flushing - {id}), id, Abandoned, o))
  {
    LeaveAgrees(w, w.flushing - {id}, w.running);
    CancelAgrees(w.(flushing := w.flushing - {id}), id, Abandoned, o);
  }

  lemma ExecuteFailedAgrees(w: World, id: string, o: SaveOutcome)
    requires MemoryOk(w) && LaunchOk(w) && FileAgrees(w) && w.up.Some? && id in w.running && id != ""
    ensures FileAgrees(CancelOf(w.(running := w.running - {id}), id, Failed, o))
  {
    assert id in w.launching + w.running;
    LeaveAgrees(w, w.flushing, w.running - {id});
    CancelAgrees(w.(running := w.running - {id}), id, Failed, o);
  }

  lemma FlagsAgree(w: World, c: Memory)
    requires MemoryOk(w) && FileAgrees(w) && w.up.Some? && c == w.up.value.(closed := c.closed, cancelled := c.cancelled, armed := c.armed)
    ensures MemoryOk(w.(up := Some(c))) && FileAgrees(w.(up := Some(c)))
  {
    var w' := w.(up := Some(c));
    forall i | i in c.ledger.records ensures RecordAgrees(w', c, i) { assert RecordAgrees(w, w.up.value, i); }
  }

  lemma CloseAgrees(w: World, o: SaveOutcome)
    requires MemoryOk(w) && FileAgrees(w) && w.up.Some?
    ensures FileAgrees(CloseOf(w, o))
  {
    var c := w.up.value.(closed := true, cancelled := true);
    FlagsAgree(w, c);
    if c.pending != "" && c.Is(c.pending, Accepted) { CancelAgrees(w.(up := Some(c)), c.pending, Abandoned, o); }
  }

  lemma ArmAgrees(w: World, id: string)
    requires MemoryOk(w) && FileAgrees(w) && w.up.Some? && id in w.flushing && id != ""
    ensures FileAgrees(ArmOf(w, id))
  {
    LeaveAgrees(w, w.flushing - {id}, w.running);
    if Arms(w.up.value, id) { FlagsAgree(w.(flushing := w.flushing - {id}), w.up.value.(armed := true)); }
  }

  lemma StartAgrees(w: World, s: Step)
    requires Enabled(w, s) && s.Start?
    ensures FileAgrees(StartFrom(w, s))
  {
    var (r, f) := Opened(w.file, w.deployment, s.allowCreate, s.create);
    if r.Ok? {
      if !NeedsRecovery(r.value) { NothingToRecover(r.value, s.boot); }
      AgreesWhenEqual(StartFrom(w, s));
    }
  }

  lemma StepAgrees(w: World, s: Step)
    requires Inv(w) && FileAgrees(w) && CanStep(w, s)
    ensures FileAgrees(Apply(w, s))
  {
    assert MemoryOk(w) && StagesOk(w) && LaunchOk(w);
    AgreesByCase(w, s);
  }

  lemma AgreesByCase(w: World, s: Step)
    requires MemoryOk(w) && StagesOk(w) && LaunchOk(w) && FileAgrees(w) && CanStep(w, s)
    ensures FileAgrees(Apply(w, s))
  {
    match s
    case Start(_, _, _, _) => StartAgrees(w, s);
    case Ask(_, _, _, _, _, _) => AskAgrees(w, s);
    case Flushed(id) => ArmAgrees(w, id);
    case FlushFailed(id, o) => FlushFailedAgrees(w, id, o);
    case Fire(id, ready, o) => FireAgrees(w, id, ready, o);
    case ExecuteFailed(id, o) => ExecuteFailedAgrees(w, id, o);
    case ExecuteReturned(id) => LeaveAgrees(w, w.flushing, w.running - {id});
    case Shutdown => FlagsAgree(w, w.up.value.(cancelled := true));
    case Close(o) => CloseAgrees(w, o);
    case Tick(_) => ClockAgrees(w, Apply(w, s));
    case Launch(_) => LaunchAgrees(w, s);
    case Crash =>
    case PowerLoss(_) =>
  }

  lemma ClockAgrees(w: World, w': World)
    requires FileAgrees(w) && w' == w.(clock := w'.clock)
    ensures FileAgrees(w')
  {
    if w.up.Some? && w.file.seen.Some? {
      forall i | i in w.up.value.ledger.records ensures RecordAgrees(w', w.up.value, i) { RecordFrame(w, w', w.up.value, i); }
    }
  }

  lemma LaunchAgrees(w: World, s: Step)
    requires StagesOk(w) && LaunchOk(w) && FileAgrees(w) && CanStep(w, s) && s.Launch?
    ensures FileAgrees(Apply(w, s))
  {
    assert s.id in w.launching + w.running;
    AgreesWhenEqual(Apply(w, s));
  }

  // ------------------------------------------------ finished records in the file

  ghost predicate FinishedOnDisk(w: World, id: string) {
    w.file.seen.Some? && id in w.file.seen.value.records && !Active(w.file.seen.value.records[id].receipt.state)
  }

  /** The one way a finished record in the file is rewritten: a timer's save of "cancelled" failed
      after reaching the file, so memory still holds the request as accepted, and a shutdown whose
      save reaches the file then records it as abandoned. */
  ghost predicate Rewrites(w: World, s: Step, id: string) {
    && s.Close? && !s.o.LeavesOld? && w.up.Some? && w.up.value.pending == id != "" && w.up.value.Is(id, Accepted)
    && w.file.seen.Some? && id in w.file.seen.value.records && w.file.seen.value.records[id].receipt.state.Cancelled?
  }

  ghost predicate SameOnDisk(w: World, w': World, id: string)
    requires FinishedOnDisk(w, id)
  {
    w'.file.seen.Some? && id in w'.file.seen.value.records && w'.file.seen.value.records[id] == w.file.seen.value.records[id]
  }

  lemma CancelOnDisk(w: World, i: string, to: ReceiptState, o: SaveOutcome, id: string)
    requires w.up.Some? && w.up.value.PendingKnown() && i != "" && FinishedOnDisk(w, id)
    requires w.up.value.pending == i ==> id in w.up.value.ledger.records
    requires w.up.value.pending == i ==>
               w.file.seen.value.records[id] == if i == id then w.up.value.ledger.records[id].To(to) else w.up.value.ledger.records[id]
    ensures SameOnDisk(w, CancelOf(w, i, to, o), id)
  {}

  /** Records other than the pending one are the same in memory and in the file. */
  lemma OthersEqual(w: World, i: string, id: string)
    requires MemoryOk(w) && FileAgrees(w) && w.up.Some? && FinishedOnDisk(w, id)
    requires i != "" && w.up.value.pending == i
    ensures id in w.up.value.ledger.records
    ensures i != id ==> w.file.seen.value.records[id] == w.up.value.ledger.records[id]
  {
    assert RecordAgrees(w, w.up.value, id);
  }

  lemma FireOnDisk(w: World, i: string, ready: bool, o: SaveOutcome, id: string)
    requires MemoryOk(w) && w.up.Some? && i != "" && FinishedOnDisk(w, id)
    ensures SameOnDisk(w, FireOf(w, i, ready, o), id)
  {}

  lemma AskOnDisk(w: World, s: Step, id: string)
    requires MemoryOk(w) && Enabled(w, s) && s.Ask? && FinishedOnDisk(w, id)
    ensures SameOnDisk(w, AskOf(w, s), id)
  {}

  lemma StartOnDisk(w: World, s: Step, id: string)
    requires Enabled(w, s) && s.Start? && FinishedOnDisk(w, id)
    ensures SameOnDisk(w, StartFrom(w, s), id)
  {}

  lemma FlushFailedOnDisk(w: World, i: string, o: SaveOutcome, id: string)
    requires MemoryOk(w) && StagesOk(w) && FileAgrees(w) && w.up.Some? && i in w.flushing && i != "" && FinishedOnDisk(w, id)
    ensures SameOnDisk(w, CancelOf(w.(flushing := w.flushing - {i}), i, Abandoned, o), id)
  {
    if w.up.value.pending == i {
      OthersEqual(w, i, id);
      assert RecordAgrees(w, w.up.value, id);
    }
    CancelOnDisk(w.(flushing := w.flushing - {i}), i, Abandoned, o, id);
  }

  lemma ExecuteFailedOnDisk(w: World, i: string, o: SaveOutcome, id: string)
    requires MemoryOk(w) && LaunchOk(w) && FileAgrees(w) && w.up.Some? && i in w.running && i != "" && FinishedOnDisk(w, id)
    ensures SameOnDisk(w, CancelOf(w.(running := w.running - {i}), i, Failed, o), id)
  {
    assert i in w.launching + w.running;
    if w.up.value.pending == i { OthersEqual(w, i, id); }
    CancelOnDisk(w.(running := w.running - {i}), i, Failed, o, id);
  }

  /** What the file holds for id when a shutdown is about to abandon the pending request. */
  ghost predicate CloseFinds(w: World, id: string)
    requires FinishedOnDisk(w, id)
  {
    && w.up.Some? && w.up.value.PendingKnown()
    && var m := w.up.value;
       var on := w.file.seen.value.records[id];
       m.pending != "" && m.Is(m.pending, Accepted) ==>
         && id in m.ledger.records
         && (if m.pending == id then on == m.ledger.records[id].To(on.receipt.state) && on.receipt.state in {Cancelled, Abandoned}
             else on == m.ledger.records[id])
  }

  lemma FindsOnDisk(w: World, id: string)
    requires MemoryOk(w) && FileAgrees(w) && w.up.Some? && FinishedOnDisk(w, id)
    ensures CloseFinds(w, id)
  {
    var m := w.up.value;
    if m.pending != "" && m.Is(m.pending, Accepted) {
      if m.pending == id {
        PendingAhead(w, id);
      } else {
        OthersEqual(w, m.pending, id);
      }
    }
  }

  lemma CloseOnDisk(w: World, o: SaveOutcome, id: string)
    requires FinishedOnDisk(w, id) && CloseFinds(w, id)
    ensures var w' := CloseOf(w, o);
            if Rewrites(w, Close(o), id)
            then w'.file.seen.Some? && id in w'.file.seen.value.records
                 && w'.file.seen.value.records[id] == w.file.seen.value.records[id].To(Abandoned)
            else SameOnDisk(w, w', id)
  {
    var m := w.up.value;
    if m.pending == id && id in m.ledger.records {
      var r := m.ledger.records[id];
      assert r.To(Cancelled).To(Abandoned) == r.To(Abandoned);
    }
  }

  lemma PendingAhead(w: World, id: string)
    requires MemoryOk(w) && FileAgrees(w) && w.up.Some? && FinishedOnDisk(w, id)
    requires w.up.value.pending == id && w.up.value.Is(id, Accepted)
    ensures w.file.seen.value.records[id] == w.up.value.ledger.records[id].To(w.file.seen.value.records[id].receipt.state)
    ensures w.file.seen.value.records[id].receipt.state in {Cancelled, Abandoned}
  {
    assert RecordAgrees(w, w.up.value, id);
  }

  lemma OthersOnDisk(w: World, s: Step, id: string)
    requires CanStep(w, s) && FinishedOnDisk(w, id)
    requires s.Tick? || s.Flushed? || s.Launch? || s.ExecuteReturned? || s.Shutdown? || s.Crash?
    ensures SameOnDisk(w, Apply(w, s), id)
  {}

  /** Short of a power failure, a step changes a finished record in the file exactly when it is that
      shutdown; the record then says abandoned instead of cancelled. */
  lemma FinishedRewrittenExactly(w: World, s: Step, id: string)
    requires Inv(w) && FileAgrees(w) && CanStep(w, s) && !s.PowerLoss? && FinishedOnDisk(w, id)
    ensures !SameOnDisk(w, Apply(w, s), id) <==> Rewrites(w, s, id)
    ensures Rewrites(w, s, id) ==>
              var seen := Apply(w, s).file.seen;
              seen.Some? && id in seen.value.records && seen.value.records[id] == w.file.seen.value.records[id].To(Abandoned)
  {
    assert MemoryOk(w) && StagesOk(w) && LaunchOk(w);
    FinishedByCase(w, s, id);
  }

  lemma FinishedByCase(w: World, s: Step, id: string)
    requires MemoryOk(w) && StagesOk(w) && LaunchOk(w) && FileAgrees(w) && CanStep(w, s) && !s.PowerLoss? && FinishedOnDisk(w, id)
    ensures !SameOnDisk(w, Apply(w, s), id) <==> Rewrites(w, s, id)
    ensures Rewrites(w, s, id) ==>
              var seen := Apply(w, s).file.seen;
              seen.Some? && id in seen.value.records && seen.value.records[id] == w.file.seen.value.records[id].To(Abandoned)
  {
    match s
    case Start(_, _, _, _) => StartOnDisk(w, s, id);
    case Ask(_, _, _, _, _, _) => AskOnDisk(w, s, id);
    case FlushFailed(i, o) => FlushFailedOnDisk(w, i, o, id);
    case Fire(i, ready, o) => FireOnDisk(w, i, ready, o, id);
    case ExecuteFailed(i, o) => ExecuteFailedOnDisk(w, i, o, id);
    case Close(o) =>
      FindsOnDisk(w, id);
      CloseOnDisk(w, o, id);
    case _ => OthersOnDisk(w, s, id);
  }

  lemma {:induction false} RunAgrees(w: World, steps: seq<Step>, w': World)
    requires Inv(w) && FileAgrees(w) && Run(w, steps, w')
    ensures Inv(w') && FileAgrees(w')
    decreases |steps|
  {
    if steps != [] {
      StepInv(w, steps[0]);
      StepAgrees(w, steps[0]);
      RunAgrees(Apply(w, steps[0]), steps[1..], w');
    }
  }

  /** The same, of every state any run from a fresh or well-kept host reaches. */
  lemma {:induction false} FinishedOnRuns(w: World, steps: seq<Step>, w': World, s: Step, id: string)
    requires Init(w) && Run(w, steps, w') && CanStep(w', s) && !s.PowerLoss? && FinishedOnDisk(w', id)
    ensures !SameOnDisk(w', Apply(w', s), id) <==> Rewrites(w', s, id)
  {
    InitInv(w);
    RunAgrees(w, steps, w');
    FinishedRewrittenExactly(w', s, id);
  }

  // ---------------------------------------------------------- what a restart reports

  /** A start over an existing ledger gives up every request it finds accepted or executing, as abandoned
      under the same boot and as boot-changed under another, leaves every finished one alone, and shows
      readers of the file what it holds in memory. */
  lemma {:induction false} RestartSettles(w: World, s: Step, id: string)
    requires CanStep(w, s) && s.Start? && w.file.seen.Some? && Apply(w, s).up.Some? && id in w.file.seen.value.records
    ensures var r, w' := w.file.seen.value.records[id], Apply(w, s);
            && w'.file.seen == Some(w'.up.value.ledger) && id in w'.up.value.ledger.records
            && w'.up.value.ledger.records[id] == match r.receipt.state
                                                 case Accepted => r.To(if r.bootId == s.boot then Abandoned else BootChanged)
                                                 case Executing => r.To(if r.bootId == s.boot then Abandoned else BootChanged)
                                                 case _ => r
  {
    var l := w.file.seen.value;
    if !NeedsRecovery(l) { NothingToRecover(l, s.boot); }
  }

  /** What a saved change records of the pending request: abandoned when its answer could not be flushed or
      the agent shut down first, cancelled when the host was not ready, failed when the command failed. */
  lemma FailuresRecorded(w: World, s: Step)
    requires CanStep(w, s) && w.up.Some? && w.up.value.pending != "" && w.up.value.pending in w.up.value.ledger.records
    requires (s.FlushFailed? || s.ExecuteFailed? || s.Fire?) ==> s.id == w.up.value.pending
    requires (s.FlushFailed? || s.ExecuteFailed? || s.Fire? || s.Close?) ==> s.o.Succeeds?
    ensures var m, id := Apply(w, s).up, w.up.value.pending;
            && (s.FlushFailed? ==> m.Some? && m.value.Is(id, Abandoned))
            && (s.ExecuteFailed? ==> m.Some? && m.value.Is(id, Failed))
            && (s.Fire? && Performs(w.up.value, id) && !s.holds ==> m.Some? && m.value.Is(id, Cancelled))
            && (s.Close? && w.up.value.Is(id, Accepted) ==> m.Some? && m.value.Is(id, Abandoned))
  {}

  // ------------------------------------------------------ a run that gets there

  function Name(): (id: string)
    ensures ValidRequestID(id)
  {
    seq(32, _ => 'a')
  }

  function Boot(): (b: string)
    ensures ValidBootID(b)
  {
    seq(36, i => if DashAt(i) then '-' else '0')
  }

  function FreshHost(): World {
    World("d", File(None, {}), None, 0, SECOND, {}, {}, {}, {}, map[], map[], [])
  }

  function Only(s: ReceiptState): Ledger {
    Ledger(PROTOCOL_VERSION, "d", Name(), map[Name() := Saved(Receipt(Name(), s, SECOND, SECOND + GRACE), Boot())])
  }

  function Agent(l: Ledger, pending: string, armed: bool, broken: bool): Memory {
    Memory(l, Boot(), pending, armed, false, broken, false)
  }

  /** The host after an agent started, accepted a request and armed its timer, and the grace passed. */
  function Waiting(): World {
    World("d", File(Some(Only(Accepted)), {}), Some(Agent(Only(Accepted), Name(), true, false)), 1, SECOND + GRACE,
          {}, {Name()}, {}, {},
          map[Name() := Acceptance(0, 1, Receipt(Name(), Accepted, SECOND, SECOND + GRACE), Boot(), SECOND)],
          map[Name() := Arming(SECOND, SECOND + GRACE)], [])
  }

  const START: Step := Start(Boot(), true, Succeeds, Succeeds)
  const ASK: Step := Ask(Request(PROTOCOL_VERSION, true, Name(), SECOND), SECOND, SECOND, Reason.Ready, false, Succeeds)

  function Idle(): World {
    FreshHost().(file := File(Some(Empty("d")), {}), up := Some(Agent(Empty("d"), "", false, false)), epoch := 1)
  }

  function Answered(): World {
    Waiting().(clock := SECOND, flushing := {Name()}, timers := {}, armed := map[], up := Some(Agent(Only(Accepted), Name(), false, false)))
  }

  /** The timer fired, the host was not ready, and the save of "cancelled" reported an error. */
  function Lagging(): World {
    Waiting().(file := File(Some(Only(Cancelled)), {Some(Only(Accepted))}), timers := {}, up := Some(Agent(Only(Accepted), Name(), true, true)))
  }

  lemma StartFresh()
    ensures CanStep(FreshHost(), START) && Apply(FreshHost(), START) == Idle()
  {
    assert Recovered(Empty("d"), Boot()) == Empty("d") by { NothingToRecover(Empty("d"), Boot()); }
  }

  lemma AskFresh()
    ensures CanStep(Idle(), ASK) && Apply(Idle(), ASK) == Answered()
  {
    var w := Idle();
    assert Admits(w.up.value, ASK.q, SECOND, SECOND, Reason.Ready, false);
    assert Entered(w.up.value, Name(), SECOND) == Only(Accepted);
    assert |w.accepted| == 0;
  }

  lemma FlushFresh(w: World)
    requires w == Waiting().(clock := SECOND)
    ensures CanStep(Answered(), Flushed(Name())) && Apply(Answered(), Flushed(Name())) == w
    ensures CanStep(w, Tick(SECOND + GRACE)) && Apply(w, Tick(SECOND + GRACE)) == Waiting()
  {}

  lemma FireFresh()
    ensures CanStep(Waiting(), Fire(Name(), false, LeavesNew)) && Apply(Waiting(), Fire(Name(), false, LeavesNew)) == Lagging()
  {
    assert Marked(Only(Accepted), Name(), Cancelled) == Only(Cancelled);
  }

  lemma ClosesLagging()
    ensures CanStep(Lagging(), Close(Succeeds)) && Rewrites(Lagging(), Close(Succeeds), Name())
  {}

  lemma Before(w: World, s: Step, w1: World, steps: seq<Step>, w': World)
    requires CanStep(w, s) && Apply(w, s) == w1 && Run(w1, steps, w')
    ensures Run(w, [s] + steps, w')
  {
    assert ([s] + steps)[1..] == steps;
  }

  lemma {:induction false} FromAnswered() returns (steps: seq<Step>)
    ensures Run(Answered(), steps, Lagging())
  {
    var w, fire := Waiting().(clock := SECOND), Fire(Name(), false, LeavesNew);
    FlushFresh(w);
    FireFresh();
    Before(Waiting(), fire, Lagging(), [], Lagging());
    Before(w, Tick(SECOND + GRACE), Waiting(), [fire] + [], Lagging());
    steps := [Flushed(Name())] + ([Tick(SECOND + GRACE)] + ([fire] + []));
    Before(Answered(), Flushed(Name()), w, [Tick(SECOND + GRACE)] + ([fire] + []), Lagging());
  }

  lemma {:induction false} FromFresh() returns (steps: seq<Step>)
    ensures Run(FreshHost(), steps, Lagging())
  {
    steps := FromAnswered();
    StartFresh();
    AskFresh();
    Before(Idle(), ASK, Answered(), steps, Lagging());
    Before(FreshHost(), START, Idle(), [ASK] + steps, Lagging());
    steps := [START] + ([ASK] + steps);
  }

  /** A run from a fresh host after which a shutdown rewrites a finished record in the file. */
  lemma {:induction false} RewriteReachable() returns (steps: seq<Step>, w: World, s: Step)
    ensures Init(FreshHost()) && Run(FreshHost(), steps, w) && CanStep(w, s) && Rewrites(w, s, Name())
  {
    w, s := Lagging(), Close(Succeeds);
    ClosesLagging();
    steps := FromFresh();
  }
}
