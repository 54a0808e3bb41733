/** The connection-limiting listener and its saturation reports as an interleaving of atomic steps
    (internal/market/admission.go: limitListener, limitConn). */
module Listener {

  /** A report goroutine that holds notifyMu and has read full and gen. */
  datatype Reading = Reading(gen: nat, current: bool, latest: nat)

  /** One call of saturated, for the change it reports. */
  datatype Report = Report(gen: nat, value: bool)

  /** used is len(sem) of n slots. Accept calls are trying, then saturating and waiting when no slot was
      free, and holding once they have one; connections are open or closed; release calls are draining,
      then checking, then possibly lowering. spawned are the report goroutines still to run, locked the
      one that has notifyMu, reading the one that has read the state, and log what was reported. */
  datatype State = State(
    n: nat, used: nat,
    trying: set<int>, saturating: set<int>, waiting: set<int>, holding: set<int>,
    open: set<int>, closed: set<int>,
    draining: set<int>, checking: set<int>, lowering: set<int>,
    full: bool, gen: nat,
    spawned: set<nat>, locked: set<nat>, reading: set<Reading>, log: seq<Report>,
    done: bool)

  datatype Step =
    | Begin(id: int)
    | TryTake(id: int)
    | Saturate(id: int)
    | WaitTake(id: int)
    | WaitDone(id: int)
    | Accepted(id: int, conn: int)
    | AcceptFailed(id: int, release: int)
    | CloseConn(conn: int, release: int)
    | Drain(release: int)
    | Check(release: int)
    | Lower(release: int)
    | Lock(g: nat)
    | Read(g: nat)
    | Finish(r: Reading)
    | CloseListener

  predicate FreshAccept(s: State, id: int) {
    id !in s.trying && id !in s.saturating && id !in s.waiting && id !in s.holding
  }

  predicate FreshRelease(s: State, id: int) {
    id !in s.draining && id !in s.checking && id !in s.lowering
  }

  predicate Enabled(s: State, step: Step) {
    match step
    case Begin(id) => FreshAccept(s, id)
    case TryTake(id) => id in s.trying
    case Saturate(id) => id in s.saturating
    case WaitTake(id) => id in s.waiting && s.used < s.n
    case WaitDone(id) => id in s.waiting && s.done
    case Accepted(id, conn) => id in s.holding && conn !in s.open && conn !in s.closed
    case AcceptFailed(id, release) => id in s.holding && FreshRelease(s, release)
    case CloseConn(conn, release) => (conn in s.open || conn in s.closed) && FreshRelease(s, release)
    case Drain(release) => release in s.draining && s.used > 0
    case Check(release) => release in s.checking
    case Lower(release) => release in s.lowering
    case Lock(g) => g in s.spawned && s.locked == {} && s.reading == {}
    case Read(g) => g in s.locked
    case Finish(r) => r in s.reading
    case CloseListener => true
  }

  /** setFull's change, with the goroutine it starts. */
  function SetFull(s: State, full: bool): State {
    if s.full == full then s else s.(full := full, gen := s.gen + 1, spawned := s.spawned + {s.gen + 1})
  }

  function Next(s: State, step: Step): State
    requires Enabled(s, step)
  {
    match step
    case Begin(id) => s.(trying := s.trying + {id})
    case TryTake(id) =>
      if s.used < s.n then s.(trying := s.trying - {id}, used := s.used + 1, holding := s.holding + {id})
      else s.(trying := s.trying - {id}, saturating := s.saturating + {id})
    case Saturate(id) => SetFull(s.(saturating := s.saturating - {id}, waiting := s.waiting + {id}), true)
    case WaitTake(id) => s.(waiting := s.waiting - {id}, used := s.used + 1, holding := s.holding + {id})
    case WaitDone(id) => s.(waiting := s.waiting - {id})
    case Accepted(id, conn) => s.(holding := s.holding - {id}, open := s.open + {conn})
    case AcceptFailed(id, release) => s.(holding := s.holding - {id}, draining := s.draining + {release})
    case CloseConn(conn, release) =>
      if conn in s.open then s.(open := s.open - {conn}, closed := s.closed + {conn}, draining := s.draining + {release}) else s
    case Drain(release) => s.(draining := s.draining - {release}, checking := s.checking + {release}, used := s.used - 1)
    case Check(release) =>
      if s.used <= s.n * 3 / 4 then s.(checking := s.checking - {release}, lowering := s.lowering + {release})
      else s.(checking := s.checking - {release})
    case Lower(release) => SetFull(s.(lowering := s.lowering - {release}), false)
    case Lock(g) => s.(spawned := s.spawned - {g}, locked := s.locked + {g})
    case Read(g) => s.(locked := s.locked - {g}, reading := s.reading + {Reading(g, s.full, s.gen)})
    case Finish(r) =>
      var s' := s.(reading := s.reading - {r});
      if r.gen == r.latest then s'.(log := s.log + [Report(r.gen, r.current)]) else s'
    case CloseListener => s.(done := true)
  }

  // -------------------------------------------------------------------- the invariant

  /** Every occupied slot is an open connection, an accept in progress or a release about to give it
      back. */
  predicate SlotsOk(s: State) {
    s.used <= s.n && s.used == |s.open| + |s.holding| + |s.draining|
  }

  /** A call is in one phase at a time. */
  predicate PhasesOk(s: State) {
    && s.trying !! s.saturating !! s.waiting !! s.holding
    && s.draining !! s.checking !! s.lowering
    && s.open !! s.closed
  }

  /** full flips with every generation, from false. */
  predicate FlipsOk(s: State) {
    s.full == (s.gen % 2 == 1)
  }

  /** Whether g's goroutine has not finished yet. */
  ghost predicate Outstanding(s: State, g: nat) {
    g in s.spawned || g in s.locked || exists r :: r in s.reading && r.gen == g
  }

  predicate ReadingOk(s: State, r: Reading) {
    && 0 < r.gen <= r.latest <= s.gen && r.current == (r.latest % 2 == 1) && r.gen !in s.spawned && r.gen !in s.locked
    && (r.gen == r.latest ==> forall i :: 0 <= i < |s.log| ==> s.log[i].gen < r.gen)
  }

  ghost predicate ReportsOk(s: State) {
    && s.spawned !! s.locked
    && (forall g :: g in s.spawned || g in s.locked ==> 0 < g <= s.gen)
    && (forall r :: r in s.reading ==> ReadingOk(s, r))
    && |s.locked| + |s.reading| <= 1
  }

  /** Reports carry the value of their generation, generations only grow, and each is reported once. */
  ghost predicate LogOk(s: State) {
    && (forall i :: 0 <= i < |s.log| ==> 0 < s.log[i].gen <= s.gen && s.log[i].value == (s.log[i].gen % 2 == 1))
    && (forall i, j :: 0 <= i < j < |s.log| ==> s.log[i].gen < s.log[j].gen)
    && (forall i :: 0 <= i < |s.log| ==> s.log[i].gen !in s.spawned && s.log[i].gen !in s.locked)
  }

  /** The latest change has been reported, or its goroutine is still outstanding. */
  ghost predicate LatestOk(s: State) {
    s.gen > 0 ==> Outstanding(s, s.gen) || (s.log != [] && s.log[|s.log| - 1].gen == s.gen)
  }

  ghost predicate Inv(s: State) {
    SlotsOk(s) && PhasesOk(s) && FlipsOk(s) && ReportsOk(s) && LogOk(s) && LatestOk(s)
  }

  function Fresh(n: nat): State {
    State(n, 0, {}, {}, {}, {}, {}, {}, {}, {}, {}, false, 0, {}, {}, {}, [], false)
  }

  lemma FreshInv(n: nat)
    ensures Inv(Fresh(n))
  {}

  lemma PhaseStep(s: State, step: Step)
    requires PhasesOk(s) && Enabled(s, step)
    ensures PhasesOk(Next(s, step))
  {}

  lemma Grown(a: set<int>, x: int)
    requires x !in a
    ensures |a + {x}| == |a| + 1
  {}

  lemma Shrunk(a: set<int>, x: int)
    requires x in a
    ensures |a - {x}| == |a| - 1
  {}

  lemma TakeStep(s: State, step: Step)
    requires SlotsOk(s) && Enabled(s, step) && (step.TryTake? || step.WaitTake?) && step.id !in s.holding
    ensures SlotsOk(Next(s, step))
  {
    Grown(s.holding, step.id);
  }

  lemma HandOverStep(s: State, step: Step)
    requires SlotsOk(s) && Enabled(s, step) && (step.Accepted? || step.AcceptFailed?)
    ensures SlotsOk(Next(s, step))
  {
    Shrunk(s.holding, step.id);
    if step.Accepted? {
      Grown(s.open, step.conn);
    } else {
      Grown(s.draining, step.release);
    }
  }

  lemma GiveBackStep(s: State, step: Step)
    requires SlotsOk(s) && Enabled(s, step) && (step.CloseConn? || step.Drain?)
    ensures SlotsOk(Next(s, step))
  {
    if step.Drain? {
      Shrunk(s.draining, step.release);
    } else if step.conn in s.open {
      Shrunk(s.open, step.conn);
      Grown(s.draining, step.release);
    }
  }

  predicate MovesSlots(step: Step) {
    step.TryTake? || step.WaitTake? || step.Accepted? || step.AcceptFailed? || step.CloseConn? || step.Drain?
  }

  lemma StillStep(s: State, step: Step)
    requires SlotsOk(s) && Enabled(s, step) && !MovesSlots(step)
    ensures SlotsOk(Next(s, step))
  {}

  lemma SlotStep(s: State, step: Step)
    requires SlotsOk(s) && PhasesOk(s) && Enabled(s, step)
    ensures SlotsOk(Next(s, step))
  {
    if step.TryTake? || step.WaitTake? {
      TakeStep(s, step);
    } else if step.Accepted? || step.AcceptFailed? {
      HandOverStep(s, step);
    } else if step.CloseConn? || step.Drain? {
      GiveBackStep(s, step);
    } else {
      StillStep(s, step);
    }
  }

  lemma FlipStep(s: State, step: Step)
    requires FlipsOk(s) && Enabled(s, step)
    ensures FlipsOk(Next(s, step))
  {}

  lemma SetFullReports(s: State, full: bool)
    requires ReportsOk(s) && LogOk(s) && LatestOk(s)
    ensures ReportsOk(SetFull(s, full)) && LogOk(SetFull(s, full)) && LatestOk(SetFull(s, full))
  {
    var t := SetFull(s, full);
    if s.full != full { assert Outstanding(t, t.gen); }
  }

  lemma LockReports(s: State, g: nat)
    requires ReportsOk(s) && LogOk(s) && LatestOk(s) && Enabled(s, Lock(g))
    ensures ReportsOk(Next(s, Lock(g))) && LogOk(Next(s, Lock(g))) && LatestOk(Next(s, Lock(g)))
  {
    var t := Next(s, Lock(g));
    if s.gen > 0 && Outstanding(s, s.gen) { assert Outstanding(t, t.gen); }
  }

  lemma ReadReports(s: State, g: nat)
    requires FlipsOk(s) && ReportsOk(s) && LogOk(s) && LatestOk(s) && Enabled(s, Read(g))
    ensures ReportsOk(Next(s, Read(g))) && LogOk(Next(s, Read(g))) && LatestOk(Next(s, Read(g)))
  {
    var t, r := Next(s, Read(g)), Reading(g, s.full, s.gen);
    assert s.locked == {g} && s.reading == {} by {
      assert |s.locked - {g}| == |s.locked| - 1;
    }
    if s.gen > 0 && Outstanding(s, s.gen) {
      assert r in t.reading && (s.gen == g ==> r.gen == t.gen);
      assert Outstanding(t, t.gen);
    }
  }

  lemma FinishLog(s: State, r: Reading)
    requires FlipsOk(s) && ReportsOk(s) && LogOk(s) && Enabled(s, Finish(r))
    ensures LogOk(Next(s, Finish(r)))
  {
    assert ReadingOk(s, r);
  }

  lemma FinishReports(s: State, r: Reading)
    requires FlipsOk(s) && ReportsOk(s) && LogOk(s) && LatestOk(s) && Enabled(s, Finish(r))
    ensures ReportsOk(Next(s, Finish(r))) && LogOk(Next(s, Finish(r))) && LatestOk(Next(s, Finish(r)))
  {
    FinishLog(s, r);
    OnlyReading(s, r);
    FinishLatest(s, r);
  }

  lemma OnlyReading(s: State, r: Reading)
    requires ReportsOk(s) && r in s.reading
    ensures s.reading == {r}
  {
    assert |s.reading - {r}| == |s.reading| - 1;
  }

  lemma FinishLatest(s: State, r: Reading)
    requires ReportsOk(s) && LatestOk(s) && r in s.reading
    ensures LatestOk(Next(s, Finish(r)))
  {
    var t := Next(s, Finish(r));
    OnlyReading(s, r);
    assert ReadingOk(s, r);
    if s.gen > 0 && s.gen != r.gen && Outstanding(s, s.gen) { assert Outstanding(t, t.gen); }
  }

  /** Every step of every accept, close and report goroutine keeps the invariant. */
  lemma StepInv(s: State, step: Step)
    requires Inv(s) && Enabled(s, step)
    ensures Inv(Next(s, step))
  {
    SlotStep(s, step);
    PhaseStep(s, step);
    FlipStep(s, step);
    ReportStep(s, step);
  }

  lemma ReportStep(s: State, step: Step)
    requires FlipsOk(s) && ReportsOk(s) && LogOk(s) && LatestOk(s) && Enabled(s, step)
    ensures ReportsOk(Next(s, step)) && LogOk(Next(s, step)) && LatestOk(Next(s, step))
  {
    match step
    case Saturate(id) => FlagReports(s, s.(saturating := s.saturating - {id}, waiting := s.waiting + {id}), true);
    case Lower(release) => FlagReports(s, s.(lowering := s.lowering - {release}), false);
    case Lock(g) => LockReports(s, g);
    case Read(g) => ReadReports(s, g);
    case Finish(r) => FinishReports(s, r);
    case _ => ReportFrame(s, Next(s, step));
  }

  lemma FlagReports(s: State, t: State, full: bool)
    requires FlipsOk(s) && ReportsOk(s) && LogOk(s) && LatestOk(s)
    requires t == s.(saturating := t.saturating, waiting := t.waiting, lowering := t.lowering)
    ensures ReportsOk(SetFull(t, full)) && LogOk(SetFull(t, full)) && LatestOk(SetFull(t, full))
  {
    ReportFrame(s, t);
    SetFullReports(t, full);
  }

  lemma ReportFrame(s: State, t: State)
    requires ReportsOk(s) && LogOk(s) && LatestOk(s)
    requires t.gen == s.gen && t.spawned == s.spawned && t.locked == s.locked && t.reading == s.reading && t.log == s.log
    ensures ReportsOk(t) && LogOk(t) && LatestOk(t)
  {
    if s.gen > 0 && Outstanding(s, s.gen) { assert Outstanding(t, t.gen); }
  }

  // ---------------------------------------------------------------------- whole runs

  ghost predicate Run(s: State, steps: seq<Step>, s': State)
    decreases |steps|
  {
    if steps == [] then s == s' else Enabled(s, steps[0]) && Run(Next(s, steps[0]), steps[1..], s')
  }

  lemma {:induction false} RunInv(s: State, steps: seq<Step>, s': State)
    requires Inv(s) && Run(s, steps, s')
    ensures Inv(s')
    decreases |steps|
  {
    if steps != [] {
      StepInv(s, steps[0]);
      RunInv(Next(s, steps[0]), steps[1..], s');
    }
  }

  lemma {:induction false} RunCapacity(s: State, steps: seq<Step>, s': State)
    requires Run(s, steps, s')
    ensures s'.n == s.n
    decreases |steps|
  {
    if steps != [] { RunCapacity(Next(s, steps[0]), steps[1..], s'); }
  }

  /** At most n slots are ever occupied, by exactly the open connections, the accepts that hold one and
      the releases that have not given theirs back. */
  lemma {:induction false} SlotsAccounted(n: nat, steps: seq<Step>, s: State)
    requires Run(Fresh(n), steps, s)
    ensures s.used <= n && s.used == |s.open| + |s.holding| + |s.draining|
  {
    FreshInv(n);
    RunInv(Fresh(n), steps, s);
    RunCapacity(Fresh(n), steps, s);
  }

  /** Closing a connection again frees nothing. */
  lemma SecondCloseIsNothing(s: State, conn: int, release: int)
    requires Inv(s) && conn in s.closed && Enabled(s, CloseConn(conn, release))
    ensures Next(s, CloseConn(conn, release)) == s
  {}

  /** The value the callback was last called with; nothing reported means not full. */
  function LastReported(s: State): bool {
    if s.log == [] then false else s.log[|s.log| - 1].value
  }

  /** Reports never go back in generation, and when none is outstanding the last one told the truth. */
  lemma {:induction false} ReportsConverge(n: nat, steps: seq<Step>, s: State)
    requires Run(Fresh(n), steps, s)
    ensures forall i, j :: 0 <= i < j < |s.log| ==> s.log[i].gen < s.log[j].gen
    ensures s.spawned == {} && s.locked == {} && s.reading == {} ==> LastReported(s) == s.full
  {
    FreshInv(n);
    RunInv(Fresh(n), steps, s);
    if s.spawned == {} && s.locked == {} && s.reading == {} { assert !Outstanding(s, s.gen); }
  }

  /** What a release's check decides: at three quarters in use or fewer it goes on to clear the flag, and
      above that it ends with the flag untouched. */
  lemma CheckDecides(s: State, release: int)
    requires release in s.checking && s.draining !! s.checking !! s.lowering
    ensures var t := Next(s, Check(release));
            && t.full == s.full && t.used == s.used && release !in t.checking
            && (4 * s.used <= 3 * s.n ==> Enabled(t, Lower(release)) && !Next(t, Lower(release)).full)
            && (4 * s.used > 3 * s.n ==> !Enabled(t, Lower(release)) && t.lowering == s.lowering)
  {}

  // ------------------------------------------------------ a report that comes too late

  lemma {:induction false} RunOneMore(s: State, steps: seq<Step>, s': State, step: Step)
    requires Run(s, steps, s') && Enabled(s', step)
    ensures Run(s, steps + [step], Next(s', step))
    decreases |steps|
  {
    if steps == [] {
      assert (steps + [step])[1..] == [];
    } else {
      RunOneMore(Next(s, steps[0]), steps[1..], s', step);
      assert (steps + [step])[1..] == steps[1..] + [step];
    }
  }

  /** One slot: a connection was closed, and its release has just seen the slot free. */
  function Freed(): State {
    Fresh(1).(closed := {1}, lowering := {1})
  }

  lemma {:induction false} ReachFreed() returns (steps: seq<Step>)
    ensures Run(Fresh(1), steps, Freed())
  {
    var s, s1, s2, s3 := Fresh(1), Fresh(1).(trying := {1}), Fresh(1).(used := 1, holding := {1}), Fresh(1).(used := 1, open := {1});
    var s4, s5 := Fresh(1).(used := 1, closed := {1}, draining := {1}), Fresh(1).(closed := {1}, checking := {1});
    assert Next(s, Begin(1)) == s1 && Next(s1, TryTake(1)) == s2 && Next(s2, Accepted(1, 1)) == s3;
    assert Next(s3, CloseConn(1, 1)) == s4 && Next(s4, Drain(1)) == s5 && Next(s5, Check(1)) == Freed();
    steps := [Begin(1)];
    RunOneMore(s, [], s, Begin(1));
    assert [] + [Begin(1)] == [Begin(1)];
    RunOneMore(s, steps, s1, TryTake(1));
    steps := steps + [TryTake(1)];
    RunOneMore(s, steps, s2, Accepted(1, 1));
    steps := steps + [Accepted(1, 1)];
    RunOneMore(s, steps, s3, CloseConn(1, 1));
    steps := steps + [CloseConn(1, 1)];
    RunOneMore(s, steps, s4, Drain(1));
    steps := steps + [Drain(1)];
    RunOneMore(s, steps, s5, Check(1));
    steps := steps + [Check(1)];
  }

  /** The slot was taken again, and a second accept found none and waits. */
  function Refilled(): State {
    Freed().(used := 1, open := {2}, waiting := {3}, full := true, gen := 1, spawned := {1})
  }

  lemma {:induction false} ReachRefilled() returns (steps: seq<Step>)
    ensures Run(Fresh(1), steps, Refilled())
  {
    var s, s1, s2 := Freed(), Freed().(trying := {2}), Freed().(used := 1, holding := {2});
    var s3 := Freed().(used := 1, open := {2});
    var s4, s5 := s3.(trying := {3}), s3.(saturating := {3});
    assert Next(s, Begin(2)) == s1 && Next(s1, TryTake(2)) == s2 && Next(s2, Accepted(2, 2)) == s3;
    assert Next(s3, Begin(3)) == s4 && Next(s4, TryTake(3)) == s5 && Next(s5, Saturate(3)) == Refilled();
    steps := ReachFreed();
    RunOneMore(Fresh(1), steps, s, Begin(2));
    steps := steps + [Begin(2)];
    RunOneMore(Fresh(1), steps, s1, TryTake(2));
    steps := steps + [TryTake(2)];
    RunOneMore(Fresh(1), steps, s2, Accepted(2, 2));
    steps := steps + [Accepted(2, 2)];
    RunOneMore(Fresh(1), steps, s3, Begin(3));
    steps := steps + [Begin(3)];
    RunOneMore(Fresh(1), steps, s4, TryTake(3));
    steps := steps + [TryTake(3)];
    RunOneMore(Fresh(1), steps, s5, Saturate(3));
    steps := steps + [Saturate(3)];
  }

  /** A release that saw room may clear the flag after the slots filled up again: an accept then waits
      with every slot taken while the listener counts as not full. */
  lemma {:induction false} ClearedTooLate() returns (steps: seq<Step>, s: State)
    ensures Run(Fresh(1), steps, s) && s.used == s.n && s.waiting != {} && !s.full && s.gen == 2
  {
    steps := ReachRefilled();
    RunOneMore(Fresh(1), steps, Refilled(), Lower(1));
    steps, s := steps + [Lower(1)], Next(Refilled(), Lower(1));
    assert 3 in s.waiting;
  }

  /** More than three quarters are in use and accept id waits for a slot. */
  predicate Busy(s: State, id: int) {
    s.used > s.n * 3 / 4 && id in s.waiting
  }

  /** A run that stays busy from its first state to its last. */
  ghost predicate BusyRun(s: State, steps: seq<Step>, s': State, id: int)
    decreases |steps|
  {
    && Busy(s, id)
    && (if steps == [] then s == s' else Enabled(s, steps[0]) && BusyRun(Next(s, steps[0]), steps[1..], s', id))
  }

  /** With no release past its check, a busy listener's flag stays up: the next check that sees room
      ends the busy run. */
  lemma {:induction false} StaysFull(s: State, steps: seq<Step>, s': State, id: int)
    requires BusyRun(s, steps, s', id) && s.full && s.lowering == {}
    ensures s'.full && s'.lowering == {}
    decreases |steps|
  {
    if steps != [] {
      var t := Next(s, steps[0]);
      assert t.full && t.lowering == {};
      StaysFull(t, steps[1..], s', id);
    }
  }

  /** Whether the flag can be cleared without use falling to three quarters and with id still waiting. */
  ghost predicate MayClearWhileBusy(s: State, id: int) {
    exists steps, s' :: BusyRun(s, steps, s', id) && !s'.full
  }

  lemma LowerClears(s: State, id: int, release: int)
    requires Busy(s, id) && release in s.lowering
    ensures MayClearWhileBusy(s, id)
  {
    var steps, s' := [Lower(release)], Next(s, Lower(release));
    assert steps[1..] == [] && BusyRun(s', [], s', id);
    assert BusyRun(s, steps, s', id) && !s'.full;
  }

  /** While an accept waits and use stays above three quarters, the flag can be cleared exactly when some
      release is past its check already. */
  lemma {:induction false} ClearedWhileBusyExactly(s: State, id: int)
    requires s.full && Busy(s, id)
    ensures MayClearWhileBusy(s, id) <==> s.lowering != {}
  {
    if forall release :: release !in s.lowering {
      assert s.lowering == {};
      forall steps, s' | BusyRun(s, steps, s', id) ensures s'.full { StaysFull(s, steps, s', id); }
    } else {
      var release :| release in s.lowering;
      LowerClears(s, id, release);
    }
  }
}
