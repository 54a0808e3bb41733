/** Whole runs of the host policy commands, each possibly stopped at any step, with reboots and
    outside changes in between (internal/hostbootstrap/platform_linux.go). */
module HostRuns {
  import opened Results
  import opened HostPolicy

  // --------------------------------------------------- what a list of changes does

  lemma {:induction false} WritesGive(h: Host, order: seq<Path>, to: Path -> File, n: nat)
    requires n <= |order|
    ensures var r := DoAll(h, Writes(order, to)[..n]);
            && r == h.(files := r.files)
            && (forall q :: q in order[..n] ==> q in r.files && r.files[q] == to(q))
            && (forall q :: q in h.files ==> q in r.files)
            && (forall q :: q in r.files && q !in order[..n] ==> q in h.files && r.files[q] == h.files[q])
    decreases n
  {
    if n > 0 {
      WritesGive(h, order, to, n - 1);
      var acts := Writes(order, to);
      assert acts[..n] == acts[..n - 1] + [acts[n - 1]];
      DoOne(h, acts[..n - 1], acts[n - 1]);
      assert order[..n] == order[..n - 1] + [order[n - 1]];
    }
  }

  /** The changes that leave the pending record and the boot alone. */
  predicate Quiet(a: Act) {
    a.Write? || a.SetEnabled? || a.SetTable?
  }

  lemma {:induction false} QuietKeeps(h: Host, acts: seq<Act>)
    requires forall i :: 0 <= i < |acts| ==> Quiet(acts[i])
    ensures DoAll(h, acts).pending == h.pending && DoAll(h, acts).boot == h.boot
    ensures forall q :: q in h.files ==> q in DoAll(h, acts).files
    ensures h.enabled && SetEnabled(false) !in acts ==> DoAll(h, acts).enabled
    decreases |acts|
  {
    if acts != [] {
      var t := Do(h, acts[0]);
      QuietKeeps(t, acts[1..]);
      assert acts == [acts[0]] + acts[1..];
      assert forall q :: q in h.files ==> q in t.files;
      if h.enabled && SetEnabled(false) !in acts {
        assert acts[0] in acts && SetEnabled(false) !in acts[1..];
        assert t.enabled;
      }
    }
  }

  /** What a policy change can restore: the controlled files, the table and the unit. */
  datatype Policy = Policy(files: Files, table: Option<string>, enabled: bool)

  function PolicyOf(h: Host): Policy {
    Policy(h.files, h.table, h.enabled)
  }

  function Recorded(p: Pending): Policy {
    Policy(p.files, p.table, p.enabled)
  }

  /** A rollback that completes restores the recorded files and table from whatever state it starts in.
      It disables a unit that was disabled, and never enables one. */
  lemma {:induction false} RollbackRestores(h: Host, p: Pending)
    requires Complete(p.files)
    ensures var r := DoAll(h, RollbackActs(p));
            PolicyOf(r) == Recorded(p).(enabled := p.enabled && h.enabled) && r.pending.None? && r.boot == h.boot
  {
    var to := (q: Path) requires q in p.files => p.files[q];
    var first := (if p.enabled then [] else [SetEnabled(false)]) + [SetTable(p.table)];
    var writes := Writes(CONTROLLED, to);
    var h1 := DoAll(h, first);
    FirstActs(h, p);
    assert RollbackActs(p) == first + (writes + [Clear]);
    DoAppend(h, first, writes + [Clear]);
    DoOne(h1, writes, Clear);
    assert writes[..|CONTROLLED|] == writes;
    WritesGive(h1, CONTROLLED, to, |CONTROLLED|);
    AllRestored(p.files, DoAll(h1, writes).files);
  }

  lemma AllRestored(want: Files, got: Files)
    requires Complete(want) && forall q :: q in CONTROLLED[..|CONTROLLED|] ==> q in got && q in want && got[q] == want[q]
    ensures got == want
  {
    forall q: Path ensures q in got && got[q] == want[q] {
      var i := Place(q);
      assert q in CONTROLLED[..|CONTROLLED|];
    }
  }

  lemma FirstActs(h: Host, p: Pending)
    ensures DoAll(h, (if p.enabled then [] else [SetEnabled(false)]) + [SetTable(p.table)])
         == h.(table := p.table, enabled := p.enabled && h.enabled)
  {
    var a, b := SetEnabled(false), SetTable(p.table);
    if p.enabled {
      assert [] + [b] == [b] && [b][1..] == [];
    } else {
      DoOne(h, [a], b);
      DoOne(h, [], a);
      assert [] + [a] == [a];
    }
  }

  /** A rollback that stops early leaves the record, and never disables a unit that was enabled. */
  lemma {:induction false} RollbackStopped(h: Host, p: Pending, n: nat)
    requires Complete(p.files) && n < |RollbackActs(p)| && Complete(h.files)
    ensures var r := DoAll(h, Cut(RollbackActs(p), n));
            r.pending == h.pending && r.boot == h.boot && Complete(r.files) && (p.enabled && h.enabled ==> r.enabled)
  {
    var acts := RollbackActs(p);
    forall i | 0 <= i < |acts| - 1 ensures Quiet(acts[i]) && (p.enabled ==> acts[i] != SetEnabled(false)) {}
    QuietKeeps(h, acts[..n]);
  }

  /** An apply that stops after its first change has recorded the policy it found. */
  lemma {:induction false} ApplyStopped(h: Host, p: Pending, k: Codec, c: string, order: seq<Path>, n: nat)
    requires 1 <= n && Complete(h.files)
    ensures var r := DoAll(h, Cut(ChangeActs(p, k, c, order), n));
            && r.boot == h.boot && Complete(r.files) && (h.enabled ==> r.enabled)
            && r.pending == Some(if n < |ChangeActs(p, k, c, order)| then p else p.(expected := Digests(k, c), rulesHash := k.hash(k.render(c))))
  {
    var acts := ChangeActs(p, k, c, order);
    var last := |acts| - 1;
    var m := if n < last then n else last;
    assert acts == [Record(p)] + acts[1..];
    forall i | 1 <= i < last ensures Quiet(acts[i]) && acts[i] != SetEnabled(false) {}
    var h1 := Do(h, acts[0]);
    assert DoAll(h, acts[..m]) == DoAll(h1, acts[1..m]) by { assert acts[..m][1..] == acts[1..m]; }
    QuietKeeps(h1, acts[1..m]);
    var done := p.(expected := Digests(k, c), rulesHash := k.hash(k.render(c)));
    if n > last {
      DoOne(h, acts[..last], Record(done));
      assert acts[last] == Record(done) && acts == acts[..last] + [Record(done)] && Cut(acts, n) == acts;
    } else {
      assert Cut(acts, n) == acts[..m];
    }
  }

  /** The state after all of an apply's changes. */
  lemma {:induction false} ApplyGives(h: Host, k: Codec, c: string, started: int, order: seq<Path>)
    ensures var r, p := DoAll(h, ApplyActs(h, k, c, started, order)), Snapshot(h, k, c, started);
            && r == h.(files := r.files, enabled := true, table := Some(k.render(c)),
                       pending := Some(p.(expected := Digests(k, c), rulesHash := k.hash(k.render(c)))))
            && forall q :: q in order ==> q in r.files && r.files[q] == CandidateFile(k, c, q)
  {
    var p := Snapshot(h, k, c, started);
    var to := (q: Path) => CandidateFile(k, c, q);
    var writes, final := Writes(order, to), FinalActs(p, k, c);
    var h1 := Do(h, Record(p));
    assert ApplyActs(h, k, c, started, order) == [Record(p)] + writes + final;
    DoAppend(h, [Record(p)] + writes, final);
    DoAppend(h, [Record(p)], writes);
    assert DoAll(h, [Record(p)]) == h1 by { DoOne(h, [], Record(p)); assert [] + [Record(p)] == [Record(p)]; }
    assert writes[..|order|] == writes && order[..|order|] == order;
    WritesGive(h1, order, to, |order|);
    FinalGives(DoAll(h1, writes), p, k, c);
  }

  /** An apply that runs to its end leaves exactly what confirm accepts until the deadline. */
  lemma {:induction false} CompletedApplyConfirms(h: Host, k: Codec, c: string, started: int, order: seq<Path>, now: int)
    requires k.Valid() && Complete(h.files) && (forall q: Path :: q in order) && now < started + CONFIRM_WINDOW
    ensures Confirms(DoAll(h, ApplyActs(h, k, c, started, order)), k, c, now, true)
  {
    ApplyGives(h, k, c, started, order);
    var r := DoAll(h, ApplyActs(h, k, c, started, order));
    forall q: Path ensures q in Digests(k, c) && q in r.files && SameFile(k, r.files[q], Digests(k, c)[q]) {
      assert q in order;
    }
    assert Inventory in order;
  }

  /** An apply that runs to its end has written every controlled file with the candidate's text, readable
      by root alone for the rules and the inventory. */
  lemma {:induction false} CompletedApplyWrites(h: Host, k: Codec, c: string, started: int, order: seq<Path>, q: Path)
    requires q in order
    ensures var r := DoAll(h, ApplyActs(h, k, c, started, order));
            && q in r.files && r.files[q].Present? && r.files[q].data == CandidateText(k, c, q)
            && r.files[q].mode == (if q == OwnedRules || q == Inventory then 0x180 else 0x1a4)
            && r.enabled && r.table == Some(k.render(c))
  {
    ApplyGives(h, k, c, started, order);
  }

  lemma FinalGives(h: Host, p: Pending, k: Codec, c: string)
    ensures DoAll(h, FinalActs(p, k, c))
         == h.(enabled := true, table := Some(k.render(c)),
               pending := Some(p.(expected := Digests(k, c), rulesHash := k.hash(k.render(c)))))
  {
    var acts := FinalActs(p, k, c);
    assert acts == [] + [acts[0]] + [acts[1]] + [acts[2]];
    DoOne(h, [], acts[0]);
    DoOne(h, [] + [acts[0]], acts[1]);
    DoOne(h, [] + [acts[0]] + [acts[1]], acts[2]);
  }

  // -------------------------------------------------------------------- the runs

  datatype Command =
    | Apply(c: string, started: int, preflight: bool, order: seq<Path>, steps: nat, undo: Option<nat>)
    | Rollback(steps: nat)
    | Confirm(c: string, now: int, session: bool)
    | LoadFirewall
    | Reboot(boot: string)
    | Drift(files: Files, table: Option<string>, enabled: bool)

  /** settled is the policy in force when nothing was pending, candidate the last one applied, and
      committed the last one confirmed. */
  datatype World = World(host: Host, settled: Policy, candidate: string, committed: Option<string>)

  ghost predicate Allowed(w: World, cmd: Command) {
    && Complete(w.host.files)
    && (cmd.Drift? ==> w.host.pending.Some? && Complete(cmd.files))
  }

  /** A command that leaves host; when it ended a pending change, the unit is what it was left as. */
  function Undone(w: World, host: Host): World {
    w.(host := host, settled := if host.pending.None? then w.settled.(enabled := host.enabled) else w.settled)
  }

  ghost function Exec(w: World, k: Codec, cmd: Command): World
    requires Allowed(w, cmd)
  {
    var h := w.host;
    match cmd
    case Apply(c, started, preflight, order, steps, undo) =>
      if preflight && h.pending.None? then w.(host := Applied(h, k, c, started, order, steps, undo), candidate := c) else w
    case Rollback(steps) => Undone(w, RolledBack(h, steps))
    case Confirm(c, now, session) =>
      if Confirms(h, k, c, now, session)
      then w.(host := Confirmed(h, k, c, now, session), settled := PolicyOf(h), committed := Some(w.candidate))
      else w
    case LoadFirewall =>
      if Loads(h, k) then w.(host := Loaded(h, k), settled := w.settled.(table := Loaded(h, k).table)) else w
    case Reboot(boot) =>
      w.(host := Rebooted(h, boot), settled := if h.pending.None? then w.settled.(table := None) else w.settled)
    case Drift(files, table, enabled) => w.(host := h.(files := files, table := table, enabled := enabled))
  }

  /** The record holds the settled policy, and what confirm will compare is the candidate's. */
  ghost predicate RecordOk(w: World, k: Codec, p: Pending) {
    && Recorded(p) == w.settled && Complete(p.files)
    && p.configHash == k.hash(k.marshal(w.candidate))
    && (p.rulesHash != "" ==> p.expected == Digests(k, w.candidate) && p.rulesHash == k.hash(k.render(w.candidate)))
  }

  ghost predicate HasTexts(files: Files, k: Codec, c: string) {
    forall q: Path :: q in files && files[q].Present? && files[q].data == CandidateText(k, c, q)
  }

  ghost predicate Inv(w: World, k: Codec, initial: Files) {
    && Complete(w.host.files)
    && (w.host.pending.None? ==> PolicyOf(w.host) == w.settled)
    && (w.host.pending.Some? ==> RecordOk(w, k, w.host.pending.value))
    && (if w.committed.None? then w.settled.files == initial else HasTexts(w.settled.files, k, w.committed.value))
  }

  ghost predicate Init(w: World, initial: Files) {
    Complete(initial) && w.host.files == initial && w.host.pending.None? && w.settled == PolicyOf(w.host) && w.committed.None?
  }

  lemma ApplyInv(w: World, k: Codec, initial: Files, cmd: Command)
    requires Inv(w, k, initial) && cmd.Apply? && cmd.preflight && w.host.pending.None?
    ensures Inv(Exec(w, k, cmd), k, initial) && (w.host.enabled ==> Exec(w, k, cmd).host.enabled)
  {
    var h, p := w.host, Snapshot(w.host, k, cmd.c, cmd.started);
    var acts := ApplyActs(h, k, cmd.c, cmd.started, cmd.order);
    if cmd.steps == 0 {
      assert Cut(acts, 0) == [];
    } else {
      ApplyStopped(h, p, k, cmd.c, cmd.order, cmd.steps);
      if cmd.undo.Some? && cmd.steps < |acts| {
        UndoInv(w.(candidate := cmd.c, host := DoAll(h, Cut(acts, cmd.steps))), k, initial, p, cmd.undo.value);
      }
    }
  }

  /** An apply, undone or not, leaves an enabled unit enabled. */
  lemma ApplyKeepsUnit(w: World, k: Codec, initial: Files, cmd: Command)
    requires Inv(w, k, initial) && cmd.Apply? && w.host.pending.None? && w.host.enabled
    ensures Exec(w, k, cmd).host.enabled
  {
    if cmd.preflight { ApplyInv(w, k, initial, cmd); }
  }

  lemma UndoInv(w: World, k: Codec, initial: Files, p: Pending, n: nat)
    requires Inv(w, k, initial) && w.host.pending == Some(p)
    ensures var r := DoAll(w.host, Cut(RollbackActs(p), n));
            Inv(Undone(w, r), k, initial) && (p.enabled && w.host.enabled ==> r.enabled) && (r.pending.None? && !p.enabled ==> !r.enabled)
  {
    if n < |RollbackActs(p)| {
      RollbackStopped(w.host, p, n);
    } else {
      assert Cut(RollbackActs(p), n) == RollbackActs(p);
      RollbackRestores(w.host, p);
    }
  }

  /** A successful confirm finds every controlled file as the candidate wrote it, and its table. */
  lemma ConfirmFinds(w: World, k: Codec, initial: Files, c: string, now: int, session: bool)
    requires k.Valid() && Inv(w, k, initial) && Confirms(w.host, k, c, now, session)
    ensures HasTexts(w.host.files, k, w.candidate) && w.host.table == Some(k.render(w.candidate)) && w.host.enabled
    ensures k.marshal(c) == k.marshal(w.candidate)
  {
    var p := w.host.pending.value;
    forall q: Path ensures q in w.host.files && w.host.files[q].Present? && w.host.files[q].data == CandidateText(k, w.candidate, q) {
      assert SameFile(k, w.host.files[q], p.expected[q]);
    }
  }

  /** Every command, stopped anywhere, keeps the invariant. */
  lemma ExecInv(w: World, k: Codec, initial: Files, cmd: Command)
    requires k.Valid() && Inv(w, k, initial) && Allowed(w, cmd)
    ensures Inv(Exec(w, k, cmd), k, initial)
  {
    match cmd
    case Apply(_, _, preflight, _, _, _) =>
      if preflight && w.host.pending.None? { ApplyInv(w, k, initial, cmd); }
    case Rollback(steps) =>
      if w.host.pending.Some? { UndoInv(w, k, initial, w.host.pending.value, steps); }
    case Confirm(c, now, session) =>
      if Confirms(w.host, k, c, now, session) { ConfirmFinds(w, k, initial, c, now, session); }
    case _ =>
  }

  ghost predicate Run(w: World, k: Codec, cmds: seq<Command>, w': World)
    decreases |cmds|
  {
    if cmds == [] then w == w' else Allowed(w, cmds[0]) && Run(Exec(w, k, cmds[0]), k, cmds[1..], w')
  }

  lemma {:induction false} RunInv(w: World, k: Codec, initial: Files, cmds: seq<Command>, w': World)
    requires k.Valid() && Inv(w, k, initial) && Run(w, k, cmds, w')
    ensures Inv(w', k, initial)
    decreases |cmds|
  {
    if cmds != [] {
      ExecInv(w, k, initial, cmds[0]);
      RunInv(Exec(w, k, cmds[0]), k, initial, cmds[1..], w');
    }
  }

  /** Whenever nothing is pending, the controlled files are exactly the original ones, or all hold
      the texts of the last confirmed configuration. */
  lemma {:induction false} AllOldOrAllConfirmed(w: World, k: Codec, initial: Files, cmds: seq<Command>, w': World)
    requires k.Valid() && Init(w, initial) && Run(w, k, cmds, w') && w'.host.pending.None?
    ensures if w'.committed.None? then w'.host.files == initial else HasTexts(w'.host.files, k, w'.committed.value)
  {
    RunInv(w, k, initial, cmds, w');
  }

  /** A run during which the record stays: applies are refused, confirms fail, rollbacks stop early. */
  ghost predicate StaysPending(w: World, k: Codec, cmds: seq<Command>, w': World)
    decreases |cmds|
  {
    w.host.pending.Some? &&
    if cmds == [] then w == w' else Allowed(w, cmds[0]) && StaysPending(Exec(w, k, cmds[0]), k, cmds[1..], w')
  }

  lemma {:induction false} PendingKeepsSettled(w: World, k: Codec, initial: Files, cmds: seq<Command>, w': World)
    requires k.Valid() && Inv(w, k, initial) && StaysPending(w, k, cmds, w')
    ensures Inv(w', k, initial) && w'.settled == w.settled && w'.host.pending.Some?
    decreases |cmds|
  {
    if cmds != [] {
      ExecInv(w, k, initial, cmds[0]);
      PendingKeepsSettled(Exec(w, k, cmds[0]), k, initial, cmds[1..], w');
    }
  }

  lemma {:induction false} PendingIsKept(w: World, k: Codec, initial: Files, cmds: seq<Command>, w': World)
    requires k.Valid() && Inv(w, k, initial) && StaysPending(w, k, cmds, w')
    ensures Inv(w', k, initial) && w'.host.pending == w.host.pending
    decreases |cmds|
  {
    if cmds != [] {
      var w1 := Exec(w, k, cmds[0]);
      ExecInv(w, k, initial, cmds[0]);
      if cmds[0].Rollback? && cmds[0].steps < |RollbackActs(w.host.pending.value)| {
        RollbackStopped(w.host, w.host.pending.value, cmds[0].steps);
      } else if cmds[0].Rollback? {
        RollbackClears(w.host, w.host.pending.value, cmds[0].steps);
      }
      assert w1.host.pending == w.host.pending;
      PendingIsKept(w1, k, initial, cmds[1..], w');
    }
  }

  lemma {:induction false} ApplyRecords(w: World, k: Codec, initial: Files, apply: Command)
    requires Inv(w, k, initial) && w.host.pending.None? && apply.Apply? && Exec(w, k, apply).host.pending.Some?
    ensures var p := Exec(w, k, apply).host.pending.value; p.deadline == apply.started + 300_000_000_000 && p.bootId == w.host.boot
  {
    var h, p := w.host, Snapshot(w.host, k, apply.c, apply.started);
    var acts := ApplyActs(h, k, apply.c, apply.started, apply.order);
    if apply.steps > 0 {
      ApplyStopped(h, p, k, apply.c, apply.order, apply.steps);
      if apply.undo.Some? && apply.steps < |acts| {
        var h1 := DoAll(h, Cut(acts, apply.steps));
        if apply.undo.value < |RollbackActs(p)| {
          RollbackStopped(h1, p, apply.undo.value);
        } else {
          RollbackClears(h1, p, apply.undo.value);
        }
      }
    }
  }

  /** Whatever happens while an apply is pending, only two commands end it: a rollback, or a confirm in a
      fresh operator session, in the boot that applied, less than five minutes after the apply started. */
  lemma {:induction false} EndsOnlyInTime(w: World, k: Codec, initial: Files, apply: Command, cmds: seq<Command>, w': World, cmd: Command)
    requires k.Valid() && Inv(w, k, initial) && w.host.pending.None? && apply.Apply?
    requires StaysPending(Exec(w, k, apply), k, cmds, w') && Allowed(w', cmd) && Exec(w', k, cmd).host.pending.None?
    ensures cmd.Rollback? || (cmd.Confirm? && cmd.now < apply.started + 300_000_000_000 && w'.host.boot == w.host.boot && cmd.session)
  {
    ExecInv(w, k, initial, apply);
    ApplyRecords(w, k, initial, apply);
    PendingIsKept(Exec(w, k, apply), k, initial, cmds, w');
  }

  /** However an apply stops once its record is written, and whatever interrupted rollbacks, failed
      confirms, reboots and outside changes follow, one rollback that completes leaves the files and the
      table exactly as they were before the apply. The unit comes back too exactly when it was not
      enabled before or is still enabled when the rollback starts. */
  lemma {:induction false} RollbackUndoesApply(w: World, k: Codec, initial: Files, apply: Command, cmds: seq<Command>, w': World, steps: nat)
    requires k.Valid() && Inv(w, k, initial) && w.host.pending.None? && apply.Apply?
    requires StaysPending(Exec(w, k, apply), k, cmds, w') && steps >= |CONTROLLED| + 3
    ensures var r := RolledBack(w'.host, steps);
            && r.pending.None? && r.files == w.host.files && r.table == w.host.table
            && r.enabled == (w.host.enabled && w'.host.enabled)
            && (PolicyOf(r) == PolicyOf(w.host) <==> (w.host.enabled ==> w'.host.enabled))
  {
    ExecInv(w, k, initial, apply);
    PendingKeepsSettled(Exec(w, k, apply), k, initial, cmds, w');
    var p := w'.host.pending.value;
    assert Cut(RollbackActs(p), steps) == RollbackActs(p);
    RollbackRestores(w'.host, p);
  }

  /** No outside change disables the unit. */
  predicate LeavesUnit(cmds: seq<Command>) {
    forall i :: 0 <= i < |cmds| && cmds[i].Drift? ==> cmds[i].enabled
  }

  lemma {:induction false} PendingKeepsUnit(w: World, k: Codec, initial: Files, cmds: seq<Command>, w': World)
    requires k.Valid() && Inv(w, k, initial) && StaysPending(w, k, cmds, w') && LeavesUnit(cmds)
    requires w.settled.enabled && w.host.enabled
    ensures w'.host.enabled
    decreases |cmds|
  {
    if cmds != [] {
      var w1 := Exec(w, k, cmds[0]);
      ExecInv(w, k, initial, cmds[0]);
      if cmds[0].Rollback? { UndoInv(w, k, initial, w.host.pending.value, cmds[0].steps); }
      assert w1.host.enabled && w1.settled == w.settled;
      PendingKeepsUnit(w1, k, initial, cmds[1..], w');
    }
  }

  /** While nobody disables the unit by hand, the rollback restores files, table and unit. */
  lemma {:induction false} RollbackRestoresAll(w: World, k: Codec, initial: Files, apply: Command, cmds: seq<Command>, w': World, steps: nat)
    requires k.Valid() && Inv(w, k, initial) && w.host.pending.None? && apply.Apply?
    requires StaysPending(Exec(w, k, apply), k, cmds, w') && steps >= |CONTROLLED| + 3 && LeavesUnit(cmds)
    ensures PolicyOf(RolledBack(w'.host, steps)) == PolicyOf(w.host)
  {
    RollbackUndoesApply(w, k, initial, apply, cmds, w', steps);
    if w.host.enabled {
      ExecInv(w, k, initial, apply);
      ApplyKeepsUnit(w, k, initial, apply);
      PendingKeepsUnit(Exec(w, k, apply), k, initial, cmds, w');
    }
  }

  /** A unit enabled before the apply and disabled by hand while it is pending stays disabled. */
  lemma {:induction false} DisabledByHandStaysOff(w: World, k: Codec, initial: Files, c: string, started: int, order: seq<Path>, steps: nat)
    requires k.Valid() && Inv(w, k, initial) && w.host.pending.None? && w.host.enabled && steps >= |CONTROLLED| + 3
    ensures var w1 := Exec(w, k, Apply(c, started, true, order, 1, None));
            var off := Drift(w1.host.files, w1.host.table, false);
            Allowed(w1, off) && !Exec(Exec(w1, k, off), k, Rollback(steps)).host.enabled
  {
    var apply := Apply(c, started, true, order, 1, None);
    var w1 := Exec(w, k, apply);
    ExecInv(w, k, initial, apply);
    ApplyStopped(w.host, Snapshot(w.host, k, c, started), k, c, order, 1);
    var off := Drift(w1.host.files, w1.host.table, false);
    var w2 := Exec(w1, k, off);
    assert [off][1..] == [] && StaysPending(w2, k, [], w2);
    RollbackUndoesApply(w, k, initial, apply, [off], w2, steps);
  }

  /** After a reboot the confirmed policy's table is loaded again; a pending one is never loaded. */
  lemma LoadAfterReboot(w: World, k: Codec, initial: Files, boot: string)
    requires k.Valid() && Inv(w, k, initial)
    ensures w.host.pending.Some? ==> Loaded(Rebooted(w.host, boot), k).table.None?
    ensures w.host.pending.None? && w.committed.Some? ==> Loaded(Rebooted(w.host, boot), k).table == Some(k.render(w.committed.value))
  {
    if w.host.pending.None? && w.committed.Some? {
      assert HasTexts(w.host.files, k, w.committed.value);
      assert w.host.files[Inventory].data == CandidateText(k, w.committed.value, Inventory);
      assert w.host.files[OwnedRules].data == CandidateText(k, w.committed.value, OwnedRules);
    }
  }
}
