/** Applying, confirming and rolling back the host's ingress policy
    (internal/hostbootstrap/platform_linux.go). Every command is a list of atomic steps, and may stop
    after any of them. */
module HostPolicy {
  import opened Results

  /** controlledFiles, in the source's order. */
  datatype Path = OwnedRules | Inventory | FirewallService | DockerDropIn | ContainerdDropIn | SshDropIn | SshSocketDropIn
                | SysctlDefaults | CoredumpPolicy | UpdatePolicy

  const CONTROLLED: seq<Path> := [OwnedRules, Inventory, FirewallService, DockerDropIn, ContainerdDropIn, SshDropIn,
                                  SshSocketDropIn, SysctlDefaults, CoredumpPolicy, UpdatePolicy]

  /** How long an apply waits for its confirmation: five minutes, in nanoseconds. */
  const CONFIRM_WINDOW: int := 300_000_000_000

  datatype File = Absent | Present(data: string, mode: nat)

  type Files = map<Path, File>

  ghost predicate Complete<V>(m: map<Path, V>) {
    forall p: Path :: p in m
  }

  /** The write-ahead record of an apply that is not confirmed yet. */
  datatype Pending = Pending(configHash: string, bootId: string, deadline: int, table: Option<string>, files: Files, enabled: bool,
                             expected: map<Path, string>, rulesHash: string)

  /** The controlled files, the owned nft table, whether the firewall unit is enabled, the pending
      record and the current boot. */
  datatype Host = Host(files: Files, table: Option<string>, enabled: bool, pending: Option<Pending>, boot: string)

  /** The texts and digests the commands use. */
  datatype Codec = Codec(render: string -> string, marshal: string -> string, decode: string -> Option<string>,
                         fixed: Path -> string, hash: string -> string)
  {
    /** Digests do not collide, and a stored configuration reads back as itself. */
    ghost predicate Valid() {
      && (forall a, b :: hash(a) == hash(b) ==> a == b) && (forall a :: hash(a) != "")
      && (forall c :: decode(marshal(c)) == Some(c))
    }
  }

  function CandidateText(k: Codec, c: string, p: Path): string {
    match p
    case OwnedRules => k.render(c)
    case Inventory => k.marshal(c)
    case _ => k.fixed(p)
  }

  function CandidateMode(p: Path): nat {
    if p.OwnedRules? || p.Inventory? then 0x180 else 0x1a4
  }

  function CandidateFile(k: Codec, c: string, p: Path): File {
    Present(CandidateText(k, c, p), CandidateMode(p))
  }

  function Digests(k: Codec, c: string): (m: map<Path, string>)
    ensures Complete(m)
  {
    map p: Path | true :: k.hash(CandidateText(k, c, p))
  }

  // ------------------------------------------------------------------ atomic steps

  datatype Act = Record(p: Pending) | Write(path: Path, file: File) | SetEnabled(on: bool) | SetTable(rules: Option<string>) | Clear

  function Do(h: Host, a: Act): Host {
    match a
    case Record(p) => h.(pending := Some(p))
    case Write(path, file) => h.(files := h.files[path := file])
    case SetEnabled(on) => h.(enabled := on)
    case SetTable(rules) => h.(table := rules)
    case Clear => h.(pending := None)
  }

  function DoAll(h: Host, acts: seq<Act>): Host
    decreases |acts|
  {
    if acts == [] then h else DoAll(Do(h, acts[0]), acts[1..])
  }

  lemma {:induction false} DoAppend(h: Host, a: seq<Act>, b: seq<Act>)
    ensures DoAll(h, a + b) == DoAll(DoAll(h, a), b)
    decreases |a|
  {
    if a == [] {
      assert a + b == b;
    } else {
      DoAppend(Do(h, a[0]), a[1..], b);
      assert (a + b)[1..] == a[1..] + b;
    }
  }

  lemma DoOne(h: Host, a: seq<Act>, act: Act)
    ensures DoAll(h, a + [act]) == Do(DoAll(h, a), act)
  {
    DoAppend(h, a, [act]);
    assert [act][1..] == [];
  }

  function Snapshot(h: Host, k: Codec, c: string, started: int): Pending {
    Pending(k.hash(k.marshal(c)), h.boot, started + CONFIRM_WINDOW, h.table, h.files, h.enabled, map[], "")
  }

  function Writes(order: seq<Path>, to: Path -> File): seq<Act> {
    seq(|order|, i requires 0 <= i < |order| => Write(order[i], to(order[i])))
  }

  /** applyHost's changes; order is the order in which its loop happens to visit the files. */
  function ApplyActs(h: Host, k: Codec, c: string, started: int, order: seq<Path>): seq<Act> {
    ChangeActs(Snapshot(h, k, c, started), k, c, order)
  }

  function ChangeActs(p: Pending, k: Codec, c: string, order: seq<Path>): seq<Act> {
    [Record(p)] + Writes(order, q => CandidateFile(k, c, q)) + FinalActs(p, k, c)
  }

  function FinalActs(p: Pending, k: Codec, c: string): seq<Act> {
    [SetEnabled(true), SetTable(Some(k.render(c))), Record(p.(expected := Digests(k, c), rulesHash := k.hash(k.render(c))))]
  }

  ghost function RestoreActs(p: Pending): seq<Act>
    requires Complete(p.files)
  {
    Writes(CONTROLLED, q requires q in p.files => p.files[q]) + [Clear]
  }

  /** rollbackLocked's changes. */
  ghost function RollbackActs(p: Pending): seq<Act>
    requires Complete(p.files)
  {
    (if p.enabled then [] else [SetEnabled(false)]) + [SetTable(p.table)] + RestoreActs(p)
  }

  function Cut<T>(acts: seq<T>, n: nat): seq<T> {
    if n <= |acts| then acts[..n] else acts
  }

  /** apply, stopped after the given number of changes; undo is how far the automatic rollback of a
      failed apply gets, if there is one. */
  ghost function Applied(h: Host, k: Codec, c: string, started: int, order: seq<Path>, steps: nat, undo: Option<nat>): Host
    requires Complete(h.files)
  {
    if h.pending.Some? then h
    else
      var acts := ApplyActs(h, k, c, started, order);
      var h1 := DoAll(h, Cut(acts, steps));
      if undo.Some? && 1 <= steps < |acts| then DoAll(h1, Cut(RollbackActs(Snapshot(h, k, c, started)), undo.value)) else h1
  }

  ghost function RolledBack(h: Host, steps: nat): Host {
    if h.pending.Some? && Complete(h.pending.value.files) then DoAll(h, Cut(RollbackActs(h.pending.value), steps)) else h
  }

  predicate SameFile(k: Codec, f: File, digest: string) {
    f.Present? && k.hash(f.data) == digest
  }

  /** Everything confirm demands before it commits. */
  ghost predicate Confirms(h: Host, k: Codec, c: string, now: int, session: bool) {
    && h.pending.Some? && session
    && var p := h.pending.value;
       && p.configHash == k.hash(k.marshal(c)) && p.bootId == h.boot && now < p.deadline
       && Inventory in h.files && h.files[Inventory].Present?
       && k.decode(h.files[Inventory].data).Some? && k.hash(k.marshal(k.decode(h.files[Inventory].data).value)) == p.configHash
       && h.table.Some? && p.rulesHash != "" && k.hash(h.table.value) == p.rulesHash
       && (forall q: Path :: q in p.expected && q in h.files && SameFile(k, h.files[q], p.expected[q]))
       && h.enabled
  }

  ghost function Confirmed(h: Host, k: Codec, c: string, now: int, session: bool): Host {
    if Confirms(h, k, c, now, session) then h.(pending := None) else h
  }

  predicate Loads(h: Host, k: Codec) {
    && h.pending.None? && Inventory in h.files && h.files[Inventory].Present? && OwnedRules in h.files
    && k.decode(h.files[Inventory].data).Some?
    && h.files[OwnedRules].Present? && h.files[OwnedRules].data == k.render(k.decode(h.files[Inventory].data).value)
  }

  /** LoadFirewall. */
  function Loaded(h: Host, k: Codec): Host {
    if Loads(h, k) then h.(table := Some(h.files[OwnedRules].data)) else h
  }

  function Rebooted(h: Host, boot: string): Host {
    h.(table := None, boot := boot)
  }

  /** Running a prefix of two lists of changes. */
  lemma DoCut(h: Host, a: seq<Act>, b: seq<Act>, n: nat)
    ensures DoAll(h, Cut(a + b, n)) == if n <= |a| then DoAll(h, Cut(a, n)) else DoAll(DoAll(h, a), Cut(b, n - |a|))
  {
    if n <= |a| {
      assert Cut(a + b, n) == Cut(a, n);
    } else {
      assert Cut(a + b, n) == a + Cut(b, n - |a|);
      DoAppend(h, a, Cut(b, n - |a|));
    }
  }

  /** A prefix that starts with one given change. */
  lemma DoFirst(h: Host, act: Act, b: seq<Act>, n: nat)
    ensures DoAll(h, Cut([act] + b, n)) == if n == 0 then h else DoAll(Do(h, act), Cut(b, n - 1))
  {
    DoCut(h, [act], b, n);
    assert Cut([act], 0) == [] && Cut([act], 1) == [act];
    assert DoAll(h, [act]) == Do(h, act) by { assert [act][1..] == []; }
  }

  lemma DoLast(h: Host, act: Act, n: nat)
    ensures DoAll(h, Cut([act], n)) == if n == 0 then h else Do(h, act)
  {
    DoFirst(h, act, [], n);
    assert [act] + [] == [act];
  }

  lemma Place(p: Path) returns (i: nat)
    ensures i < |CONTROLLED| && CONTROLLED[i] == p
  {
    match p
    case OwnedRules => i := 0;
    case Inventory => i := 1;
    case FirewallService => i := 2;
    case DockerDropIn => i := 3;
    case ContainerdDropIn => i := 4;
    case SshDropIn => i := 5;
    case SshSocketDropIn => i := 6;
    case SysctlDefaults => i := 7;
    case CoredumpPolicy => i := 8;
    case UpdatePolicy => i := 9;
  }

  lemma RollbackClears(h: Host, p: Pending, steps: nat)
    requires Complete(p.files) && |RollbackActs(p)| <= steps
    ensures DoAll(h, Cut(RollbackActs(p), steps)).pending.None?
  {
    var acts := RollbackActs(p);
    var k := |acts| - 1;
    assert acts[k] == Clear && acts == acts[..k] + [Clear] && Cut(acts, steps) == acts;
    DoOne(h, acts[..k], Clear);
  }

  // ------------------------------------------------------------------- the commands

  class Machine {
    var files: Files
    var table: Option<string>
    var enabled: bool
    var pendingFile: Option<Pending>
    var boot: string

    function View(): Host
      reads this
    {
      Host(files, table, enabled, pendingFile, boot)
    }

    constructor (h: Host)
      ensures View() == h
    {
      files, table, enabled, pendingFile, boot := h.files, h.table, h.enabled, h.pending, h.boot;
    }

    /** The file loop shared by apply and rollback: writes until the steps run out. */
    method WriteFiles(order: seq<Path>, to: Path -> File, steps: nat) returns (left: nat, done: bool)
      modifies this`files
      ensures View() == DoAll(old(View()), Cut(Writes(order, to), steps))
      ensures done == (|order| <= steps) && (done ==> left == steps - |order|)
    {
      left := steps;
      for i := 0 to |order|
        invariant i <= steps && left == steps - i
        invariant View() == DoAll(old(View()), Writes(order, to)[..i])
      {
        if left == 0 { return left, false; }
        DoOne(old(View()), Writes(order, to)[..i], Writes(order, to)[i]);
        assert Writes(order, to)[..i + 1] == Writes(order, to)[..i] + [Writes(order, to)[i]];
        files := files[order[i] := to(order[i])];
        left := left - 1;
      }
      assert Writes(order, to)[..|order|] == Writes(order, to);
      done := true;
    }

    /** rollbackLocked from its file loop on. */
    method RestoreFiles(p: Pending, steps: nat) returns (done: bool)
      requires Complete(p.files)
      modifies this
      ensures View() == DoAll(old(View()), Cut(RestoreActs(p), steps))
      ensures done == (|RestoreActs(p)| <= steps)
    {
      var to := (q: Path) requires q in p.files => p.files[q];
      DoCut(View(), Writes(CONTROLLED, to), [Clear], steps);
      var left;
      left, done := WriteFiles(CONTROLLED, to, steps);
      if !done { return; }
      assert Cut(Writes(CONTROLLED, to), steps) == Writes(CONTROLLED, to);
      DoLast(View(), Clear, left);
      if left == 0 { return false; }
      pendingFile := None;
    }

    method RollbackLocked(p: Pending, steps: nat) returns (done: bool)
      requires Complete(p.files)
      modifies this
      ensures View() == DoAll(old(View()), Cut(RollbackActs(p), steps))
      ensures done == (|RollbackActs(p)| <= steps)
    {
      var left := steps;
      if !p.enabled {
        assert RollbackActs(p) == [SetEnabled(false)] + ([SetTable(p.table)] + RestoreActs(p));
        DoFirst(View(), SetEnabled(false), [SetTable(p.table)] + RestoreActs(p), left);
        if left == 0 { return false; }
        enabled := false;
        left := left - 1;
      } else {
        assert RollbackActs(p) == [SetTable(p.table)] + RestoreActs(p);
      }
      DoFirst(View(), SetTable(p.table), RestoreActs(p), left);
      if left == 0 { return false; }
      table := p.table;
      done := RestoreFiles(p, left - 1);
    }

    method Rollback(steps: nat) returns (done: bool)
      modifies this
      ensures View() == RolledBack(old(View()), steps)
      ensures done ==> pendingFile.None?
    {
      if pendingFile.None? { return true; }
      var p := pendingFile.value;
      for i := 0 to |CONTROLLED|
        invariant forall j :: 0 <= j < i ==> CONTROLLED[j] in p.files
      {
        if CONTROLLED[i] !in p.files { return false; }
      }
      forall q: Path ensures q in p.files { var i := Place(q); }
      done := RollbackLocked(p, steps);
      if done { RollbackClears(old(View()), p, steps); }
    }

    method Apply(k: Codec, c: string, started: int, preflight: bool, order: seq<Path>, steps: nat, undo: Option<nat>)
      returns (ok: bool)
      requires Complete(files)
      modifies this
      ensures View() == if preflight then Applied(old(View()), k, c, started, order, steps, undo) else old(View())
      ensures ok <==> preflight && old(pendingFile).None? && |ApplyActs(old(View()), k, c, started, order)| <= steps
    {
      if pendingFile.Some? || !preflight { return false; }
      var p := Snapshot(View(), k, c, started);
      ok := Change(p, k, c, order, steps);
      if !ok && steps >= 1 && undo.Some? {
        var _ := RollbackLocked(p, undo.value);
      }
    }

    /** applyHost from the pending record on. */
    method Change(p: Pending, k: Codec, c: string, order: seq<Path>, steps: nat) returns (ok: bool)
      modifies this
      ensures View() == DoAll(old(View()), Cut(ChangeActs(p, k, c, order), steps))
      ensures ok == (|ChangeActs(p, k, c, order)| <= steps)
    {
      var to := (q: Path) => CandidateFile(k, c, q);
      ghost var rest := Writes(order, to) + FinalActs(p, k, c);
      assert ChangeActs(p, k, c, order) == [Record(p)] + rest;
      DoFirst(View(), Record(p), rest, steps);
      if steps == 0 { return false; }
      pendingFile := Some(p);
      var left := steps - 1;
      DoCut(View(), Writes(order, to), FinalActs(p, k, c), left);
      var done;
      ghost var n := left;
      left, done := WriteFiles(order, to, left);
      if !done { return false; }
      assert Cut(Writes(order, to), n) == Writes(order, to);
      ok := Finish(p, k, c, left);
    }

    /** applyHost's last three changes: the unit, the table and the completed record. */
    method Finish(p: Pending, k: Codec, c: string, steps: nat) returns (ok: bool)
      modifies this
      ensures View() == DoAll(old(View()), Cut(FinalActs(p, k, c), steps))
      ensures ok == (3 <= steps)
    {
      var p' := p.(expected := Digests(k, c), rulesHash := k.hash(k.render(c)));
      assert FinalActs(p, k, c) == [SetEnabled(true)] + [SetTable(Some(k.render(c))), Record(p')];
      DoFirst(View(), SetEnabled(true), [SetTable(Some(k.render(c))), Record(p')], steps);
      if steps == 0 { return false; }
      enabled := true;
      assert [SetTable(Some(k.render(c))), Record(p')] == [SetTable(Some(k.render(c)))] + [Record(p')];
      DoFirst(View(), SetTable(Some(k.render(c))), [Record(p')], steps - 1);
      if steps == 1 { return false; }
      table := Some(k.render(c));
      DoLast(View(), Record(p'), steps - 2);
      if steps == 2 { return false; }
      pendingFile := Some(p');
      ok := true;
    }

    method Confirm(k: Codec, c: string, now: int, session: bool) returns (ok: bool)
      requires Complete(files)
      modifies this`pendingFile
      ensures ok == Confirms(old(View()), k, c, now, session)
      ensures View() == Confirmed(old(View()), k, c, now, session)
      ensures ok ==> old(pendingFile).Some? && pendingFile.None? && session && enabled
      ensures ok ==> var p := old(pendingFile).value; now < p.deadline && p.bootId == boot && p.configHash == k.hash(k.marshal(c))
      ensures ok ==> var p := old(pendingFile).value; table.Some? && k.hash(table.value) == p.rulesHash
      ensures ok ==> forall q: Path :: files[q].Present? && q in old(pendingFile).value.expected
                                       && k.hash(files[q].data) == old(pendingFile).value.expected[q]
      ensures !ok ==> View() == old(View())
    {
      if pendingFile.None? { return false; }
      var p := pendingFile.value;
      if p.configHash != k.hash(k.marshal(c)) || p.bootId != boot || now >= p.deadline || !session { return false; }
      if files[Inventory].Absent? { return false; }
      var actual := k.decode(files[Inventory].data);
      if actual.None? || k.hash(k.marshal(actual.value)) != p.configHash { return false; }
      if table.None? || p.rulesHash == "" || k.hash(table.value) != p.rulesHash { return false; }
      for i := 0 to |CONTROLLED|
        invariant forall j :: 0 <= j < i ==> CONTROLLED[j] in p.expected && SameFile(k, files[CONTROLLED[j]], p.expected[CONTROLLED[j]])
      {
        var q := CONTROLLED[i];
        if q !in p.expected || !SameFile(k, files[q], p.expected[q]) { return false; }
      }
      forall q: Path ensures q in p.expected && SameFile(k, files[q], p.expected[q]) { var i := Place(q); }
      if !enabled { return false; }
      pendingFile := None;
      ok := true;
    }

    method LoadFirewall(k: Codec) returns (ok: bool)
      requires Complete(files)
      modifies this`table
      ensures ok == Loads(old(View()), k)
      ensures View() == Loaded(old(View()), k)
      ensures ok ==> pendingFile.None? && files[Inventory].Present? && k.decode(files[Inventory].data).Some?
      ensures ok ==> files[OwnedRules].Present? && table == Some(files[OwnedRules].data) == Some(k.render(k.decode(files[Inventory].data).value))
      ensures !ok ==> table == old(table)
    {
      if pendingFile.Some? || files[Inventory].Absent? { return false; }
      var c := k.decode(files[Inventory].data);
      if c.None? || files[OwnedRules].Absent? || files[OwnedRules].data != k.render(c.value) { return false; }
      table := Some(k.render(c.value));
      ok := true;
    }
  }
}
