/** The reboot agent's durable receipt ledger (internal/hostcontrol/store.go). */
module RebootLedger {
  import opened Results

  const SECOND: int := 1_000_000_000
  const GRACE: int := 30 * SECOND
  const COOLDOWN: int := 600 * SECOND
  const MAX_RECEIPTS: nat := 4096
  const PROTOCOL_VERSION: int := 1

  /** Unknown stands for every other text the state field of a stored receipt can hold. */
  datatype ReceiptState = Accepted | Executing | Failed | Cancelled | Abandoned | BootChanged | Unknown(text: string)

  predicate Active(s: ReceiptState) {
    s.Accepted? || s.Executing?
  }

  /** Times are nanoseconds since the zero time. */
  datatype Receipt = Receipt(id: string, state: ReceiptState, acceptedAt: int, rebootAt: int)

  datatype Saved = Saved(receipt: Receipt, bootId: string) {
    function To(s: ReceiptState): Saved {
      this.(receipt := receipt.(state := s))
    }
  }

  datatype Ledger = Ledger(version: int, deployment: string, lastId: string, records: map<string, Saved>)

  predicate Hex(c: char) {
    '0' <= c <= '9' || 'a' <= c <= 'f'
  }

  predicate ValidRequestID(id: string) {
    |id| == 32 && forall i :: 0 <= i < |id| ==> Hex(id[i])
  }

  predicate DashAt(i: int) {
    i == 8 || i == 13 || i == 18 || i == 23
  }

  predicate BootChar(s: string, i: nat)
    requires i < |s|
  {
    if DashAt(i) then s[i] == '-' else Hex(s[i])
  }

  predicate ValidBootID(s: string) {
    |s| == 36 && forall i :: 0 <= i < |s| ==> BootChar(s, i)
  }

  method CheckBootID(value: string) returns (ok: bool)
    ensures ok == ValidBootID(value)
  {
    if |value| != 36 { return false; }
    for i := 0 to |value|
      invariant forall j :: 0 <= j < i ==> BootChar(value, j)
    {
      if DashAt(i) {
        if value[i] != '-' {
          assert !BootChar(value, i);
          return false;
        }
      } else if !Hex(value[i]) {
        assert !BootChar(value, i);
        return false;
      }
    }
    ok := true;
  }

  predicate ValidRecord(id: string, r: Saved) {
    && ValidRequestID(id) && r.receipt.id == id && !r.receipt.state.Unknown? && ValidBootID(r.bootId)
    && r.receipt.acceptedAt != 0 && r.receipt.rebootAt == r.receipt.acceptedAt + GRACE
  }

  /** What load demands of a stored ledger before an agent may start on it. */
  ghost predicate Loadable(l: Ledger, deployment: string) {
    && l.version == PROTOCOL_VERSION && l.deployment == deployment && |l.records| <= MAX_RECEIPTS
    && (forall id :: id in l.records ==> ValidRecord(id, l.records[id]))
    && (if l.records == map[] then l.lastId == "" else l.lastId in l.records)
  }

  // ---------------------------------------------------------------------- the file

  datatype SaveOutcome = Succeeds | LeavesOld | LeavesNew

  /** The ledger file: what a reader sees, and the earlier contents a power failure may still bring
      back because the directory was not synced after the rename. */
  datatype File = File(seen: Option<Ledger>, stale: set<Option<Ledger>>) {
    function Write(l: Ledger, o: SaveOutcome): File {
      match o
      case Succeeds => File(Some(l), {})
      case LeavesOld => this
      case LeavesNew => File(Some(l), stale + {seen})
    }

    /** Every content an agent may find when it next starts. */
    ghost predicate Possible(d: Option<Ledger>) {
      d == seen || d in stale
    }
  }

  /** The store object; how a save ends is chosen by the file system, so each call is told. */
  class LedgerStore {
    var file: File

    constructor (f: File)
      ensures file == f
    {
      file := f;
    }

    method Save(l: Ledger, o: SaveOutcome) returns (ok: bool)
      modifies this
      ensures file == old(file).Write(l, o)
      ensures ok <==> o.Succeeds?
      ensures ok ==> forall d :: file.Possible(d) <==> d == Some(l)
      ensures !ok ==> file.Possible(old(file).seen) && forall d :: file.Possible(d) ==> d == Some(l) || old(file).Possible(d)
    {
      match o
      case Succeeds =>
        file := File(Some(l), {});
        ok := true;
      case LeavesOld =>
        ok := false;
      case LeavesNew =>
        file := File(Some(l), file.stale + {file.seen});
        ok := false;
    }

    /** load: an absent file is created when allowed, anything else must validate. */
    method Load(deployment: string, allowCreate: bool, o: SaveOutcome) returns (r: Result<Ledger, string>)
      modifies this
      ensures (r, file) == Opened(old(file), deployment, allowCreate, o)
      ensures old(file).seen.Some? ==> file == old(file) && (r.Ok? ==> r.value == file.seen.value)
      ensures r.Ok? ==> r.value.version == 1 && r.value.deployment == deployment && |r.value.records| <= 4096
      ensures r.Ok? ==> forall id :: id in r.value.records ==>
                var receipt := r.value.records[id].receipt;
                && ValidRequestID(id) && receipt.id == id && ValidBootID(r.value.records[id].bootId) && !receipt.state.Unknown?
                && receipt.acceptedAt != 0 && receipt.rebootAt == receipt.acceptedAt + 30_000_000_000
      ensures old(file).seen.None? && r.Ok? ==> allowCreate && r.value.records == map[] && file == File(Some(r.value), {})
    {
      if file.seen.None? {
        if !allowCreate { return Err("unavailable"); }
        var initial := Empty(deployment);
        var ok := Save(initial, o);
        return if ok then Ok(initial) else Err("unavailable");
      }
      var l := file.seen.value;
      if l.version != PROTOCOL_VERSION || l.deployment != deployment || |l.records| > MAX_RECEIPTS {
        return Err("invalid");
      }
      var left := l.records.Keys;
      while left != {}
        invariant left <= l.records.Keys
        invariant forall id :: id in l.records && id !in left ==> ValidRecord(id, l.records[id])
        decreases |left|
      {
        var id :| id in left;
        if !ValidRecord(id, l.records[id]) { return Err("invalid"); }
        left := left - {id};
      }
      if l.records != map[] {
        if l.lastId !in l.records { return Err("invalid"); }
      } else if l.lastId != "" {
        return Err("invalid");
      }
      r := Ok(l);
    }
  }

  function Empty(deployment: string): (l: Ledger)
    ensures Loadable(l, deployment)
  {
    Ledger(PROTOCOL_VERSION, deployment, "", map[])
  }

  ghost function Opened(f: File, deployment: string, allowCreate: bool, o: SaveOutcome): (p: (Result<Ledger, string>, File))
    ensures p.0.Ok? ==> Loadable(p.0.value, deployment) && p.1.seen == Some(p.0.value)
    ensures p.0.Err? && f.seen.Some? ==> p.1 == f
  {
    if f.seen.None? then
      if !allowCreate then (Err("unavailable"), f)
      else (if o.Succeeds? then Ok(Empty(deployment)) else Err("unavailable"), f.Write(Empty(deployment), o))
    else if Loadable(f.seen.value, deployment) then (Ok(f.seen.value), f)
    else (Err("invalid"), f)
  }
}
