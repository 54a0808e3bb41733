/** Expiry of registered backups (scripts/backup-retention.py): validate every artifact, then delete
    exactly the expired ones that no active hold names. */
module Retention {
  import opened Results

  const DAY: int := 86400

  datatype Kind = PostgresqlDump | AuditExport | UnknownKind(text: string)

  function Period(k: Kind): int
    requires !k.UnknownKind?
  {
    if k.PostgresqlDump? then 30 * DAY else 180 * DAY
  }

  datatype Path = Path(dir: string, name: string)

  /** A .retention.json file's fields; files holds the basenames and digests of an audit pair. */
  datatype Metadata = Metadata(version: int, kind: Kind, sha: string, created: int, expires: int, files: Option<seq<(string, string)>>)

  /** What a file holds, as far as validation looks: bytes with their digest and whether they start
      with the age header, a readable metadata file, or anything else. */
  datatype Content = Bytes(digest: string, aged: bool) | Meta(m: Metadata) | Unreadable

  type Tree = map<Path, Content>

  // ----------------------------------------------------------------------- file names

  const DUMP: string := ".dump.age"
  const SIDECAR: string := ".retention.json"
  const DATA: string := ".jsonl"
  const SIG: string := ".sig"
  const ASC: string := ".asc"

  predicate EndsWith(s: string, suffix: string) {
    |suffix| <= |s| && s[|s| - |suffix|..] == suffix
  }

  /** The name up to its first dot, and the rest. */
  function Stem(s: string): (t: string)
    ensures t <= s && '.' !in t
    ensures |t| < |s| ==> s[|t|] == '.'
  {
    if s == "" || s[0] == '.' then "" else [s[0]] + Stem(s[1..])
  }

  function Tail(s: string): string {
    s[|Stem(s)|..]
  }

  predicate Digits(s: string) {
    s != "" && forall i :: 0 <= i < |s| ==> '0' <= s[i] <= '9'
  }

  predicate UpTo(s: string) {
    "upto-" <= s && Digits(s[5..])
  }

  /** The AUDIT_NAME pattern. */
  predicate AuditStem(s: string) {
    && "audit-events-" <= s
    && var r := s[13..];
       UpTo(r) || ("from-" <= r && exists k :: 5 < k < |r| && Digits(r[5..k]) && r[k] == '-' && UpTo(r[k + 1..]))
  }

  /** is_audit_file for one extension, with or without .asc. */
  predicate IsAudit(name: string, ext: string) {
    AuditStem(Stem(name)) && (Tail(name) == ext || Tail(name) == ext + ASC)
  }

  predicate IsDump(name: string) {
    EndsWith(name, DUMP)
  }

  /** The name with one extension of an audit file put in place of the other. */
  function Renamed(name: string, from: string, to: string): string
    requires |from| <= |Tail(name)|
  {
    Stem(name) + to + Tail(name)[|from|..]
  }

  function SignatureOf(p: Path): Path
    requires IsAudit(p.name, DATA)
  {
    Path(p.dir, Renamed(p.name, DATA, SIG))
  }

  function SidecarOf(p: Path): Path {
    Path(p.dir, p.name + SIDECAR)
  }

  predicate IsPrimary(p: Path) {
    IsDump(p.name) || IsAudit(p.name, DATA)
  }

  /** The files of an artifact besides its sidecar. */
  function FilesOf(p: Path): set<Path> {
    if IsDump(p.name) then {p} else if IsAudit(p.name, DATA) then {p, SignatureOf(p)} else {}
  }

  // ------------------------------------------------------------------- names are apart

  lemma {:induction false} StemOf(a: string, b: string)
    requires '.' !in a && (b == "" || b[0] == '.')
    ensures Stem(a + b) == a
    decreases |a|
  {
    if a == "" {
      assert a + b == b;
    } else {
      StemOf(a[1..], b);
      assert (a + b)[1..] == a[1..] + b;
      assert a == [a[0]] + a[1..];
    }
  }

  lemma TailOf(a: string, b: string)
    requires '.' !in a && (b == "" || b[0] == '.')
    ensures Tail(a + b) == b
  {
    StemOf(a, b);
    assert (a + b)[|a|..] == b;
  }

  lemma Whole(s: string)
    ensures s == Stem(s) + Tail(s)
  {}

  lemma RenamedTail(name: string, from: string, to: string)
    requires from <= Tail(name) && to != "" && to[0] == '.'
    ensures Stem(Renamed(name, from, to)) == Stem(name) && Tail(Renamed(name, from, to)) == to + Tail(name)[|from|..]
  {
    StemOf(Stem(name), to + Tail(name)[|from|..]);
    TailOf(Stem(name), to + Tail(name)[|from|..]);
    assert Stem(name) + to + Tail(name)[|from|..] == Stem(name) + (to + Tail(name)[|from|..]);
  }

  lemma Last(s: string, suffix: string)
    requires EndsWith(s, suffix) && suffix != ""
    ensures s[|s| - 1] == suffix[|suffix| - 1]
  {
    assert s[|s| - |suffix|..][|suffix| - 1] == s[|s| - 1];
  }

  lemma AuditLast(name: string, ext: string)
    requires IsAudit(name, ext) && ext != ""
    ensures name != "" && (name[|name| - 1] == ext[|ext| - 1] || name[|name| - 1] == 'c')
  {
    Whole(name);
    var t := Tail(name);
    assert name[|name| - 1] == t[|t| - 1];
  }

  /** An audit data file is no dump and no signature, and neither is its signature. */
  lemma DataIsApart(name: string)
    requires IsAudit(name, DATA)
    ensures !IsDump(name) && !IsAudit(name, SIG)
  {
    AuditLast(name, DATA);
    if IsDump(name) { Last(name, DUMP); }
    var t := Tail(name);
    assert t[1] == 'j';
    assert SIG[1] == 's' && (SIG + ASC)[1] == 's';
  }

  lemma SignatureName(p: Path)
    requires IsAudit(p.name, DATA)
    ensures var n := SignatureOf(p).name;
            Stem(n) == Stem(p.name) && Tail(n) == SIG + Tail(p.name)[6..] && IsAudit(n, SIG)
  {
    assert DATA <= Tail(p.name);
    RenamedTail(p.name, DATA, SIG);
    assert Tail(p.name)[6..] == "" || Tail(p.name)[6..] == ASC;
    assert SIG + "" == SIG;
  }

  lemma SidecarIsApart(p: Path)
    ensures !IsPrimary(SidecarOf(p)) && !IsAudit(SidecarOf(p).name, SIG)
  {
    var n := SidecarOf(p).name;
    assert n[|n| - 1] == 'n';
    if IsDump(n) { Last(n, DUMP); }
    if IsAudit(n, DATA) { AuditLast(n, DATA); }
    if IsAudit(n, SIG) { AuditLast(n, SIG); }
  }

  lemma SidecarInjective(p: Path, q: Path)
    requires SidecarOf(p) == SidecarOf(q)
    ensures p == q
  {
    assert p.name == SidecarOf(p).name[..|SidecarOf(p).name| - 15];
    assert q.name == SidecarOf(q).name[..|SidecarOf(q).name| - 15];
  }

  lemma SignatureInjective(p: Path, q: Path)
    requires IsAudit(p.name, DATA) && IsAudit(q.name, DATA) && SignatureOf(p) == SignatureOf(q)
    ensures p == q
  {
    SignatureName(p);
    SignatureName(q);
    assert Tail(p.name)[6..] == (SIG + Tail(p.name)[6..])[4..] == Tail(q.name)[6..];
    assert Tail(p.name) == DATA + Tail(p.name)[6..] && Tail(q.name) == DATA + Tail(q.name)[6..];
    Whole(p.name);
    Whole(q.name);
  }

  /** A file of an artifact is its primary, or the signature of an audit export. */
  lemma MemberKind(p: Path, x: Path)
    requires IsPrimary(p) && x in FilesOf(p)
    ensures (x == p && !IsAudit(x.name, SIG)) || (IsAudit(p.name, DATA) && x == SignatureOf(p) && IsAudit(x.name, SIG))
  {
    if IsAudit(p.name, DATA) {
      DataIsApart(p.name);
      SignatureName(p);
    } else {
      DumpIsApart(p.name);
    }
  }

  lemma DumpIsApart(name: string)
    requires IsDump(name)
    ensures !IsAudit(name, SIG) && !IsAudit(name, DATA)
  {
    Last(name, DUMP);
    if IsAudit(name, SIG) { AuditLast(name, SIG); }
    if IsAudit(name, DATA) { AuditLast(name, DATA); }
  }

  /** Different artifacts never share a file. */
  lemma {:induction false} PairsNeverShare(p: Path, q: Path, x: Path)
    requires IsPrimary(p) && IsPrimary(q) && x in FilesOf(p) && x in FilesOf(q)
    ensures p == q
  {
    MemberKind(p, x);
    MemberKind(q, x);
    if x != p { SignatureInjective(p, q); }
  }

  /** A sidecar is never an artifact's file. */
  lemma {:induction false} SidecarsStandApart(p: Path, q: Path)
    requires IsPrimary(q)
    ensures SidecarOf(p) !in FilesOf(q)
  {
    SidecarIsApart(p);
    if SidecarOf(p) in FilesOf(q) { MemberKind(q, SidecarOf(p)); }
  }

  // ------------------------------------------------------------------------ validation

  datatype Hold = Hold(kind: Kind, path: Path, sha: string, created: int, expires: int, started: int, reviewed: int, nextReview: int,
                       released: Option<int>)

  /** valid_digest. */
  predicate ValidDigest(s: string) {
    |s| == 64 && forall i :: 0 <= i < |s| ==> '0' <= s[i] <= '9' || 'a' <= s[i] <= 'f'
  }

  predicate HoldOk(h: Hold, now: int) {
    && ValidDigest(h.sha) && !h.kind.UnknownKind? && h.started <= h.reviewed <= now && h.reviewed < h.nextReview <= h.reviewed + 30 * DAY
    && h.created <= now && h.expires == h.created + Period(h.kind)
    && (h.released.Some? ==> h.started <= h.released.value <= now)
  }

  predicate ValidHolds(holds: seq<Hold>, now: int) {
    forall i :: 0 <= i < |holds| ==> HoldOk(holds[i], now)
  }

  predicate ActiveHold(holds: seq<Hold>, h: Hold) {
    h in holds && h.released.None?
  }

  /** The digest of an audit pair: the digest of its two digests, as the export signed them. */
  type PairDigest = (string, string) -> string

  predicate MetadataAt(t: Tree, p: Path) {
    SidecarOf(p) in t && t[SidecarOf(p)].Meta?
  }

  function MetadataOf(t: Tree, p: Path): Metadata
    requires MetadataAt(t, p)
  {
    t[SidecarOf(p)].m
  }

  predicate HasDigest(t: Tree, p: Path, digest: string) {
    p in t && t[p].Bytes? && t[p].digest == digest
  }

  /** artifact_metadata: the sidecar is well formed and describes the files that are there. */
  predicate ArtifactOk(t: Tree, p: Path, now: int, pair: PairDigest) {
    && MetadataAt(t, p)
    && var m := MetadataOf(t, p);
       && m.version == 1 && ValidDigest(m.sha) && !m.kind.UnknownKind? && m.created <= now && m.expires == m.created + Period(m.kind)
       && if m.kind.PostgresqlDump? then
            IsDump(p.name) && m.files.None? && HasDigest(t, p, m.sha) && t[p].aged
          else
            && IsAudit(p.name, DATA) && m.files.Some? && |m.files.value| == 2
            && var a := m.files.value[0];
               var b := m.files.value[1];
               && a.0 == p.name && b.0 == SignatureOf(p).name && HasDigest(t, p, a.1) && HasDigest(t, SignatureOf(p), b.1)
               && pair(a.1, b.1) == m.sha
  }

  /** The artifacts that the walk of the managed directories finds, by their data or signature. */
  function Primaries(t: Tree): set<Path> {
    (set p | p in t && IsPrimary(p)) + (set p | p in t && !IsDump(p.name) && IsAudit(p.name, SIG) :: DataOf(p))
  }

  function DataOf(p: Path): Path {
    if IsAudit(p.name, SIG) then Path(p.dir, Renamed(p.name, SIG, DATA)) else p
  }

  /** The archive and audit files that are there. */
  function Actual(t: Tree): set<Path> {
    set p | p in t && (IsPrimary(p) || IsAudit(p.name, SIG))
  }

  function Sidecars(t: Tree): set<Path> {
    set p | p in t && EndsWith(p.name, SIDECAR) && IsPrimary(Path(p.dir, p.name[..|p.name| - |SIDECAR|]))
  }

  function SidecarsOf(ps: set<Path>): set<Path> {
    set p | p in ps :: SidecarOf(p)
  }

  ghost function AllFiles(ps: set<Path>): set<Path> {
    set p, x | p in ps && x in FilesOf(p) :: x
  }

  /** What an active hold says about the artifact at its path. */
  predicate HoldAgrees(h: Hold, p: Path, m: Metadata) {
    h.path == p ==> h.kind == m.kind && h.sha == m.sha && h.created == m.created && h.expires == m.expires
  }

  predicate HoldsAgree(holds: seq<Hold>, p: Path, m: Metadata) {
    forall i :: 0 <= i < |holds| && holds[i].released.None? ==> HoldAgrees(holds[i], p, m)
  }

  /** Copies of one artifact carry the same clocks. */
  predicate SameClocks(m: Metadata, n: Metadata) {
    m.kind == n.kind && m.sha == n.sha ==> m.created == n.created && m.expires == n.expires
  }

  predicate OneOk(t: Tree, holds: seq<Hold>, now: int, pair: PairDigest, p: Path) {
    ArtifactOk(t, p, now, pair) && HoldsAgree(holds, p, MetadataOf(t, p))
  }

  /** The metadata found for an artifact, if any. */
  type Lookup = Path -> Option<Metadata>

  function LookupIn(t: Tree): Lookup {
    p => if MetadataAt(t, p) then Some(MetadataOf(t, p)) else None
  }

  ghost predicate ClocksAgree(meta: Lookup, ps: set<Path>) {
    forall p, q :: p in ps && q in ps && meta(p).Some? && meta(q).Some? ==> SameClocks(meta(p).value, meta(q).value)
  }

  ghost predicate ArtifactsOk(t: Tree, holds: seq<Hold>, now: int, pair: PairDigest, ps: set<Path>) {
    (forall p :: p in ps ==> OneOk(t, holds, now, pair, p)) && ClocksAgree(LookupIn(t), ps)
  }

  /** Signatures and sidecars. */
  function Secondaries(t: Tree): set<Path> {
    (Actual(t) + Sidecars(t)) - Primaries(t)
  }

  /** An active hold must not name a signature or a sidecar. */
  predicate NamesPrimary(secondaries: set<Path>, h: Hold) {
    h.released.None? ==> h.path !in secondaries
  }

  /** Everything scan checks before anything may be deleted. */
  ghost predicate ScanOk(t: Tree, holds: seq<Hold>, now: int, pair: PairDigest) {
    && ValidHolds(holds, now)
    && Sidecars(t) == SidecarsOf(Primaries(t))
    && (forall i :: 0 <= i < |holds| ==> NamesPrimary(Secondaries(t), holds[i]))
    && ArtifactsOk(t, holds, now, pair, Primaries(t))
    && Actual(t) == AllFiles(Primaries(t))
  }

  datatype Status = Retained | Held | HeldOverdueReview | Expired

  ghost predicate HeldBy(h: Hold, p: Path, m: Metadata) {
    h.released.None? && h.path == p && h.kind == m.kind && h.sha == m.sha
  }

  ghost predicate IsHeld(holds: seq<Hold>, p: Path, m: Metadata) {
    exists i :: 0 <= i < |holds| && HeldBy(holds[i], p, m)
  }

  ghost predicate IsOverdue(holds: seq<Hold>, p: Path, m: Metadata, now: int) {
    exists i :: 0 <= i < |holds| && HeldBy(holds[i], p, m) && holds[i].nextReview <= now
  }

  ghost function StatusOf(holds: seq<Hold>, p: Path, m: Metadata, now: int): Status {
    if IsOverdue(holds, p, m, now) then HeldOverdueReview
    else if IsHeld(holds, p, m) then Held
    else if m.expires <= now then Expired
    else Retained
  }

  /** Every file of the given artifacts, with their sidecars. */
  ghost function Footprint(ps: set<Path>): set<Path> {
    AllFiles(ps) + SidecarsOf(ps)
  }

  // ------------------------------------------------------------------ the source's loops

  method ReadStatus(holds: seq<Hold>, p: Path, m: Metadata, now: int) returns (s: Status)
    ensures s == StatusOf(holds, p, m, now)
    ensures s == Expired <==> m.expires <= now && !IsHeld(holds, p, m)
    ensures s == Retained <==> now < m.expires && !IsHeld(holds, p, m)
    ensures s == HeldOverdueReview <==> exists i :: 0 <= i < |holds| && HeldBy(holds[i], p, m) && holds[i].nextReview <= now
  {
    var held, overdue := false, false;
    for i := 0 to |holds|
      invariant held <==> exists j :: 0 <= j < i && HeldBy(holds[j], p, m)
      invariant overdue <==> exists j :: 0 <= j < i && HeldBy(holds[j], p, m) && holds[j].nextReview <= now
    {
      var h := holds[i];
      if h.released.None? && h.path == p && h.kind == m.kind && h.sha == m.sha {
        held := true;
        if h.nextReview <= now { overdue := true; }
      }
    }
    if overdue { return HeldOverdueReview; }
    if held { return Held; }
    if m.expires <= now { return Expired; }
    s := Retained;
  }

  type Clocks = map<(Kind, string), (int, int)>

  /** The table holds exactly the clocks of the artifacts seen. */
  ghost predicate Covers(meta: Lookup, ps: set<Path>, clocks: Clocks) {
    && (forall p :: p in ps ==> meta(p).Some? && KeyOf(meta(p).value) in clocks && clocks[KeyOf(meta(p).value)] == ClocksOf(meta(p).value))
    && (forall k :: k in clocks ==> exists p :: p in ps && meta(p).Some? && KeyOf(meta(p).value) == k)
  }

  lemma ExtendClocks(meta: Lookup, done: set<Path>, p: Path, clocks: Clocks)
    requires Covers(meta, done, clocks) && ClocksAgree(meta, done) && meta(p).Some?
    requires KeyOf(meta(p).value) in clocks ==> clocks[KeyOf(meta(p).value)] == ClocksOf(meta(p).value)
    ensures ClocksAgree(meta, done + {p}) && Covers(meta, done + {p}, clocks[KeyOf(meta(p).value) := ClocksOf(meta(p).value)])
  {
    var m := meta(p).value;
    var more := clocks[KeyOf(m) := ClocksOf(m)];
    forall k | k in more ensures exists q :: q in done + {p} && meta(q).Some? && KeyOf(meta(q).value) == k {
      if k == KeyOf(m) {
        assert p in done + {p};
      } else {
        var q :| q in done && meta(q).Some? && KeyOf(meta(q).value) == k;
        assert q in done + {p};
      }
    }
  }

  lemma ClockConflict(meta: Lookup, done: set<Path>, p: Path, clocks: Clocks, ps: set<Path>)
    requires Covers(meta, done, clocks) && meta(p).Some? && p in ps && done <= ps
    requires KeyOf(meta(p).value) in clocks && clocks[KeyOf(meta(p).value)] != ClocksOf(meta(p).value)
    ensures !ClocksAgree(meta, ps)
  {
    var q :| q in done && meta(q).Some? && KeyOf(meta(q).value) == KeyOf(meta(p).value);
    assert !SameClocks(meta(p).value, meta(q).value);
  }

  /** scan's loop over the artifacts, with its table of clocks by digest; check is the validation of
      one artifact. */
  method CheckArtifacts(meta: Lookup, check: Path -> bool, ps: set<Path>) returns (ok: bool)
    requires forall p :: check(p) ==> meta(p).Some?
    ensures ok == ((forall p :: p in ps ==> check(p)) && ClocksAgree(meta, ps))
  {
    var clocks: Clocks := map[];
    var left := ps;
    while left != {}
      invariant left <= ps
      invariant forall p :: p in ps - left ==> check(p)
      invariant Covers(meta, ps - left, clocks) && ClocksAgree(meta, ps - left)
      decreases |left|
    {
      var p :| p in left;
      if !check(p) { return false; }
      var m := meta(p).value;
      if KeyOf(m) in clocks && clocks[KeyOf(m)] != ClocksOf(m) {
        ClockConflict(meta, ps - left, p, clocks, ps);
        return false;
      }
      ExtendClocks(meta, ps - left, p, clocks);
      OneMore(ps, left, p);
      clocks := clocks[KeyOf(m) := ClocksOf(m)];
      left := left - {p};
    }
    assert ps - left == ps;
    ok := true;
  }

  lemma OneMore<T>(ps: set<T>, left: set<T>, p: T)
    requires p in left && left <= ps
    ensures ps - (left - {p}) == (ps - left) + {p}
  {}

  function KeyOf(m: Metadata): (Kind, string) {
    (m.kind, m.sha)
  }

  function ClocksOf(m: Metadata): (int, int) {
    (m.created, m.expires)
  }

  method CollectFiles(ps: set<Path>) returns (files: set<Path>)
    ensures files == AllFiles(ps)
  {
    files := {};
    var left := ps;
    ghost var done := {};
    while left != {}
      invariant done + left == ps && done !! left
      invariant files == AllFiles(done)
      decreases |left|
    {
      var p :| p in left;
      assert AllFiles(done + {p}) == AllFiles(done) + FilesOf(p);
      files := files + FilesOf(p);
      left, done := left - {p}, done + {p};
    }
    assert done == ps;
  }

  method CheckAll(t: Tree, holds: seq<Hold>, now: int, pair: PairDigest, ps: set<Path>) returns (ok: bool)
    ensures ok == ArtifactsOk(t, holds, now, pair, ps)
  {
    var check: Path -> bool := p => OneOk(t, holds, now, pair, p);
    var meta: Lookup := LookupIn(t);
    forall p: Path | check(p) ensures meta(p).Some? {}
    ok := CheckArtifacts(meta, check, ps);
  }

  method CheckHolds(secondaries: set<Path>, holds: seq<Hold>) returns (ok: bool)
    ensures ok == forall i :: 0 <= i < |holds| ==> NamesPrimary(secondaries, holds[i])
  {
    for i := 0 to |holds|
      invariant forall j :: 0 <= j < i ==> NamesPrimary(secondaries, holds[j])
    {
      if !NamesPrimary(secondaries, holds[i]) { return false; }
    }
    ok := true;
  }

  method Scan(t: Tree, holds: seq<Hold>, now: int, pair: PairDigest) returns (ok: bool)
    ensures ok == ScanOk(t, holds, now, pair)
  {
    if !ValidHolds(holds, now) || Sidecars(t) != SidecarsOf(Primaries(t)) { return false; }
    ok := CheckHolds(Secondaries(t), holds);
    if !ok { return; }
    ok := CheckAll(t, holds, now, pair, Primaries(t));
    if !ok { return; }
    var files := CollectFiles(Primaries(t));
    ok := Actual(t) == files;
  }

  datatype Counts = Counts(retained: nat, held: nat, overdue: nat, expired: nat, deleted: nat) {
    function Total(): nat {
      retained + held + overdue + expired
    }
  }

  function Count(c: Counts, s: Status): Counts {
    match s
    case Retained => c.(retained := c.retained + 1)
    case Held => c.(held := c.held + 1)
    case HeldOverdueReview => c.(overdue := c.overdue + 1)
    case Expired => c.(expired := c.expired + 1)
  }
}
