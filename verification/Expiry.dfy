/** The expiry run itself, and what it deletes (scripts/backup-retention.py: expire). */
module Expiry {
  import opened Retention

  ghost function StatusIn(t: Tree, holds: seq<Hold>, now: int): Path -> Status {
    p => if MetadataAt(t, p) then StatusOf(holds, p, MetadataOf(t, p), now) else Retained
  }

  /** The artifacts of one status. */
  ghost function Having(status: Path -> Status, ps: set<Path>, s: Status): set<Path> {
    set p | p in ps && status(p) == s
  }

  /** The expired artifacts that no active hold keeps. */
  ghost function Doomed(t: Tree, holds: seq<Hold>, now: int): set<Path> {
    Having(StatusIn(t, holds, now), Primaries(t), Expired)
  }

  /** The counts of the artifacts seen so far, by status. */
  ghost predicate Tallies(status: Path -> Status, ps: set<Path>, c: Counts) {
    && c.retained == |Having(status, ps, Retained)| && c.held == |Having(status, ps, Held)|
    && c.overdue == |Having(status, ps, HeldOverdueReview)| && c.expired == |Having(status, ps, Expired)|
  }

  lemma TallyOne(status: Path -> Status, ps: set<Path>, p: Path, c: Counts)
    requires Tallies(status, ps, c) && p !in ps
    ensures Tallies(status, ps + {p}, Count(c, status(p)))
  {
    GrowBy(status, ps, p, Retained);
    GrowBy(status, ps, p, Held);
    GrowBy(status, ps, p, HeldOverdueReview);
    GrowBy(status, ps, p, Expired);
  }

  lemma HavingGrows(status: Path -> Status, ps: set<Path>, p: Path, s: Status)
    ensures Having(status, ps + {p}, s) == Having(status, ps, s) + if status(p) == s then {p} else {}
  {}

  lemma GrowBy(status: Path -> Status, ps: set<Path>, p: Path, s: Status)
    requires p !in ps
    ensures |Having(status, ps + {p}, s)| == |Having(status, ps, s)| + if status(p) == s then 1 else 0
  {
    HavingGrows(status, ps, p, s);
  }

  lemma FootprintGrows(done: set<Path>, p: Path)
    ensures Footprint(done + {p}) == Footprint(done) + (FilesOf(p) + {SidecarOf(p)})
  {
    assert AllFiles(done + {p}) == AllFiles(done) + FilesOf(p);
    assert SidecarsOf(done + {p}) == SidecarsOf(done) + {SidecarOf(p)};
  }

  lemma Minus(t: Tree, a: set<Path>, b: set<Path>)
    ensures t - a - b == t - (a + b)
  {}

  /** One artifact of the plan: counted, and deleted with its sidecar when it is expired. */
  method Handle(t: Tree, holds: seq<Hold>, now: int, p: Path, delete: bool, changed: bool, after: Tree, counts: Counts, ghost done: set<Path>)
    returns (ok: bool, after': Tree, counts': Counts, ghost done': set<Path>)
    requires p in Primaries(t) && MetadataAt(t, p) && after == t - Footprint(done)
    ensures var doomed := StatusOf(holds, p, MetadataOf(t, p), now) == Expired && delete;
            && ok == !(doomed && changed)
            && after' == (if doomed && ok then after - (FilesOf(p) + {SidecarOf(p)}) else after)
            && done' == (if doomed && ok then done + {p} else done) && after' == t - Footprint(done')
            && (ok ==> counts' == Count(counts, StatusOf(holds, p, MetadataOf(t, p), now)).(deleted := counts.deleted + if doomed then 1 else 0))
  {
    ok, after', done' := true, after, done;
    var status := ReadStatus(holds, p, MetadataOf(t, p), now);
    counts' := Count(counts, status);
    if status != Expired || !delete { return; }
    if changed { return false, after, counts, done; }
    FootprintGrows(done, p);
    Minus(t, Footprint(done), FilesOf(p) + {SidecarOf(p)});
    after' := after - (FilesOf(p) + {SidecarOf(p)});
    done' := done + {p};
    counts' := counts'.(deleted := counts'.deleted + 1);
  }

  /** How far the loop has got, with the artifacts seen. */
  ghost predicate Progress(t: Tree, status: Path -> Status, seen: set<Path>, delete: bool, changed: set<Path>, after: Tree, counts: Counts, done: set<Path>) {
    && after == t - Footprint(done) && done == (if delete then Having(status, seen, Expired) else {}) && changed !! done
    && Tallies(status, seen, counts) && counts.deleted == |done|
  }

  lemma ProgressStep(t: Tree, status: Path -> Status, seen: set<Path>, p: Path, delete: bool, changed: set<Path>, after: Tree, counts: Counts, done: set<Path>)
    requires Progress(t, status, seen, delete, changed, after, counts, done) && p !in seen
    requires !(status(p) == Expired && delete && p in changed)
    ensures var doomed := status(p) == Expired && delete;
            var done' := if doomed then done + {p} else done;
            Progress(t, status, seen + {p}, delete, changed, t - Footprint(done'),
                     Count(counts, status(p)).(deleted := counts.deleted + if doomed then 1 else 0), done')
  {
    TallyOne(status, seen, p, counts);
    HavingGrows(status, seen, p, Expired);
  }

  lemma ProgressStart(t: Tree, status: Path -> Status, delete: bool, changed: set<Path>)
    ensures Progress(t, status, {}, delete, changed, t, Counts(0, 0, 0, 0, 0), {})
  {
    assert Footprint({}) == {} && t - {} == t;
    assert forall s :: Having(status, {}, s) == {};
  }

  lemma HavingSubset(status: Path -> Status, seen: set<Path>, ps: set<Path>)
    requires seen <= ps
    ensures Having(status, seen, Expired) <= Having(status, ps, Expired)
  {}

  /** expire's loop over the plan. */
  method Process(t: Tree, holds: seq<Hold>, now: int, delete: bool, ps: set<Path>, ghost status: Path -> Status, changed: set<Path>)
    returns (ok: bool, after: Tree, counts: Counts, ghost done: set<Path>)
    requires forall p :: p in ps ==> p in Primaries(t) && MetadataAt(t, p) && status(p) == StatusOf(holds, p, MetadataOf(t, p), now)
    ensures ok <==> !delete || changed !! Having(status, ps, Expired)
    ensures after == t - Footprint(done) && done <= Having(status, ps, Expired) && (!delete ==> done == {})
    ensures ok ==> Progress(t, status, ps, delete, changed, after, counts, done)
  {
    after, counts, done, ok := t, Counts(0, 0, 0, 0, 0), {}, true;
    var left := ps;
    assert ps - left == {};
    ProgressStart(t, status, delete, changed);
    while left != {}
      invariant left <= ps && ok
      invariant Progress(t, status, ps - left, delete, changed, after, counts, done)
      decreases |left|
    {
      var p :| p in left;
      HavingSubset(status, ps - left, ps);
      OneMore(ps, left, p);
      if status(p) == Expired && delete && p in changed {
        assert p in Having(status, ps, Expired);
      } else {
        ProgressStep(t, status, ps - left, p, delete, changed, after, counts, done);
      }
      ok, after, counts, done := Handle(t, holds, now, p, delete, p in changed, after, counts, done);
      if !ok { return; }
      left := left - {p};
    }
    assert ps - left == ps;
  }

  /** expire: nothing is deleted unless every artifact validated; changed are the artifacts whose files
      no longer match their validation when their turn comes, which ends the run. */
  method Expire(t: Tree, holds: seq<Hold>, now: int, delete: bool, pair: PairDigest, changed: set<Path>)
    returns (ok: bool, after: Tree, counts: Counts, ghost done: set<Path>)
    ensures !ScanOk(t, holds, now, pair) ==> !ok && after == t
    ensures ScanOk(t, holds, now, pair) ==> (ok <==> !delete || changed !! Doomed(t, holds, now))
    ensures after == t - Footprint(done) && done <= Doomed(t, holds, now) && (!delete ==> done == {})
    ensures ok && delete ==> done == Doomed(t, holds, now)
    ensures ok ==> Tallies(StatusIn(t, holds, now), Primaries(t), counts) && counts.deleted == |done|
    ensures ok && delete ==> forall p :: p in Primaries(t) ==>
              if PastPeriod(t, p, now) && !UnderHold(holds, p) then Gone(after, p) else Whole(t, after, p)
    ensures ok && !delete ==> after == t
    ensures ok ==>
              && counts.expired == |set p | p in Primaries(t) && PastPeriod(t, p, now) && !UnderHold(holds, p)|
              && counts.retained == |set p | p in Primaries(t) && !PastPeriod(t, p, now) && !UnderHold(holds, p)|
              && counts.held == |set p | p in Primaries(t) && UnderHold(holds, p) && !ReviewDue(holds, p, now)|
              && counts.overdue == |set p | p in Primaries(t) && UnderHold(holds, p) && ReviewDue(holds, p, now)|
              && counts.deleted == if delete then counts.expired else 0
  {
    after, counts, done := t, Counts(0, 0, 0, 0, 0), {};
    assert Footprint({}) == {} && t - {} == t;
    ok := Scan(t, holds, now, pair);
    if !ok { return; }
    HaveMetadata(t, holds, now, pair);
    ok, after, counts, done := Process(t, holds, now, delete, Primaries(t), StatusIn(t, holds, now), changed);
    if ok {
      CountsMean(t, holds, now, pair);
      if delete {
        forall p | p in Primaries(t)
          ensures if PastPeriod(t, p, now) && !UnderHold(holds, p) then Gone(after, p) else Whole(t, after, p)
        {
          DeletedExactly(t, holds, now, pair, p);
        }
      }
    }
  }

  lemma HaveMetadata(t: Tree, holds: seq<Hold>, now: int, pair: PairDigest)
    requires ScanOk(t, holds, now, pair)
    ensures forall p :: p in Primaries(t) ==> MetadataAt(t, p)
  {
    forall p | p in Primaries(t) ensures MetadataAt(t, p) { assert OneOk(t, holds, now, pair, p); }
  }

  // ------------------------------------------------- expiry by clock and hold alone

  /** The retention period counted from the artifact's creation is over: 30 days for an archive, 180 for
      an audit export. */
  predicate PastPeriod(t: Tree, p: Path, now: int) {
    MetadataAt(t, p) && var m := MetadataOf(t, p); m.created + (if m.kind.PostgresqlDump? then 30 else 180) * 86400 <= now
  }

  /** A hold that is not released names the artifact. */
  ghost predicate UnderHold(holds: seq<Hold>, p: Path) {
    exists i :: 0 <= i < |holds| && holds[i].released.None? && holds[i].path == p
  }

  ghost predicate ReviewDue(holds: seq<Hold>, p: Path, now: int) {
    exists i :: 0 <= i < |holds| && holds[i].released.None? && holds[i].path == p && holds[i].nextReview <= now
  }

  ghost predicate Gone(after: Tree, p: Path) {
    (FilesOf(p) + {SidecarOf(p)}) !! after.Keys
  }

  ghost predicate Whole(t: Tree, after: Tree, p: Path) {
    forall x :: x in FilesOf(p) + {SidecarOf(p)} ==> x in t && x in after && after[x] == t[x]
  }

  /** In a validated tree every status is decided by the creation time and the holds on the path. */
  lemma {:induction false} StatusMeans(t: Tree, holds: seq<Hold>, now: int, pair: PairDigest, p: Path)
    requires ScanOk(t, holds, now, pair) && p in Primaries(t)
    ensures MetadataAt(t, p)
    ensures var s := StatusOf(holds, p, MetadataOf(t, p), now);
            && (s == Expired <==> PastPeriod(t, p, now) && !UnderHold(holds, p))
            && (s == Retained <==> !PastPeriod(t, p, now) && !UnderHold(holds, p))
            && (s == Held <==> UnderHold(holds, p) && !ReviewDue(holds, p, now))
            && (s == HeldOverdueReview <==> UnderHold(holds, p) && ReviewDue(holds, p, now))
  {
    assert OneOk(t, holds, now, pair, p);
    var m := MetadataOf(t, p);
    forall i | 0 <= i < |holds| ensures HeldBy(holds[i], p, m) <==> holds[i].released.None? && holds[i].path == p {
      if holds[i].released.None? { assert HoldAgrees(holds[i], p, m); }
    }
    assert IsHeld(holds, p, m) <==> UnderHold(holds, p);
    assert IsOverdue(holds, p, m, now) <==> ReviewDue(holds, p, now);
  }

  lemma {:induction false} CountsMean(t: Tree, holds: seq<Hold>, now: int, pair: PairDigest)
    requires ScanOk(t, holds, now, pair)
    ensures var status := StatusIn(t, holds, now);
            && Having(status, Primaries(t), Expired) == (set p | p in Primaries(t) && PastPeriod(t, p, now) && !UnderHold(holds, p))
            && Having(status, Primaries(t), Retained) == (set p | p in Primaries(t) && !PastPeriod(t, p, now) && !UnderHold(holds, p))
            && Having(status, Primaries(t), Held) == (set p | p in Primaries(t) && UnderHold(holds, p) && !ReviewDue(holds, p, now))
            && Having(status, Primaries(t), HeldOverdueReview) == (set p | p in Primaries(t) && UnderHold(holds, p) && ReviewDue(holds, p, now))
  {
    forall p | p in Primaries(t)
      ensures var s := StatusIn(t, holds, now)(p);
              && (s == Expired <==> PastPeriod(t, p, now) && !UnderHold(holds, p))
              && (s == Retained <==> !PastPeriod(t, p, now) && !UnderHold(holds, p))
              && (s == Held <==> UnderHold(holds, p) && !ReviewDue(holds, p, now))
              && (s == HeldOverdueReview <==> UnderHold(holds, p) && ReviewDue(holds, p, now))
    {
      StatusMeans(t, holds, now, pair, p);
    }
  }

  /** After all doomed artifacts went: an artifact is gone with all its files and its sidecar when its
      period is over and no active hold names it, and otherwise is there as it was. */
  lemma {:induction false} DeletedExactly(t: Tree, holds: seq<Hold>, now: int, pair: PairDigest, p: Path)
    requires ScanOk(t, holds, now, pair) && p in Primaries(t)
    ensures var after := t - Footprint(Doomed(t, holds, now));
            if PastPeriod(t, p, now) && !UnderHold(holds, p) then Gone(after, p) else Whole(t, after, p)
  {
    StatusMeans(t, holds, now, pair, p);
    var doomed := Doomed(t, holds, now);
    if p in doomed {
      DeletesWhole(t, doomed, p);
    } else {
      ArtifactPresent(t, holds, now, pair, p);
      forall x | x in FilesOf(p) + {SidecarOf(p)} ensures x in t && x !in Footprint(doomed) {
        if x in Footprint(doomed) { OwnedByOne(t, p, doomed, x); }
      }
    }
  }

  lemma {:induction false} OwnedByOne(t: Tree, p: Path, done: set<Path>, x: Path)
    requires p in Primaries(t) && done <= Primaries(t) && x in FilesOf(p) + {SidecarOf(p)} && x in Footprint(done)
    ensures p in done
  {
    var q :| q in done && (x in FilesOf(q) || x == SidecarOf(q));
    PrimariesArePrimary(t, p);
    PrimariesArePrimary(t, q);
    SameArtifact(p, q, x);
  }

  // ----------------------------------------------------------------- what is deleted

  /** The four statuses split the artifacts, so the counts add up to all of them. */
  lemma {:induction false} CountsPartition(status: Path -> Status, ps: set<Path>, c: Counts)
    requires Tallies(status, ps, c)
    ensures c.Total() == |ps|
  {
    var a, b, d, e := Having(status, ps, Retained), Having(status, ps, Held), Having(status, ps, HeldOverdueReview), Having(status, ps, Expired);
    forall p | p in ps ensures p in a + b + d + e {
      match status(p) {
        case Retained => assert p in a;
        case Held => assert p in b;
        case HeldOverdueReview => assert p in d;
        case Expired => assert p in e;
      }
    }
    FourParts(ps, a, b, d, e);
  }

  lemma FourParts(all: set<Path>, a: set<Path>, b: set<Path>, c: set<Path>, d: set<Path>)
    requires all == a + b + c + d && a !! b && a !! c && a !! d && b !! c && b !! d && c !! d
    ensures |all| == |a| + |b| + |c| + |d|
  {
    assert |a + b| == |a| + |b|;
    assert |a + b + c| == |a + b| + |c|;
    assert |a + b + c + d| == |a + b + c| + |d|;
  }

  lemma {:induction false} PrimariesArePrimary(t: Tree, p: Path)
    requires p in Primaries(t)
    ensures IsPrimary(p)
  {
    if p !in t || !IsPrimary(p) {
      var s :| s in t && IsAudit(s.name, SIG) && p == DataOf(s);
      DataName(s);
    }
  }

  lemma DataName(s: Path)
    requires IsAudit(s.name, SIG)
    ensures IsAudit(DataOf(s).name, DATA)
  {
    assert SIG <= Tail(s.name);
    RenamedTail(s.name, SIG, DATA);
    assert Tail(s.name)[4..] == "" || Tail(s.name)[4..] == ASC;
    assert DATA + "" == DATA;
  }

  /** No file of an artifact that an active hold names, nor its sidecar, is ever deleted. */
  lemma {:induction false} HeldUntouched(t: Tree, holds: seq<Hold>, now: int, pair: PairDigest, h: Hold, done: set<Path>, x: Path)
    requires ScanOk(t, holds, now, pair) && ActiveHold(holds, h) && h.path in Primaries(t) && done <= Doomed(t, holds, now)
    requires x in FilesOf(h.path) || x == SidecarOf(h.path)
    ensures x !in Footprint(done)
  {
    var p := h.path;
    HeldIsNotDoomed(t, holds, now, pair, h);
    if x in Footprint(done) { OwnedByOne(t, p, done, x); }
  }

  lemma {:induction false} SameArtifact(p: Path, q: Path, x: Path)
    requires IsPrimary(p) && IsPrimary(q)
    requires (x in FilesOf(p) || x == SidecarOf(p)) && (x in FilesOf(q) || x == SidecarOf(q))
    ensures p == q
  {
    SidecarsStandApart(p, q);
    SidecarsStandApart(q, p);
    if x in FilesOf(p) {
      PairsNeverShare(p, q, x);
    } else {
      SidecarInjective(p, q);
    }
  }

  lemma {:induction false} HeldIsNotDoomed(t: Tree, holds: seq<Hold>, now: int, pair: PairDigest, h: Hold)
    requires ScanOk(t, holds, now, pair) && ActiveHold(holds, h) && h.path in Primaries(t)
    ensures h.path !in Doomed(t, holds, now)
  {
    var p := h.path;
    assert OneOk(t, holds, now, pair, p);
    var m := MetadataOf(t, p);
    var i :| 0 <= i < |holds| && holds[i] == h;
    assert HoldAgrees(holds[i], p, m);
    assert HeldBy(holds[i], p, m);
  }

  /** A validated artifact is there with all its files. */
  lemma {:induction false} ArtifactPresent(t: Tree, holds: seq<Hold>, now: int, pair: PairDigest, p: Path)
    requires ScanOk(t, holds, now, pair) && p in Primaries(t)
    ensures FilesOf(p) + {SidecarOf(p)} <= t.Keys
  {
    HaveMetadata(t, holds, now, pair);
    forall x | x in FilesOf(p) ensures x in t { assert x in AllFiles(Primaries(t)); }
  }

  /** One file of one artifact with other bytes than were registered is enough to stop the whole run:
      no such tree validates. */
  lemma {:induction false} TamperingRefused(t: Tree, holds: seq<Hold>, now: int, pair: PairDigest, p: Path, x: Path, c: Content)
    requires ScanOk(t, holds, now, pair) && p in Primaries(t) && x in FilesOf(p)
    requires c.Bytes? && x in t && t[x].Bytes? ==> c.digest != t[x].digest
    ensures !ScanOk(t[x := c], holds, now, pair)
  {
    ArtifactPresent(t, holds, now, pair, p);
    PrimariesArePrimary(t, p);
    SidecarsStandApart(p, p);
    SameNames(t, x, c);
    assert OneOk(t, holds, now, pair, p);
    TamperedArtifact(t, now, pair, p, x, c);
    assert !OneOk(t[x := c], holds, now, pair, p);
  }

  lemma SameNames(t: Tree, x: Path, c: Content)
    requires x in t
    ensures Primaries(t[x := c]) == Primaries(t)
  {
    assert t[x := c].Keys == t.Keys;
  }

  lemma TamperedArtifact(t: Tree, now: int, pair: PairDigest, p: Path, x: Path, c: Content)
    requires ArtifactOk(t, p, now, pair) && x in FilesOf(p) && x != SidecarOf(p)
    requires c.Bytes? && x in t && t[x].Bytes? ==> c.digest != t[x].digest
    ensures !ArtifactOk(t[x := c], p, now, pair)
  {
    assert MetadataAt(t[x := c], p) && MetadataOf(t[x := c], p) == MetadataOf(t, p);
  }

  /** Nothing escapes the run: in a validated tree every encrypted dump, audit export and signature is a
      file of some artifact with readable metadata. */
  lemma {:induction false} NothingUnmanaged(t: Tree, holds: seq<Hold>, now: int, pair: PairDigest, x: Path)
    requires ScanOk(t, holds, now, pair) && x in t && (EndsWith(x.name, ".dump.age") || IsAudit(x.name, ".jsonl") || IsAudit(x.name, ".sig"))
    ensures exists p :: p in Primaries(t) && x in FilesOf(p) && MetadataAt(t, p)
  {
    HaveMetadata(t, holds, now, pair);
    assert x in Actual(t);
    var p :| p in Primaries(t) && x in FilesOf(p);
  }

  /** A deleted artifact loses all its files, and every path outside the deleted artifacts keeps its
      content. */
  lemma {:induction false} DeletesWhole(t: Tree, done: set<Path>, p: Path)
    requires p in done
    ensures (FilesOf(p) + {SidecarOf(p)}) !! (t - Footprint(done)).Keys
    ensures forall x :: x in t && x !in Footprint(done) ==> x in t - Footprint(done) && (t - Footprint(done))[x] == t[x]
  {
    assert FilesOf(p) <= AllFiles(done) && SidecarOf(p) in SidecarsOf(done);
  }
}
