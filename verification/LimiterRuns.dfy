/** What every run of limiter operations keeps (internal/market/app.go). */
module LimiterRuns {
  import opened Limiter

  datatype Op = Allow(key: string, n: nat, now: int) | Refund(key: string)

  ghost predicate Step(l: Table, op: Op, l': Table, ok: bool) {
    match op
    case Allow(key, n, now) => Allowed(l, key, n, now, l', ok)
    case Refund(key) => l' == Refunded(l, key) && !ok
  }

  lemma Inserted(l: Table, key: string, b: Bucket)
    ensures |l[key := b]| == if key in l then |l| else |l| + 1
  {
    var m := l[key := b];
    assert m.Keys == l.Keys + {key};
    assert |m| == |m.Keys| && |l| == |l.Keys|;
    if key in l { assert m.Keys == l.Keys; }
  }

  lemma Removed(l: Table, key: string)
    ensures |l - {key}| == if key in l then |l| - 1 else |l|
  {
    var m := l - {key};
    assert m.Keys == l.Keys - {key};
    assert |m| == |m.Keys| && |l| == |l.Keys|;
    if key !in l { assert m.Keys == l.Keys; }
  }

  /** An operation never grows a table past its capacity. */
  lemma StepBounded(l: Table, op: Op, l': Table, ok: bool)
    requires |l| <= CAPACITY && Step(l, op, l', ok)
    ensures |l'| <= CAPACITY
  {
    if op.Allow? {
      AllowBounded(l, op.key, op.n, op.now, l', ok);
    } else {
      FewerKeys(l', l);
    }
  }

  lemma Swapped(l: Table, victim: string, key: string, b: Bucket)
    requires victim in l
    ensures |(l - {victim})[key := b]| <= |l|
  {
    Removed(l, victim);
    Inserted(l - {victim}, key, b);
  }

  lemma AllowBounded(l: Table, key: string, n: nat, now: int, l': Table, ok: bool)
    requires |l| <= CAPACITY && Allowed(l, key, n, now, l', ok)
    ensures |l'| <= CAPACITY
  {
    var live := Live(l, now);
    FewerKeys(live, l);
    var b := Entry(live, key);
    var first := b.(count := b.count + 1, limit := n, until := now + WINDOW);
    if b.count != 0 {
      Inserted(live, key, b.(count := b.count + 1, limit := n));
    } else if |live| < CAPACITY {
      Inserted(live, key, first);
    } else if !Stuck(live) {
      var v :| IsVictim(live, v) && l' == (live - {v})[key := first];
      Swapped(live, v, key, first);
    }
  }

  lemma FewerKeys(a: Table, b: Table)
    requires a.Keys <= b.Keys
    ensures |a| <= |b|
  {
    Subset(a.Keys, b.Keys);
    assert |a| == |a.Keys| && |b| == |b.Keys|;
  }

  lemma {:induction false} Subset(a: set<string>, b: set<string>)
    requires a <= b
    ensures |a| <= |b|
    decreases a
  {
    if a != {} {
      var x :| x in a;
      Subset(a - {x}, b - {x});
    }
  }

  /** An entry whose window has not passed is only ever lost, to another key, when the table is full,
      and then it is a minimum by count and expiry among the entries that may be evicted. */
  lemma LostIsMinimum(l: Table, key: string, n: nat, now: int, l': Table, ok: bool, k: string)
    requires Allowed(l, key, n, now, l', ok) && k in l && now <= l[k].until && k != key && k !in l'
    ensures |Live(l, now)| >= CAPACITY && Evictable(k, l[k])
    ensures forall x :: x in l && now <= l[x].until && Evictable(x, l[x]) ==> !Before(l[x], l[k])
  {
    var live := Live(l, now);
    assert k in live;
    var v :| IsVictim(live, v) && l'.Keys == (live - {v}).Keys + {key};
    assert v == k;
    forall x | x in l && now <= l[x].until && Evictable(x, l[x]) ensures !Before(l[x], l[k]) {
      assert x in live && live[x] == l[x];
    }
  }

  /** Exhausted, or protected even before it is. */
  predicate Kept(key: string, b: Bucket) {
    b.count >= b.limit || Protected(key)
  }

  lemma StepKeeps(l: Table, op: Op, l': Table, ok: bool, k: string)
    requires Step(l, op, l', ok) && k in l && Kept(k, l[k]) && op.key != k
    requires op.Allow? ==> op.now <= l[k].until
    ensures k in l' && l'[k] == l[k]
  {
    if op.Allow? {
      var live := Live(l, op.now);
      assert k in live && live[k] == l[k];
    }
  }

  // ---------------------------------------------------------------------------- runs

  /** A run, with what each operation answered. */
  ghost predicate Run(l: Table, ops: seq<Op>, oks: seq<bool>, l': Table)
    decreases |ops|
  {
    if ops == [] then oks == [] && l == l'
    else oks != [] && exists m :: Step(l, ops[0], m, oks[0]) && Run(m, ops[1..], oks[1..], l')
  }

  lemma {:induction false} RunBounded(l: Table, ops: seq<Op>, oks: seq<bool>, l': Table)
    requires |l| <= 4096 && Run(l, ops, oks, l')
    ensures |l'| <= 4096
    decreases |ops|
  {
    if ops != [] {
      var m :| Step(l, ops[0], m, oks[0]) && Run(m, ops[1..], oks[1..], l');
      StepBounded(l, ops[0], m, oks[0]);
      RunBounded(m, ops[1..], oks[1..], l');
    }
  }

  ghost predicate OnOthers(ops: seq<Op>, k: string, until: int) {
    forall i :: 0 <= i < |ops| ==> ops[i].key != k && (ops[i].Allow? ==> ops[i].now <= until)
  }

  /** No sequence of operations on other keys changes an unexpired entry that is exhausted or
      protected. */
  lemma {:induction false} KeptThroughRuns(l: Table, ops: seq<Op>, oks: seq<bool>, l': Table, k: string)
    requires Run(l, ops, oks, l') && k in l && Kept(k, l[k]) && OnOthers(ops, k, l[k].until)
    ensures k in l' && l'[k] == l[k]
    decreases |ops|
  {
    if ops != [] {
      var m :| Step(l, ops[0], m, oks[0]) && Run(m, ops[1..], oks[1..], l');
      StepKeeps(l, ops[0], m, oks[0], k);
      KeptThroughRuns(m, ops[1..], oks[1..], l', k);
    }
  }

  // ---------------------------------------------------------------- a bucket's window

  /** A window is fixed by the request that opens it: it lasts ten minutes from then, and no later
      operation on any key moves its end. */
  lemma WindowFixed(l: Table, op: Op, l': Table, ok: bool, k: string)
    requires Step(l, op, l', ok) && k in l' && (k in l ==> l[k].count >= 1)
    ensures if op.Allow? && op.key == k && (k !in l || l[k].until < op.now)
            then l'[k].until == op.now + 600_000_000_000 && l'[k].count == 1
            else k in l && l'[k].until == l[k].until
  {
    if op.Allow? { assert k in Live(l, op.now) <==> k in l && op.now <= l[k].until; }
  }

  /** Within k's window, with its budget unchanged and nothing given back. */
  ghost predicate Retries(ops: seq<Op>, k: string, limit: int, until: int) {
    forall i :: 0 <= i < |ops| ==>
      if ops[i].key == k then ops[i].Allow? && ops[i].n == limit && ops[i].now <= until else ops[i].Allow? ==> ops[i].now <= until
  }

  /** However often a spent or protected key is tried again inside its window, and whatever runs on other
      keys, the window ends when it was to end, and the first request after that is admitted unless the
      table has no room. */
  lemma {:induction false} ReopensOnTime(l: Table, ops: seq<Op>, oks: seq<bool>, l': Table, k: string, n: nat, later: int, l'': Table, ok: bool)
    requires Run(l, ops, oks, l') && k in l && l[k].count >= 1 && Kept(k, l[k]) && Retries(ops, k, l[k].limit, l[k].until)
    requires n >= 1 && later > l[k].until && Allowed(l', k, n, later, l'', ok)
    ensures k in l' && l'[k].until == l[k].until && l'[k].count >= l[k].count
    ensures ok <==> !NoRoom(l', k, later)
    decreases |ops|
  {
    if ops == [] {
      RefusedExactly(l', k, n, later, l'', ok);
    } else {
      var m :| Step(l, ops[0], m, oks[0]) && Run(m, ops[1..], oks[1..], l');
      if ops[0].key == k {
        assert k in Live(l, ops[0].now);
        assert m[k] == l[k].(count := l[k].count + 1);
      } else {
        StepKeeps(l, ops[0], m, oks[0], k);
      }
      ReopensOnTime(m, ops[1..], oks[1..], l', k, n, later, l'', ok);
    }
  }

  // ------------------------------------------------------------- a bucket's lifetime

  /** Whether the operation works on an entry that was already there, so its lifetime goes on. */
  predicate Continues(l: Table, op: Op) {
    if op.Allow? then op.key in l && op.now <= l[op.key].until && l[op.key].count != 0 else op.key in l
  }

  /** Admissions less refunds so far in the lifetime of key's entry. */
  function NetAfter(l: Table, net: int, op: Op, ok: bool, key: string): int {
    if op.key != key then net
    else if op.Refund? then net - 1
    else (if Continues(l, op) then net else 0) + (if ok then 1 else 0)
  }

  ghost predicate NetOk(l: Table, key: string, n: nat, net: int) {
    key in l ==> net <= n && net <= l[key].count
  }

  lemma NetStep(l: Table, op: Op, l': Table, ok: bool, key: string, n: nat, net: int)
    requires Step(l, op, l', ok) && NetOk(l, key, n, net) && (op.Allow? && op.key == key ==> op.n == n)
    requires key !in l && key in l' ==> op.key == key
    ensures NetOk(l', key, n, NetAfter(l, net, op, ok, key))
  {}

  /** A run that follows the lifetime count of one key. */
  ghost predicate Counted(l: Table, net: int, ops: seq<Op>, oks: seq<bool>, key: string, l': Table, net': int)
    decreases |ops|
  {
    if ops == [] then oks == [] && l == l' && net == net'
    else oks != [] && exists m :: Step(l, ops[0], m, oks[0]) && Counted(m, NetAfter(l, net, ops[0], oks[0], key), ops[1..], oks[1..], key, l', net')
  }

  lemma OthersNeverOpen(l: Table, op: Op, l': Table, ok: bool, key: string)
    requires Step(l, op, l', ok) && key !in l && op.key != key
    ensures key !in l'
  {}

  /** With a fixed budget n for a key, admissions less refunds never exceed n in a bucket's lifetime. */
  lemma {:induction false} NeverMoreThanBudget(l: Table, net: int, ops: seq<Op>, oks: seq<bool>, key: string, n: nat, l': Table, net': int)
    requires Counted(l, net, ops, oks, key, l', net') && NetOk(l, key, n, net)
    requires forall i :: 0 <= i < |ops| && ops[i].Allow? && ops[i].key == key ==> ops[i].n == n
    ensures NetOk(l', key, n, net')
    decreases |ops|
  {
    if ops != [] {
      var m :| Step(l, ops[0], m, oks[0]) && Counted(m, NetAfter(l, net, ops[0], oks[0], key), ops[1..], oks[1..], key, l', net');
      if key !in l && ops[0].key != key { OthersNeverOpen(l, ops[0], m, oks[0], key); }
      NetStep(l, ops[0], m, oks[0], key, n, net);
      NeverMoreThanBudget(m, NetAfter(l, net, ops[0], oks[0], key), ops[1..], oks[1..], key, n, l', net');
    }
  }

  /** A key that limited reports as spent is refused by the next allow in its window. */
  lemma LimitedRefuses(l: Table, key: string, n: nat, now: int, later: int, l': Table, ok: bool)
    requires Limits(l, key, n, now) && now <= later <= l[key].until && Allowed(l, key, n, later, l', ok)
    ensures !ok
  {
    assert key in Live(l, later);
  }

  /** Refunding an admitted request gives back exactly what it took: the key's use is what it was in its
      window, and no other entry changes. */
  lemma RefundUndoesAllow(l: Table, key: string, n: nat, now: int, l': Table)
    requires Allowed(l, key, n, now, l', true) && Used(Live(l, now), key) >= 0
    ensures Used(Refunded(l', key), key) == Used(Live(l, now), key)
    ensures forall k :: k != key ==> (k in Refunded(l', key) <==> k in l')
    ensures forall k :: k != key && k in l' ==> k in l && Refunded(l', key)[k] == l[k]
  {
    var live := Live(l, now);
    assert Entry(live, key).count == Used(live, key);
    assert key in l' && l'[key].count == Used(live, key) + 1;
  }

  // ------------------------------------------------------------------ recipient lookups

  ghost predicate Distinct(s: seq<string>) {
    forall i, j :: 0 <= i < j < |s| ==> s[i] != s[j]
  }

  /** The handles a window admitted are different ones, no more than the budget. */
  ghost predicate LookupsOk(l: Table, key: string, budget: nat) {
    key in l ==> Distinct(l[key].seen) && |l[key].seen| <= budget && |l[key].seen| <= l[key].count
  }

  lemma LookupAdmits(l: Table, key: string, handle: string, budget: nat, now: int, l': Table, ok: bool)
    requires LookupsOk(l, key, budget) && LookedUp(l, key, handle, budget, now, l', ok)
    ensures LookupsOk(l', key, budget)
    ensures ok ==> key in l' && handle in l'[key].seen
  {
    if !(key in l && now <= l[key].until && handle in l[key].seen) {
      var m: Table :| Allowed(l, key, budget, now, m, ok) && l' == if ok then Noted(m, key, handle) else m;
      var seen := Entry(Live(l, now), key).seen;
      if ok { assert key in m && m[key].seen == seen && handle !in seen; }
    }
  }
}
