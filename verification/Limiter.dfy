/** The request limiter's bounded bucket tables (internal/market/app.go: allowIn, allow, refund,
    limited, limitTable, allowWrite, allowLookup). */
module Limiter {
  import opened Results

  const CAPACITY: nat := 4096
  const WINDOW: int := 600_000_000_000

  datatype Bucket = Bucket(count: int, limit: int, until: int, seen: seq<string>)

  type Table = map<string, Bucket>

  const ADMIN_PREFIX: string := "adm:"
  const TOTP_PREFIX: string := "totp-verify:"
  const RESCUE_PREFIX: string := "rescue-code:"

  /** strings.TrimPrefix. */
  function TrimPrefix(s: string, prefix: string): string {
    if prefix <= s then s[|prefix|..] else s
  }

  /** Keys whose budget a full table never resets. */
  predicate Protected(key: string) {
    var base := TrimPrefix(key, ADMIN_PREFIX);
    TOTP_PREFIX <= base || RESCUE_PREFIX <= base
  }

  /** They are the second-factor and rescue-code budgets, of members and of administrators. */
  lemma ProtectedKeys(who: string)
    ensures Protected("totp-verify:" + who) && Protected("adm:totp-verify:" + who)
    ensures Protected("rescue-code:" + who) && Protected("adm:rescue-code:" + who)
  {
    forall key | key == "totp-verify:" + who || key == "rescue-code:" + who ensures TrimPrefix(key, ADMIN_PREFIX) == key { assert key[0] != 'a'; }
    assert ("adm:totp-verify:" + who)[4..] == "totp-verify:" + who;
    assert ("adm:rescue-code:" + who)[4..] == "rescue-code:" + who;
  }

  predicate Evictable(key: string, b: Bucket) {
    b.count < b.limit && !Protected(key)
  }

  /** The order in which full tables give up entries. */
  predicate Before(a: Bucket, b: Bucket) {
    a.count < b.count || (a.count == b.count && a.until < b.until)
  }

  /** The entries whose window has not passed. */
  function Live(l: Table, now: int): Table {
    map k | k in l && now <= l[k].until :: l[k]
  }

  function Entry(l: Table, key: string): Bucket {
    if key in l then l[key] else Bucket(0, 0, 0, [])
  }

  predicate IsVictim(l: Table, victim: string) {
    && victim in l && Evictable(victim, l[victim])
    && forall k :: k in l && Evictable(k, l[k]) ==> !Before(l[k], l[victim])
  }

  ghost predicate Stuck(l: Table) {
    forall k :: k in l ==> !Evictable(k, l[k])
  }

  /** What allowIn leaves and answers. Which of several equal victims goes is the map's choice. */
  ghost predicate Allowed(l: Table, key: string, n: int, now: int, l': Table, ok: bool) {
    var live := Live(l, now);
    var b := Entry(live, key);
    var counted := b.(count := b.count + 1, limit := n);
    var first := counted.(until := now + WINDOW);
    if b.count != 0 then l' == live[key := counted] && ok == (counted.count <= n)
    else if |live| < CAPACITY then l' == live[key := first] && ok == (1 <= n)
    else if Stuck(live) then l' == live && !ok
    else exists v :: IsVictim(live, v) && l' == (live - {v})[key := first] && ok == (1 <= n)
  }

  method Purge(limits: Table, now: int) returns (live: Table)
    ensures live == Live(limits, now)
  {
    live := limits;
    var left := limits.Keys;
    while left != {}
      invariant left <= limits.Keys
      invariant forall k :: k in live <==> k in limits && (k in left || now <= limits[k].until)
      invariant forall k :: k in live ==> live[k] == limits[k]
      decreases |left|
    {
      var k :| k in left;
      if now > limits[k].until { live := live - {k}; }
      left := left - {k};
    }
  }

  method FindVictim(limits: Table) returns (victim: Option<string>)
    ensures victim.None? ==> Stuck(limits)
    ensures victim.Some? ==> IsVictim(limits, victim.value)
  {
    victim := None;
    var left := limits.Keys;
    while left != {}
      invariant left <= limits.Keys
      invariant victim.None? ==> forall k :: k in limits && k !in left ==> !Evictable(k, limits[k])
      invariant victim.Some? ==> victim.value in limits && Evictable(victim.value, limits[victim.value])
      invariant victim.Some? ==>
                  forall k :: k in limits && k !in left && Evictable(k, limits[k]) ==> !Before(limits[k], limits[victim.value])
      decreases |left|
    {
      var k :| k in left;
      left := left - {k};
      if Evictable(k, limits[k]) {
        if victim.None? || Before(limits[k], limits[victim.value]) { victim := Some(k); }
      }
    }
  }

  method AllowIn(limits: Table, key: string, n: int, now: int) returns (after: Table, ok: bool)
    ensures Allowed(limits, key, n, now, after, ok)
  {
    after := Purge(limits, now);
    var b := Entry(after, key);
    if b.count == 0 {
      if |after| >= CAPACITY {
        var victim := FindVictim(after);
        if victim.None? { return after, false; }
        after := after - {victim.value};
      }
      b := b.(until := now + WINDOW);
    }
    b := b.(count := b.count + 1, limit := n);
    after := after[key := b];
    ok := b.count <= n;
  }

  predicate Admin(key: string) {
    ADMIN_PREFIX <= key
  }

  function Refunded(l: Table, key: string): Table {
    if key !in l then l
    else if l[key].count <= 1 then l - {key}
    else l[key := l[key].(count := l[key].count - 1)]
  }

  predicate Limits(l: Table, key: string, n: int, now: int) {
    key in l && now <= l[key].until && l[key].count >= n
  }

  /** What a key has used of its budget. */
  function Used(l: Table, key: string): int {
    if key in l then l[key].count else 0
  }

  /** No entry can be made for key: the table is full and none of its entries may go. */
  ghost predicate NoRoom(l: Table, key: string, now: int) {
    var live := Live(l, now);
    Entry(live, key).count == 0 && |live| >= CAPACITY && Stuck(live)
  }

  /** A request is refused exactly when its key has spent the budget or no entry can be made for it. */
  lemma RefusedExactly(l: Table, key: string, n: int, now: int, l': Table, ok: bool)
    requires n >= 1 && Allowed(l, key, n, now, l', ok)
    ensures !ok <==> Limits(l, key, n, now) || NoRoom(l, key, now)
  {
    assert key in Live(l, now) <==> key in l && now <= l[key].until;
  }

  class App {
    var limits: Table
    var adminLimits: Table
    var writeLimits: Table

    constructor ()
      ensures limits == adminLimits == writeLimits == map[]
    {
      limits, adminLimits, writeLimits := map[], map[], map[];
    }

    /** The table a key's budget lives in. */
    function LimitTable(key: string): Table
      reads this
    {
      if Admin(key) then adminLimits else limits
    }

    method Allow(key: string, n: int, now: int) returns (ok: bool)
      modifies this`limits, this`adminLimits
      ensures Allowed(old(LimitTable(key)), key, n, now, LimitTable(key), ok)
      ensures if Admin(key) then limits == old(limits) else adminLimits == old(adminLimits)
    {
      if Admin(key) {
        adminLimits, ok := AllowIn(adminLimits, key, n, now);
      } else {
        limits, ok := AllowIn(limits, key, n, now);
      }
    }

    method Refund(key: string)
      modifies this`limits, this`adminLimits
      ensures LimitTable(key) == Refunded(old(LimitTable(key)), key)
      ensures Used(LimitTable(key), key) == if Used(old(LimitTable(key)), key) > 1 then Used(old(LimitTable(key)), key) - 1 else 0
      ensures forall k :: k != key ==> (k in LimitTable(key) <==> k in old(LimitTable(key)))
      ensures forall k :: k != key && k in LimitTable(key) ==> LimitTable(key)[k] == old(LimitTable(key))[k]
      ensures if Admin(key) then limits == old(limits) else adminLimits == old(adminLimits)
    {
      var l := LimitTable(key);
      if key in l {
        var b := l[key];
        if b.count <= 1 {
          l := l - {key};
        } else {
          l := l[key := b.(count := b.count - 1)];
        }
        if Admin(key) { adminLimits := l; } else { limits := l; }
      }
    }

    method Limited(key: string, n: int, now: int) returns (r: bool)
      ensures r == Limits(LimitTable(key), key, n, now)
      ensures n >= 1 ==> forall l', ok :: Allowed(LimitTable(key), key, n, now, l', ok) ==> (!ok <==> r || NoRoom(LimitTable(key), key, now))
    {
      forall l', ok | n >= 1 && Allowed(LimitTable(key), key, n, now, l', ok)
        ensures !ok <==> Limits(LimitTable(key), key, n, now) || NoRoom(LimitTable(key), key, now)
      {
        RefusedExactly(LimitTable(key), key, n, now, l', ok);
      }
      var l := LimitTable(key);
      r := key in l && now <= l[key].until && l[key].count >= n;
    }

    method AllowWrite(key: string, n: int, now: int) returns (ok: bool)
      modifies this`writeLimits
      ensures Allowed(old(writeLimits), key, n, now, writeLimits, ok)
    {
      writeLimits, ok := AllowIn(writeLimits, key, n, now);
    }

    /** allowLookup, for the key of one account: a handle this window already admitted costs nothing. */
    method AllowLookup(key: string, handle: string, budget: nat, now: int) returns (ok: bool)
      modifies this`writeLimits
      ensures LookedUp(old(writeLimits), key, handle, budget, now, writeLimits, ok)
      ensures key in old(writeLimits) && now <= old(writeLimits)[key].until && handle in old(writeLimits)[key].seen ==>
                ok && writeLimits == old(writeLimits)
      ensures ok ==> key in writeLimits && handle in writeLimits[key].seen
    {
      if key in writeLimits && now <= writeLimits[key].until && handle in writeLimits[key].seen { return true; }
      writeLimits, ok := AllowIn(writeLimits, key, budget, now);
      if !ok { return; }
      var b := writeLimits[key];
      writeLimits := writeLimits[key := b.(seen := b.seen + [handle])];
    }
  }

  ghost predicate LookedUp(l: Table, key: string, handle: string, budget: nat, now: int, l': Table, ok: bool) {
    if key in l && now <= l[key].until && handle in l[key].seen then l' == l && ok
    else exists m :: Allowed(l, key, budget, now, m, ok)
                     && l' == if ok then Noted(m, key, handle) else m
  }

  function Noted(l: Table, key: string, handle: string): Table {
    var b := Entry(l, key);
    l[key := b.(seen := b.seen + [handle])]
  }
}
