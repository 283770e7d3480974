/** The login rate limiter (blackvuesync/server/auth.py): per-address failure times and lockouts in
    two bounded tables. Times are readings of a monotonic clock, in seconds. */
module RateLimiter {

  type Address = string

  const WINDOW: real := 600.0
  const THRESHOLD: nat := 10
  const LOCKOUT: real := 900.0
  const MAX_TRACKED: nat := 10000

  /** A dict: `keys` are its keys in the order of their insertion. */
  datatype Table<V> = Table(keys: seq<Address>, at: map<Address, V>)

  ghost predicate IsTable<V>(t: Table<V>)
  {
    && (forall k :: k in t.keys <==> k in t.at)
    && (forall i, j :: 0 <= i < j < |t.keys| ==> t.keys[i] != t.keys[j])
  }

  function Put<V>(t: Table<V>, k: Address, v: V): Table<V>
  {
    Table(if k in t.at then t.keys else t.keys + [k], t.at[k := v])
  }

  function Without(keys: seq<Address>, gone: set<Address>): (r: seq<Address>)
    ensures |r| <= |keys|
  {
    if |keys| == 0 then [] else
    var end := |keys| - 1;
    Without(keys[..end], gone) + if keys[end] in gone then [] else [keys[end]]
  }

  function Dropped<V>(t: Table<V>, gone: set<Address>): Table<V>
  {
    Table(Without(t.keys, gone), t.at - gone)
  }

  function Members(keys: seq<Address>): set<Address> { set k | k in keys }

  datatype Limiter = Limiter(failures: Table<seq<real>>, locked: Table<real>)

  const EMPTY := Limiter(Table([], map[]), Table([], map[]))

  /** The times that are not before `start`, dropped from the left of an ascending deque. */
  function Trimmed(times: seq<real>, start: real): (r: seq<real>)
    ensures |r| <= |times|
  {
    if |times| > 0 && times[0] < start then Trimmed(times[1..], start) else times
  }

  lemma {:induction false} TrimmedIsTail(times: seq<real>, start: real)
    ensures
      var cut := |times| - |Trimmed(times, start)|;
      && Trimmed(times, start) == times[cut..]
      && (forall i :: 0 <= i < cut ==> times[i] < start)
      && (cut < |times| ==> times[cut] >= start)
  {
    if |times| > 0 && times[0] < start {
      TrimmedIsTail(times[1..], start);
    }
  }

  predicate IsStale(times: seq<real>, start: real)
  {
    |times| == 0 || times[|times| - 1] < start
  }

  function Stale(t: Table<seq<real>>, start: real): set<Address>
  {
    set k | k in t.at && IsStale(t.at[k], start)
  }

  function Expired(t: Table<real>, now: real): set<Address>
  {
    set k | k in t.at && t.at[k] <= now
  }

  /** The oldest entries beyond one less than the cap. */
  function Excess<V>(t: Table<V>): set<Address>
  {
    if |t.keys| >= MAX_TRACKED then Members(t.keys[..|t.keys| - MAX_TRACKED + 1]) else {}
  }

  function Refreshed(s: Limiter, now: real): Limiter
  {
    Limiter(Dropped(s.failures, Stale(s.failures, now - WINDOW)), Dropped(s.locked, Expired(s.locked, now)))
  }

  function Pruned(s: Limiter, now: real): Limiter
  {
    var fresher := Refreshed(s, now);
    Limiter(Dropped(fresher.failures, Excess(fresher.failures)),
            Dropped(fresher.locked, Excess(fresher.locked)))
  }

  predicate NeedsRoom(s: Limiter, ip: Address)
  {
    ip !in s.failures.at && (|s.failures.keys| >= MAX_TRACKED || |s.locked.keys| >= MAX_TRACKED)
  }

  /** The addresses that a failure of `ip` pushes out of a table for want of room. */
  function Evicted(s: Limiter, ip: Address, now: real): set<Address>
  {
    if NeedsRoom(s, ip) then
      var fresher := Refreshed(s, now);
      Excess(fresher.failures) + Excess(fresher.locked)
    else {}
  }

  function Times(t: Table<seq<real>>, ip: Address): seq<real>
  {
    if ip in t.at then t.at[ip] else []
  }

  function Recorded(s: Limiter, ip: Address, now: real): Limiter
  {
    Counted(if NeedsRoom(s, ip) then Pruned(s, now) else s, ip, now)
  }

  /** record_login_failure once there is room. */
  function Counted(s: Limiter, ip: Address, now: real): Limiter
  {
    var times := Trimmed(Times(s.failures, ip) + [now], now - WINDOW);
    Limiter(Put(s.failures, ip, times),
            if |times| >= THRESHOLD then Put(s.locked, ip, now + LOCKOUT) else s.locked)
  }

  function Until(s: Limiter, ip: Address): real
  {
    if ip in s.locked.at then s.locked.at[ip] else 0.0
  }

  /** The answer of is_login_locked_out. */
  predicate LockedOut(s: Limiter, ip: Address, now: real)
  {
    now < Until(s, ip) || WindowFull(s, ip, now)
  }

  /** Its second test, "in case a lockout was never set". */
  predicate WindowFull(s: Limiter, ip: Address, now: real)
  {
    |Trimmed(Times(s.failures, ip), now - WINDOW)| >= THRESHOLD
  }

  /** What is_login_locked_out leaves behind. */
  function Checked(s: Limiter, ip: Address, now: real): Limiter
  {
    if now < Until(s, ip) then s else
    Limiter(
      if ip in s.failures.at then Put(s.failures, ip, Trimmed(s.failures.at[ip], now - WINDOW)) else s.failures,
      if ip in s.locked.at then Dropped(s.locked, {ip}) else s.locked)
  }

  function Cleared(s: Limiter, ip: Address): Limiter
  {
    Limiter(Dropped(s.failures, {ip}), Dropped(s.locked, {ip}))
  }

  lemma {:induction false} WithoutMembers(keys: seq<Address>, gone: set<Address>)
    ensures forall k :: k in Without(keys, gone) <==> k in keys && k !in gone
  {
    if |keys| > 0 {
      var front, last := keys[..|keys| - 1], keys[|keys| - 1];
      WithoutMembers(front, gone);
      assert keys == front + [last];
    }
  }

  lemma {:induction false} WithoutPush(keys: seq<Address>, k: Address, gone: set<Address>)
    ensures Without(keys + [k], gone) == Without(keys, gone) + if k in gone then [] else [k]
  {
    assert (keys + [k])[..|keys|] == keys;
  }

  lemma {:induction false} WithoutTwice(keys: seq<Address>, a: set<Address>, b: set<Address>)
    ensures Without(Without(keys, a), b) == Without(keys, a + b)
  {
    if |keys| > 0 {
      var front, last := keys[..|keys| - 1], keys[|keys| - 1];
      WithoutTwice(front, a, b);
      WithoutPush(Without(front, a), last, b);
      if last in a { assert Without(front, a) + [] == Without(front, a); }
    }
  }

  lemma {:induction false} DroppedTwice<V>(t: Table<V>, a: set<Address>, b: set<Address>)
    ensures Dropped(Dropped(t, a), b) == Dropped(t, a + b)
  {
    WithoutTwice(t.keys, a, b);
  }

  lemma {:induction false} WithoutNone(keys: seq<Address>, gone: set<Address>)
    requires forall k :: k in keys ==> k !in gone
    ensures Without(keys, gone) == keys
  {
    if |keys| > 0 {
      WithoutNone(keys[..|keys| - 1], gone);
      assert keys == keys[..|keys| - 1] + [keys[|keys| - 1]];
    }
  }

  lemma {:induction false} WithoutIsDistinct(keys: seq<Address>, gone: set<Address>)
    requires forall i, j :: 0 <= i < j < |keys| ==> keys[i] != keys[j]
    ensures forall i, j :: 0 <= i < j < |Without(keys, gone)| ==> Without(keys, gone)[i] != Without(keys, gone)[j]
  {
    if |keys| > 0 {
      var end := |keys| - 1;
      WithoutIsDistinct(keys[..end], gone);
      WithoutMembers(keys[..end], gone);
    }
  }

  lemma {:induction false} DroppedIsTable<V>(t: Table<V>, gone: set<Address>)
    requires IsTable(t)
    ensures IsTable(Dropped(t, gone)) && |Dropped(t, gone).keys| <= |t.keys|
  {
    WithoutIsDistinct(t.keys, gone);
    WithoutMembers(t.keys, gone);
  }

  lemma {:induction false} PutIsTable<V>(t: Table<V>, k: Address, v: V)
    requires IsTable(t)
    ensures IsTable(Put(t, k, v))
    ensures |Put(t, k, v).keys| == |t.keys| + if k in t.at then 0 else 1
  {
  }

  /** A cleared address is let in at once; for every other one nothing changes. */
  lemma ClearedFreesOnly(s: Limiter, ip: Address, a: Address, now: real)
    requires now >= 0.0
    ensures LockedOut(Cleared(s, ip), a, now) <==> a != ip && LockedOut(s, a, now)
  {
    var c := Cleared(s, ip);
    if a == ip {
      assert Times(c.failures, a) == [] && Until(c, a) == 0.0;
    } else {
      assert Times(c.failures, a) == Times(s.failures, a) && Until(c, a) == Until(s, a);
    }
  }

  class RateLimiter {
    var failures: Table<seq<real>>
    var lockedUntil: Table<real>

    ghost function View(): Limiter
      reads this
    {
      Limiter(failures, lockedUntil)
    }

    ghost predicate Valid()
      reads this
    {
      IsTable(failures) && IsTable(lockedUntil)
    }

    constructor ()
      ensures Valid() && View() == EMPTY
    {
      failures, lockedUntil := Table([], map[]), Table([], map[]);
    }

    method PopStale(times: seq<real>, start: real) returns (left: seq<real>)
      ensures left == Trimmed(times, start)
    {
      left := times;
      while |left| > 0 && left[0] < start
        invariant Trimmed(left, start) == Trimmed(times, start)
      {
        left := left[1..];
      }
    }

    method IsLoginLockedOut(ip: Address, now: real) returns (answer: bool)
      requires Valid()
      modifies this
      ensures Valid()
      ensures View() == Checked(old(View()), ip, now)
      ensures answer == LockedOut(old(View()), ip, now)
    {
      var until := if ip in lockedUntil.at then lockedUntil.at[ip] else 0.0;
      if now < until { return true; }
      if ip in lockedUntil.at && lockedUntil.at[ip] <= now {
        DroppedIsTable(lockedUntil, {ip});
        lockedUntil := Dropped(lockedUntil, {ip});
      }
      if ip !in failures.at { return false; }
      var times := PopStale(failures.at[ip], now - WINDOW);
      PutIsTable(failures, ip, times);
      failures := Put(failures, ip, times);
      answer := |times| >= THRESHOLD;
    }

    method PruneRateLimitState(now: real)
      requires Valid()
      modifies this
      ensures Valid() && View() == Pruned(old(View()), now)
    {
      var stale: seq<Address> := [];
      for i := 0 to |failures.keys|
        invariant forall k :: k in stale <==>
                    k in failures.keys[..i] && IsStale(failures.at[k], now - WINDOW)
      {
        var k := failures.keys[i];
        if IsStale(failures.at[k], now - WINDOW) { stale := stale + [k]; }
      }
      assert Members(stale) == Stale(failures, now - WINDOW);
      failures := DropAll(failures, stale);
      var expired: seq<Address> := [];
      for i := 0 to |lockedUntil.keys|
        invariant forall k :: k in expired <==> k in lockedUntil.keys[..i] && lockedUntil.at[k] <= now
      {
        var k := lockedUntil.keys[i];
        if lockedUntil.at[k] <= now { expired := expired + [k]; }
      }
      assert Members(expired) == Expired(lockedUntil, now);
      lockedUntil := DropAll(lockedUntil, expired);
      assert View() == Refreshed(old(View()), now);
      failures := DropAll(failures, OldestBeyondCap(failures));
      lockedUntil := DropAll(lockedUntil, OldestBeyondCap(lockedUntil));
    }

    static function OldestBeyondCap<V>(t: Table<V>): (r: seq<Address>)
      ensures Members(r) == Excess(t)
    {
      var excess := |t.keys| - MAX_TRACKED + 1;
      t.keys[..if excess > 0 then excess else 0]
    }

    /** `for key in keys: del table[key]` */
    static method DropAll<V>(t: Table<V>, keys: seq<Address>) returns (r: Table<V>)
      requires IsTable(t)
      ensures IsTable(r) && r == Dropped(t, Members(keys))
    {
      r := t;
      WithoutNone(t.keys, {});
      assert t.at - {} == t.at && Members(keys[..0]) == {};
      for i := 0 to |keys|
        invariant r == Dropped(t, Members(keys[..i]))
      {
        DroppedTwice(t, Members(keys[..i]), {keys[i]});
        assert Members(keys[..i + 1]) == Members(keys[..i]) + {keys[i]};
        r := Dropped(r, {keys[i]});
      }
      assert keys[..|keys|] == keys;
      DroppedIsTable(t, Members(keys));
    }

    method RecordLoginFailure(ip: Address, now: real)
      requires Valid()
      modifies this
      ensures Valid() && View() == Recorded(old(View()), ip, now)
    {
      if ip !in failures.at && (|failures.keys| >= MAX_TRACKED || |lockedUntil.keys| >= MAX_TRACKED) {
        PruneRateLimitState(now);
      }
      Count(ip, now);
    }

    method Count(ip: Address, now: real)
      requires Valid()
      modifies this
      ensures Valid() && View() == Counted(old(View()), ip, now)
    {
      var deque: seq<real> := [];
      if ip in failures.at { deque := failures.at[ip]; }
      var times := PopStale(deque + [now], now - WINDOW);
      PutIsTable(failures, ip, times);
      failures := Put(failures, ip, times);
      if |times| >= THRESHOLD {
        PutIsTable(lockedUntil, ip, now + LOCKOUT);
        lockedUntil := Put(lockedUntil, ip, now + LOCKOUT);
      }
    }

    /** Nobody is locked out afterwards but who was before, without this address. */
    method ClearLoginFailures(ip: Address)
      requires Valid()
      modifies this
      ensures Valid() && View() == Cleared(old(View()), ip)
      ensures forall a, now :: now >= 0.0 ==>
        (LockedOut(View(), a, now) <==> a != ip && LockedOut(old(View()), a, now))
    {
      ghost var was := View();
      forall a, now: real | now >= 0.0
        ensures LockedOut(Cleared(was, ip), a, now) <==> a != ip && LockedOut(was, a, now)
      {
        ClearedFreesOnly(was, ip, a, now);
      }
      DroppedIsTable(failures, {ip});
      DroppedIsTable(lockedUntil, {ip});
      failures, lockedUntil := Dropped(failures, {ip}), Dropped(lockedUntil, {ip});
    }
  }
}
