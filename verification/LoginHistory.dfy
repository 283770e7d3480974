/** The rate limiter against the history of failed logins: when an address is locked out, and how
    large the tables can get. */
module LoginHistory {
  import opened Common
  import opened RateLimiter

  /** The number of times within [from, upto]. */
  function Count(h: seq<real>, from: real, upto: real): nat
  {
    if |h| == 0 then 0
    else Count(h[..|h| - 1], from, upto) + if from <= h[|h| - 1] <= upto then 1 else 0
  }

  /** At the time of failure `j` there were enough failures within the window. */
  predicate Trips(h: seq<real>, j: nat)
    requires j < |h|
  {
    Count(h, h[j] - WINDOW, h[j]) >= THRESHOLD
  }

  /** What the limiter is for: within the lockout of some failure that tripped it. */
  ghost predicate ShouldBeLocked(h: seq<real>, now: real)
  {
    exists j :: 0 <= j < |h| && Trips(h, j) && h[j] <= now < h[j] + LOCKOUT
  }

  datatype Event =
    | Fail(ip: Address, now: real)
    | Check(ip: Address, now: real)
    | Clear(ip: Address)

  /** The limiter after some events, the latest clock reading, and two history variables: the
      failures of each address since its last clear, and the addresses that were pushed out of a
      table for want of room since then. */
  datatype Track = Track(s: Limiter, clock: real, failed: map<Address, seq<real>>, evicted: set<Address>)

  function Start(clock: real): Track { Track(EMPTY, clock, map[], {}) }

  function History(t: Track, ip: Address): seq<real>
  {
    if ip in t.failed then t.failed[ip] else []
  }

  function Next(t: Track, e: Event): Track
  {
    match e
    case Fail(ip, now) =>
      Track(Recorded(t.s, ip, now), now, t.failed[ip := History(t, ip) + [now]],
            t.evicted + Evicted(t.s, ip, now))
    case Check(ip, now) => Track(Checked(t.s, ip, now), now, t.failed, t.evicted)
    case Clear(ip) => Track(Cleared(t.s, ip), t.clock, t.failed - {ip}, t.evicted - {ip})
  }

  /** The clock does not go back. */
  predicate Timely(t: Track, e: Event) { e.Clear? || e.now >= t.clock }

  ghost predicate Reachable(start: real, events: seq<Event>)
  {
    forall k {:trigger events[k]} :: 0 <= k < |events| ==> Timely(Run(start, events[..k]), events[k])
  }

  function Run(start: real, events: seq<Event>): Track
  {
    if |events| == 0 then Start(start)
    else Next(Run(start, events[..|events| - 1]), events[|events| - 1])
  }

  // Counting

  lemma {:induction false} CountAppend(a: seq<real>, b: seq<real>, from: real, upto: real)
    ensures Count(a + b, from, upto) == Count(a, from, upto) + Count(b, from, upto)
  {
    if |b| == 0 {
      assert a + b == a;
    } else {
      var c := a + b;
      CountAppend(a, b[..|b| - 1], from, upto);
      assert c[..|c| - 1] == a + b[..|b| - 1] && c[|c| - 1] == b[|b| - 1];
    }
  }

  lemma {:induction false} CountAll(h: seq<real>, from: real, upto: real)
    requires forall i :: 0 <= i < |h| ==> from <= h[i] <= upto
    ensures Count(h, from, upto) == |h|
  {
    if |h| > 0 { CountAll(h[..|h| - 1], from, upto); }
  }

  lemma {:induction false} CountNone(h: seq<real>, from: real, upto: real)
    requires forall i :: 0 <= i < |h| ==> h[i] < from
    ensures Count(h, from, upto) == 0
  {
    if |h| > 0 { CountNone(h[..|h| - 1], from, upto); }
  }

  /** A tail that lies within the window is counted; if the rest lies before, nothing else is. */
  lemma {:induction false} CountTail(h: seq<real>, cut: nat, from: real, upto: real)
    requires cut <= |h| && forall i :: cut <= i < |h| ==> from <= h[i] <= upto
    ensures Count(h, from, upto) >= |h| - cut
    ensures (forall i :: 0 <= i < cut ==> h[i] < from) ==> Count(h, from, upto) == |h| - cut
  {
    CountAppend(h[..cut], h[cut..], from, upto);
    assert h == h[..cut] + h[cut..];
    CountAll(h[cut..], from, upto);
    if forall i :: 0 <= i < cut ==> h[i] < from { CountNone(h[..cut], from, upto); }
  }

  lemma {:induction false} TripsGrows(h: seq<real>, now: real, j: nat)
    requires j < |h|
    ensures Trips(h, j) ==> Trips(h + [now], j)
    ensures h[j] < now ==> (Trips(h, j) <==> Trips(h + [now], j))
  {
    CountAppend(h, [now], h[j] - WINDOW, h[j]);
    assert [now][..0] == [];
  }

  // One address

  function Lock(s: Limiter, ip: Address): Option<real>
  {
    if ip in s.locked.at then Some(s.locked.at[ip]) else None
  }

  ghost predicate IsTail(times: seq<real>, h: seq<real>)
  {
    |times| <= |h| && times == h[|h| - |times|..]
  }

  /** Nothing is kept that did not happen: the deque is a tail of the history, and a lockout
      was set by a failure that tripped it. */
  ghost predicate Sound(times: seq<real>, lock: Option<real>, h: seq<real>)
  {
    && IsTail(times, h)
    && (lock.Some? ==> exists j :: 0 <= j < |h| && Trips(h, j) && lock.value == h[j] + LOCKOUT)
  }

  ghost predicate Outlasts(lock: Option<real>, until: real, clock: real)
  {
    until <= clock || (lock.Some? && lock.value >= until)
  }

  /** Nothing that matters is forgotten: what the deque lacks is out of the window, and every
      lockout still due is in the table. */
  ghost predicate Complete(times: seq<real>, lock: Option<real>, h: seq<real>, clock: real)
  {
    && (forall i :: 0 <= i < |h| - |times| ==> h[i] < clock - WINDOW)
    && (forall j :: 0 <= j < |h| && Trips(h, j) ==> Outlasts(lock, h[j] + LOCKOUT, clock))
  }

  ghost predicate Dated(h: seq<real>, clock: real)
  {
    && (forall i, j :: 0 <= i < j < |h| ==> h[i] <= h[j])
    && (forall i :: 0 <= i < |h| ==> h[i] <= clock)
  }

  lemma {:induction false} LaterIsComplete(times: seq<real>, lock: Option<real>, h: seq<real>, clock: real, now: real)
    requires Complete(times, lock, h, clock) && clock <= now
    ensures Complete(times, lock, h, now)
  {
  }

  function Unexpired(lock: Option<real>, now: real): Option<real>
  {
    if lock.Some? && lock.value <= now then None else lock
  }

  /** Dropping a stale deque and an expired lockout loses nothing. */
  lemma {:induction false} RefreshKeeps(times: seq<real>, lock: Option<real>, h: seq<real>, now: real)
    requires Dated(h, now) && Sound(times, lock, h) && Complete(times, lock, h, now)
    ensures
      var left := if IsStale(times, now - WINDOW) then [] else times;
      Sound(left, Unexpired(lock, now), h) && Complete(left, Unexpired(lock, now), h, now)
  {
    var cut := |h| - |times|;
    if IsStale(times, now - WINDOW) && |times| > 0 {
      forall i | cut <= i < |h|
        ensures h[i] < now - WINDOW
      {
        assert times[|times| - 1] == h[|h| - 1];
        assert i < |h| - 1 ==> h[i] <= h[|h| - 1];
      }
    }
    assert h[|h|..] == [];
  }

  /** Trimming a tail of the history leaves the part of it that is in the window. */
  lemma {:induction false} TrimTail(times: seq<real>, h: seq<real>, start: real, now: real)
    requires IsTail(times, h) && Dated(h, now)
    ensures
      var left := Trimmed(times, start);
      && IsTail(left, h)
      && (forall i :: |h| - |left| <= i < |h| ==> start <= h[i] <= now)
      && (forall i :: |h| - |times| <= i < |h| - |left| ==> h[i] < start)
  {
    TrimmedIsTail(times, start);
    var left := Trimmed(times, start);
    TailOfTail(left, times, h);
    var cut := |h| - |left|;
    forall i | cut <= i < |h|
      ensures start <= h[i]
    {
      assert h[cut] == left[0] == times[|times| - |left|];
      assert i > cut ==> h[cut] <= h[i];
    }
    forall i | |h| - |times| <= i < cut
      ensures h[i] < start
    {
      assert h[i] == times[i - (|h| - |times|)];
    }
  }

  lemma {:induction false} DatedGrows(h: seq<real>, now: real)
    requires Dated(h, now)
    ensures Dated(h + [now], now)
  {
  }

  function InWindow(h: seq<real>, now: real): nat { Count(h + [now], now - WINDOW, now) }

  /** The deque after a failure: how its length relates to the failures in the window. */
  lemma {:induction false} DequeCounts(times: seq<real>, h: seq<real>, now: real)
    requires Dated(h, now) && IsTail(times, h)
    ensures
      var left := Trimmed(times + [now], now - WINDOW);
      && IsTail(left, h + [now]) && |left| <= InWindow(h, now)
      && ((forall i :: 0 <= i < |h| - |times| ==> h[i] < now - WINDOW) ==>
            |left| == InWindow(h, now)
            && forall i :: 0 <= i < |h| + 1 - |left| ==> (h + [now])[i] < now - WINDOW)
  {
    var grown := h + [now];
    DatedGrows(h, now);
    TailGrows(times, h, now);
    TrimTail(times + [now], grown, now - WINDOW, now);
    CountTail(grown, |grown| - |Trimmed(times + [now], now - WINDOW)|, now - WINDOW, now);
  }

  /** The lockouts due after a failure that sets one exactly when it trips. */
  lemma {:induction false} LockOutlasts(lock: Option<real>, h: seq<real>, now: real, j: nat)
    requires Dated(h, now) && j <= |h| && Trips(h + [now], j)
    requires forall i :: 0 <= i < |h| && Trips(h, i) ==> Outlasts(lock, h[i] + LOCKOUT, now)
    ensures Outlasts(if InWindow(h, now) >= THRESHOLD then Some(now + LOCKOUT) else lock,
                     (h + [now])[j] + LOCKOUT, now)
  {
    if j < |h| && h[j] < now {
      TripsGrows(h, now, j);
      assert (h + [now])[j] == h[j];
    } else {
      assert (h + [now])[j] == now;
    }
  }

  /** A failure is recorded without inventing a lockout and, if nothing was lost so far, without
      losing one. */
  lemma {:induction false} CountKeeps(times: seq<real>, lock: Option<real>, h: seq<real>, now: real)
    requires Dated(h, now) && Sound(times, lock, h)
    ensures
      var left := Trimmed(times + [now], now - WINDOW);
      var next := if |left| >= THRESHOLD then Some(now + LOCKOUT) else lock;
      && Dated(h + [now], now) && Sound(left, next, h + [now])
      && (Complete(times, lock, h, now) ==> Complete(left, next, h + [now], now))
  {
    DatedGrows(h, now);
    DequeCounts(times, h, now);
    SoundGrows(lock, h, now);
    NewTrips(h, now);
    if Complete(times, lock, h, now) {
      forall j | 0 <= j <= |h| && Trips(h + [now], j)
        ensures Outlasts(if InWindow(h, now) >= THRESHOLD then Some(now + LOCKOUT) else lock,
                         (h + [now])[j] + LOCKOUT, now)
      {
        LockOutlasts(lock, h, now, j);
      }
    }
  }

  lemma {:induction false} NewTrips(h: seq<real>, now: real)
    ensures Trips(h + [now], |h|) <==> InWindow(h, now) >= THRESHOLD
    ensures (h + [now])[|h|] == now
  {
  }

  lemma {:induction false} TailGrows(times: seq<real>, h: seq<real>, now: real)
    requires IsTail(times, h)
    ensures IsTail(times + [now], h + [now])
  {
  }

  lemma {:induction false} TailOfTail(a: seq<real>, b: seq<real>, h: seq<real>)
    requires IsTail(a, b) && IsTail(b, h)
    ensures IsTail(a, h)
  {
  }

  lemma {:induction false} SoundGrows(lock: Option<real>, h: seq<real>, now: real)
    requires lock.Some? ==> exists j :: 0 <= j < |h| && Trips(h, j) && lock.value == h[j] + LOCKOUT
    ensures lock.Some? ==>
      exists j :: 0 <= j < |h + [now]| && Trips(h + [now], j) && lock.value == (h + [now])[j] + LOCKOUT
  {
    if lock.Some? {
      var j :| 0 <= j < |h| && Trips(h, j) && lock.value == h[j] + LOCKOUT;
      TripsGrows(h, now, j);
      assert (h + [now])[j] == h[j];
    }
  }

  /** A look at the window trims the deque and drops an expired lockout, which loses nothing. */
  lemma {:induction false} CheckKeeps(times: seq<real>, lock: Option<real>, h: seq<real>, now: real)
    requires Dated(h, now) && Sound(times, lock, h)
    ensures
      var left := Trimmed(times, now - WINDOW);
      && Sound(left, lock, h) && Sound(left, Unexpired(lock, now), h)
      && (Complete(times, lock, h, now) ==> Complete(left, Unexpired(lock, now), h, now))
  {
    TrimTail(times, h, now - WINDOW, now);
  }

  /** A full window at `now` means its last failure tripped the limiter, well within a lockout. */
  lemma {:induction false} FullWindowTrips(times: seq<real>, h: seq<real>, now: real)
    requires Dated(h, now) && IsTail(times, h)
    requires |Trimmed(times, now - WINDOW)| >= THRESHOLD
    ensures Trips(h, |h| - 1) && now < h[|h| - 1] + LOCKOUT
  {
    TrimTail(times, h, now - WINDOW, now);
    var cut, last := |h| - |Trimmed(times, now - WINDOW)|, h[|h| - 1];
    forall i | cut <= i < |h|
      ensures now - WINDOW <= h[i] <= last
    {
      assert i < |h| - 1 ==> h[i] <= h[|h| - 1];
    }
    CountTail(h, cut, now - WINDOW, last);
    CountWidens(h, now - WINDOW, last - WINDOW, last);
  }

  lemma {:induction false} CountWidens(h: seq<real>, from: real, wider: real, upto: real)
    requires wider <= from
    ensures Count(h, from, upto) <= Count(h, wider, upto)
  {
    if |h| > 0 { CountWidens(h[..|h| - 1], from, wider, upto); }
  }

  /** The answer for one address. */
  lemma {:induction false} AnswerFor(s: Limiter, ip: Address, h: seq<real>, now: real)
    requires 0.0 <= now && Dated(h, now) && Sound(Times(s.failures, ip), Lock(s, ip), h)
    ensures LockedOut(s, ip, now) ==> ShouldBeLocked(h, now)
    ensures Complete(Times(s.failures, ip), Lock(s, ip), h, now) ==>
      (LockedOut(s, ip, now) <==> ShouldBeLocked(h, now))
      && (WindowFull(s, ip, now) ==> now < Until(s, ip))
  {
    var times, lock := Times(s.failures, ip), Lock(s, ip);
    if WindowFull(s, ip, now) {
      FullWindowTrips(times, h, now);
      assert h[|h| - 1] <= now;
    } else if LockedOut(s, ip, now) {
      assert lock.Some?;
    }
  }

  // All addresses

  ghost predicate Holds(t: Track, ip: Address)
  {
    var times, lock, h := Times(t.s.failures, ip), Lock(t.s, ip), History(t, ip);
    && Dated(h, t.clock) && Sound(times, lock, h)
    && (ip !in t.evicted ==> Complete(times, lock, h, t.clock))
  }

  lemma {:induction false} RefreshedAt(s: Limiter, ip: Address, now: real)
    ensures Times(Refreshed(s, now).failures, ip)
      == if IsStale(Times(s.failures, ip), now - WINDOW) then [] else Times(s.failures, ip)
    ensures Lock(Refreshed(s, now), ip) == Unexpired(Lock(s, ip), now)
  {
  }

  lemma {:induction false} DroppedAt(t: Table<seq<real>>, l: Table<real>, ip: Address,
      a: set<Address>, b: set<Address>)
    ensures Times(Dropped(t, a), ip) == if ip in a then [] else Times(t, ip)
    ensures Lock(Limiter(Dropped(t, a), Dropped(l, b)), ip) == if ip in b then None else Lock(Limiter(t, l), ip)
  {
  }

  /** Making room loses nothing of an address that is not pushed out. */
  lemma {:induction false} PruneKeeps(s: Limiter, ip: Address, h: seq<real>, now: real, clock: real)
    requires Dated(h, clock) && clock <= now && Sound(Times(s.failures, ip), Lock(s, ip), h)
    ensures Dated(h, now) && Sound(Times(Pruned(s, now).failures, ip), Lock(Pruned(s, now), ip), h)
    ensures
      var fresher := Refreshed(s, now);
      Complete(Times(s.failures, ip), Lock(s, ip), h, clock)
      && ip !in Excess(fresher.failures) && ip !in Excess(fresher.locked) ==>
        Complete(Times(Pruned(s, now).failures, ip), Lock(Pruned(s, now), ip), h, now)
  {
    var fresher := Refreshed(s, now);
    RefreshedAt(s, ip, now);
    DroppedAt(fresher.failures, fresher.locked, ip, Excess(fresher.failures), Excess(fresher.locked));
    assert h[|h|..] == [];
    if Complete(Times(s.failures, ip), Lock(s, ip), h, clock) {
      LaterIsComplete(Times(s.failures, ip), Lock(s, ip), h, clock, now);
      RefreshKeeps(Times(s.failures, ip), Lock(s, ip), h, now);
    }
  }

  /** The state a failure of `ip` is counted in. */
  function WithRoom(s: Limiter, ip: Address, now: real): Limiter
  {
    if NeedsRoom(s, ip) then Pruned(s, now) else s
  }

  lemma {:induction false} RoomKeeps(t: Track, ip: Address, other: Address, now: real)
    requires Holds(t, other) && t.clock <= now
    ensures
      var p, h := WithRoom(t.s, ip, now), History(t, other);
      && Dated(h, now) && Sound(Times(p.failures, other), Lock(p, other), h)
      && (other !in t.evicted + Evicted(t.s, ip, now) ==>
            Complete(Times(p.failures, other), Lock(p, other), h, now))
  {
    PruneKeeps(t.s, other, History(t, other), now, t.clock);
    if other !in t.evicted {
      LaterIsComplete(Times(t.s.failures, other), Lock(t.s, other), History(t, other), t.clock, now);
    }
  }

  lemma {:induction false} CountedAt(s: Limiter, ip: Address, now: real)
    ensures
      var left := Trimmed(Times(s.failures, ip) + [now], now - WINDOW);
      && Times(Counted(s, ip, now).failures, ip) == left
      && Lock(Counted(s, ip, now), ip) == if |left| >= THRESHOLD then Some(now + LOCKOUT) else Lock(s, ip)
    ensures forall other :: other != ip ==>
      Times(Counted(s, ip, now).failures, other) == Times(s.failures, other)
      && Lock(Counted(s, ip, now), other) == Lock(s, other)
  {
  }

  lemma {:induction false} FailHolds(t: Track, ip: Address, now: real, other: Address)
    requires Holds(t, other) && t.clock <= now
    ensures Holds(Next(t, Fail(ip, now)), other)
  {
    var p := WithRoom(t.s, ip, now);
    RoomKeeps(t, ip, other, now);
    CountedAt(p, ip, now);
    if other == ip { CountKeeps(Times(p.failures, ip), Lock(p, ip), History(t, ip), now); }
  }

  lemma {:induction false} CheckedAt(s: Limiter, ip: Address, now: real)
    ensures now >= Until(s, ip) ==>
      Times(Checked(s, ip, now).failures, ip) == Trimmed(Times(s.failures, ip), now - WINDOW)
      && Lock(Checked(s, ip, now), ip) == Unexpired(Lock(s, ip), now)
    ensures now < Until(s, ip) ==> Checked(s, ip, now) == s
    ensures forall other :: other != ip ==>
      Times(Checked(s, ip, now).failures, other) == Times(s.failures, other)
      && Lock(Checked(s, ip, now), other) == Lock(s, other)
  {
  }

  lemma {:induction false} CheckHolds(t: Track, ip: Address, now: real, other: Address)
    requires Holds(t, other) && t.clock <= now
    ensures Holds(Next(t, Check(ip, now)), other)
  {
    var times, lock, h := Times(t.s.failures, other), Lock(t.s, other), History(t, other);
    CheckedAt(t.s, ip, now);
    if other !in t.evicted { LaterIsComplete(times, lock, h, t.clock, now); }
    if other == ip { CheckKeeps(times, lock, h, now); }
  }

  lemma {:induction false} ClearHolds(t: Track, ip: Address, other: Address)
    requires Holds(t, other)
    ensures Holds(Next(t, Clear(ip)), other)
  {
    DroppedAt(t.s.failures, t.s.locked, other, {ip}, {ip});
  }

  lemma {:induction false} HoldsAlways(start: real, events: seq<Event>, ip: Address)
    requires Reachable(start, events)
    ensures Holds(Run(start, events), ip)
    ensures start <= Run(start, events).clock
  {
    if |events| > 0 {
      var front, e := events[..|events| - 1], events[|events| - 1];
      assert forall k :: 0 <= k < |front| ==> front[k] == events[k] && front[..k] == events[..k];
      HoldsAlways(start, front, ip);
      var t := Run(start, front);
      assert Timely(t, e);
      match e
      case Fail(other, now) => FailHolds(t, other, now, ip);
      case Check(other, now) => CheckHolds(t, other, now, ip);
      case Clear(other) => ClearHolds(t, other, ip);
    }
  }

  /** MAIN: in every run, an address that was not pushed out since its last clear is answered "locked
      out" exactly while it is within the lockout of a failure that tripped the limiter; the
      second test of the check then never decides. */
  lemma {:induction false} LockedIffTripped(start: real, events: seq<Event>, ip: Address, now: real)
    requires 0.0 <= start && Reachable(start, events) && Run(start, events).clock <= now
    requires ip !in Run(start, events).evicted
    ensures
      var t := Run(start, events);
      && (LockedOut(t.s, ip, now) <==> ShouldBeLocked(History(t, ip), now))
      && (WindowFull(t.s, ip, now) ==> now < Until(t.s, ip))
  {
    var t := Run(start, events);
    HoldsAlways(start, events, ip);
    LaterIsComplete(Times(t.s.failures, ip), Lock(t.s, ip), History(t, ip), t.clock, now);
    AnswerFor(t.s, ip, History(t, ip), now);
  }

  /** MAIN: pushing addresses out can only end lockouts early: no address is ever locked out that its
      own failures do not lock out. */
  lemma {:induction false} NeverLockedWithoutCause(start: real, events: seq<Event>, ip: Address, now: real)
    requires 0.0 <= start && Reachable(start, events) && Run(start, events).clock <= now
    requires LockedOut(Run(start, events).s, ip, now)
    ensures ShouldBeLocked(History(Run(start, events), ip), now)
  {
    var t := Run(start, events);
    HoldsAlways(start, events, ip);
    AnswerFor(t.s, ip, History(t, ip), now);
  }

  // Addresses that are pushed out

  /** The address keeps its place in a table that makes room: it is not among those dropped as
      out of date, and fewer than 9999 of the others that are not come after it. */
  ghost predicate KeepsPlace(keys: seq<Address>, gone: set<Address>, ip: Address)
  {
    ip !in gone
    && exists i :: 0 <= i < |keys| && keys[i] == ip && |Without(keys[i + 1..], gone)| < MAX_TRACKED - 1
  }

  /** What a failure of another address leaves of a lockout: all of it if that is known already or
      both tables have room; otherwise a lockout entry or a full deque must keep its place. */
  ghost predicate KeepsLockout(s: Limiter, ip: Address, other: Address, now: real)
  {
    || other in s.failures.at
    || (|s.failures.keys| < MAX_TRACKED && |s.locked.keys| < MAX_TRACKED)
    || (now < Until(s, ip) && KeepsPlace(s.locked.keys, Over(s, now), ip))
    || (WindowFull(s, ip, now) && KeepsPlace(s.failures.keys, Old(s, now), ip))
  }

  /** The lockouts that are over. */
  function Over(s: Limiter, now: real): set<Address> { set k | k in s.locked.at && s.locked.at[k] <= now }

  /** The addresses without a failure in the last 600 seconds. */
  function Old(s: Limiter, now: real): set<Address>
  {
    set k | k in s.failures.at && forall i :: 0 <= i < |s.failures.at[k]| ==> s.failures.at[k][i] < now - 600.0
  }

  lemma {:induction false} DistinctPlace(keys: seq<Address>, i: nat, j: nat)
    requires forall a, b :: 0 <= a < b < |keys| ==> keys[a] != keys[b]
    requires i < |keys| && j < |keys| && keys[i] == keys[j]
    ensures i == j
  {
  }

  lemma {:induction false} WithoutAround(keys: seq<Address>, gone: set<Address>, i: nat)
    requires i < |keys| && keys[i] !in gone
    ensures Without(keys, gone) == Without(keys[..i], gone) + [keys[i]] + Without(keys[i + 1..], gone)
  {
    assert keys == keys[..i + 1] + keys[i + 1..] && keys[..i + 1][..i] == keys[..i];
    WithoutSplit(keys[..i + 1], keys[i + 1..], gone);
  }

  lemma {:induction false} IsExcessIff(left: seq<Address>, p: nat)
    requires p < |left| && forall a, b :: 0 <= a < b < |left| ==> left[a] != left[b]
    ensures left[p] in (if |left| >= MAX_TRACKED then Members(left[..|left| - MAX_TRACKED + 1]) else {})
      <==> |left| - 1 - p >= MAX_TRACKED - 1
  {
    PlaceInFront(left, p);
  }

  /** The oldest beyond the cap are those with 9999 or more after them. */
  lemma {:induction false} ExcessIff<V>(t: Table<V>, gone: set<Address>, ip: Address)
    requires IsTable(t) && ip in t.at && ip !in gone
    ensures ip !in Excess(Dropped(t, gone)) <==> KeepsPlace(t.keys, gone, ip)
  {
    var i: nat :| i < |t.keys| && t.keys[i] == ip;
    WithoutAround(t.keys, gone, i);
    WithoutIsDistinct(t.keys, gone);
    IsExcessIff(Without(t.keys, gone), |Without(t.keys[..i], gone)|);
    OnePlace(t.keys, gone, i);
  }

  lemma {:induction false} OnePlace(keys: seq<Address>, gone: set<Address>, i: nat)
    requires forall a, b :: 0 <= a < b < |keys| ==> keys[a] != keys[b]
    requires i < |keys| && keys[i] !in gone
    ensures KeepsPlace(keys, gone, keys[i]) <==> |Without(keys[i + 1..], gone)| < MAX_TRACKED - 1
  {
    forall j | 0 <= j < |keys| && keys[j] == keys[i] ensures j == i { DistinctPlace(keys, i, j); }
  }

  lemma {:induction false} PlaceInFront(left: seq<Address>, p: nat)
    requires p < |left| && forall a, b :: 0 <= a < b < |left| ==> left[a] != left[b]
    ensures forall n: nat :: n <= |left| ==> (left[p] in Members(left[..n]) <==> p < n)
  {
    forall n: nat | n <= |left| ensures left[p] in Members(left[..n]) <==> p < n {
      if p < n { assert left[..n][p] == left[p]; }
      if left[p] in left[..n] {
        var j: nat :| j < n && left[..n][j] == left[p];
        DistinctPlace(left, p, j);
      }
    }
  }

  /** A deque that is dropped as stale has nothing in the window. */
  lemma {:induction false} StaleIsEmptyWindow(times: seq<real>, h: seq<real>, now: real)
    requires Dated(h, now) && IsTail(times, h) && IsStale(times, now - WINDOW)
    ensures Trimmed(times, now - WINDOW) == []
  {
    TrimTail(times, h, now - WINDOW, now);
  }

  lemma {:induction false} PrunedLockout(s: Limiter, ip: Address, h: seq<real>, now: real)
    requires 0.0 <= now && Dated(h, now) && IsTail(Times(s.failures, ip), h)
    requires IsTable(s.failures) && IsTable(s.locked)
    ensures LockedOut(Pruned(s, now), ip, now)
      <==> (now < Until(s, ip) && KeepsPlace(s.locked.keys, Expired(s.locked, now), ip))
           || (WindowFull(s, ip, now) && KeepsPlace(s.failures.keys, Stale(s.failures, now - WINDOW), ip))
  {
    if now < Until(s, ip) { ExcessIff(s.locked, Expired(s.locked, now), ip); }
    if WindowFull(s, ip, now) && ip !in Stale(s.failures, now - WINDOW) {
      ExcessIff(s.failures, Stale(s.failures, now - WINDOW), ip);
    }
    var fresher := Refreshed(s, now);
    RefreshedAt(s, ip, now);
    DroppedAt(fresher.failures, fresher.locked, ip, Excess(fresher.failures), Excess(fresher.locked));
    UntilIsLock(s, ip, now);
    UntilIsLock(Pruned(s, now), ip, now);
    if IsStale(Times(s.failures, ip), now - WINDOW) { StaleIsEmptyWindow(Times(s.failures, ip), h, now); }
  }

  lemma {:induction false} UntilIsLock(s: Limiter, ip: Address, now: real)
    requires 0.0 <= now
    ensures now < Until(s, ip) <==> Lock(s, ip).Some? && now < Lock(s, ip).value
  {
  }

  lemma {:induction false} RecordedLockout(s: Limiter, ip: Address, other: Address, h: seq<real>, now: real)
    requires 0.0 <= now && Dated(h, now) && IsTail(Times(s.failures, ip), h)
    requires IsTable(s.failures) && IsTable(s.locked) && Old(s, now) == Stale(s.failures, now - WINDOW)
    requires ip != other && LockedOut(s, ip, now)
    ensures LockedOut(Recorded(s, other, now), ip, now) <==> KeepsLockout(s, ip, other, now)
  {
    var p := WithRoom(s, other, now);
    CountedAt(p, other, now);
    UntilIsLock(p, ip, now);
    UntilIsLock(Counted(p, other, now), ip, now);
    assert Over(s, now) == Expired(s.locked, now);
    if NeedsRoom(s, other) { PrunedLockout(s, ip, h, now); }
  }

  /** The test on the last time of a deque finds those with nothing in the window: deques ascend. */
  lemma {:induction false} OldIsStale(t: Track, now: real)
    requires (forall k :: Holds(t, k)) && t.clock <= now
    ensures Old(t.s, now) == Stale(t.s.failures, now - WINDOW)
  {
    forall k | k in t.s.failures.at
      ensures IsStale(t.s.failures.at[k], now - WINDOW)
        <==> forall i :: 0 <= i < |t.s.failures.at[k]| ==> t.s.failures.at[k][i] < now - 600.0
    {
      assert Holds(t, k);
      TailIsDated(t.s.failures.at[k], History(t, k), t.clock);
    }
  }

  lemma {:induction false} TailIsDated(times: seq<real>, h: seq<real>, clock: real)
    requires IsTail(times, h) && Dated(h, clock)
    ensures forall i :: 0 <= i < |times| ==> times[i] <= times[|times| - 1]
  {
    var cut := |h| - |times|;
    forall i | 0 <= i < |times| ensures times[i] <= times[|times| - 1] {
      assert times[i] == h[cut + i] && times[|times| - 1] == h[|h| - 1];
      assert cut + i < |h| - 1 ==> h[cut + i] <= h[|h| - 1];
    }
  }

  /** What making room leaves: of each table the entries that are not out of date and have fewer
      than 9999 such entries after them, as they are. */
  lemma {:induction false} PruneIsExact(s: Limiter, now: real, k: Address)
    requires IsTable(s.failures) && IsTable(s.locked)
    ensures
      var p := Pruned(s, now);
      && (k in p.failures.at <==>
            k in s.failures.at && KeepsPlace(s.failures.keys, Stale(s.failures, now - WINDOW), k))
      && (k in p.locked.at <==> k in s.locked.at && KeepsPlace(s.locked.keys, Over(s, now), k))
      && (k in p.failures.at ==> p.failures.at[k] == s.failures.at[k])
      && (k in p.locked.at ==> p.locked.at[k] == s.locked.at[k])
  {
    assert Over(s, now) == Expired(s.locked, now);
    if k in s.failures.at && k !in Stale(s.failures, now - WINDOW) {
      ExcessIff(s.failures, Stale(s.failures, now - WINDOW), k);
    }
    if k in s.locked.at && k !in Expired(s.locked, now) { ExcessIff(s.locked, Expired(s.locked, now), k); }
  }

  /** A failure pushes out those that are neither stale nor expired but do not keep their place, and
      only where room has to be made for a new address. */
  lemma {:induction false} EvictedIff(s: Limiter, ip: Address, now: real, k: Address)
    requires IsTable(s.failures) && IsTable(s.locked)
    ensures
      var stale := Stale(s.failures, now - WINDOW);
      k in Evicted(s, ip, now) <==>
        && ip !in s.failures.at && (|s.failures.keys| >= MAX_TRACKED || |s.locked.keys| >= MAX_TRACKED)
        && ((k in s.failures.at && k !in stale && !KeepsPlace(s.failures.keys, stale, k))
            || (k in s.locked.at && k !in Over(s, now) && !KeepsPlace(s.locked.keys, Over(s, now), k)))
  {
    var stale := Stale(s.failures, now - WINDOW);
    assert Over(s, now) == Expired(s.locked, now);
    if k in s.failures.at && k !in stale { ExcessIff(s.failures, stale, k); }
    if k in s.locked.at && k !in Over(s, now) { ExcessIff(s.locked, Over(s, now), k); }
    WithoutMembers(s.failures.keys, stale);
    WithoutMembers(s.locked.keys, Over(s, now));
  }

  lemma {:induction false} TablesAreDated(start: real, events: seq<Event>, ip: Address, now: real)
    requires Reachable(start, events) && Run(start, events).clock <= now
    ensures
      var t := Run(start, events);
      && IsTable(t.s.failures) && IsTable(t.s.locked) && Old(t.s, now) == Stale(t.s.failures, now - WINDOW)
      && Dated(History(t, ip), now) && IsTail(Times(t.s.failures, ip), History(t, ip)) && start <= t.clock
  {
    HoldsAlways(start, events, ip);
    TablesStayBounded(start, events);
    forall k ensures Holds(Run(start, events), k) { HoldsAlways(start, events, k); }
    OldIsStale(Run(start, events), now);
    assert Holds(Run(start, events), ip);
  }

  /** MAIN: exactly when a lockout outlives the failure of another address, in every reachable
      state: iff no room has to be made, or an entry that locks the address out is not among the
      oldest that have to go. Its history asks for the lockout either way. */
  lemma {:induction false} LockoutKeptIff(start: real, events: seq<Event>, ip: Address, other: Address, now: real)
    requires 0.0 <= start && Reachable(start, events) && Run(start, events).clock <= now
    requires ip != other && LockedOut(Run(start, events).s, ip, now)
    ensures
      var t := Run(start, events);
      var t' := Next(t, Fail(other, now));
      && ShouldBeLocked(History(t', ip), now)
      && (LockedOut(t'.s, ip, now) <==> KeepsLockout(t.s, ip, other, now))
  {
    var t := Run(start, events);
    TablesAreDated(start, events, ip, now);
    NeverLockedWithoutCause(start, events, ip, now);
    RecordedLockout(t.s, ip, other, History(t, ip), now);
  }

  // A run in which that happens

  function Addr(i: nat): Address { seq(i, _ => 'a') }

  function Addrs(n: nat): seq<Address> { seq(n, i requires 0 <= i < n => Addr(i)) }

  /** Every one of the first n addresses has failed THRESHOLD times, all at time 0. */
  ghost predicate Flooded(s: Limiter, n: nat)
  {
    && s.failures.keys == Addrs(n) && s.locked.keys == Addrs(n)
    && IsTable(s.failures) && IsTable(s.locked)
    && (forall a :: a in s.failures.at ==> s.failures.at[a] == seq(THRESHOLD, _ => 0.0))
    && (forall a :: a in s.locked.at ==> s.locked.at[a] == LOCKOUT)
  }

  /** The next address has failed k times as well, fewer than it takes. */
  ghost predicate Flooding(s: Limiter, n: nat, k: nat)
  {
    if k == 0 then Flooded(s, n) else
    && s.failures.keys == Addrs(n + 1) && s.locked.keys == Addrs(n)
    && IsTable(s.failures) && IsTable(s.locked)
    && Times(s.failures, Addr(n)) == seq(k, _ => 0.0)
    && (forall a :: a in s.failures.at && a != Addr(n) ==> s.failures.at[a] == seq(THRESHOLD, _ => 0.0))
    && (forall a :: a in s.locked.at ==> s.locked.at[a] == LOCKOUT)
  }

  lemma {:induction false} AddrsGrow(n: nat)
    ensures Addrs(n + 1) == Addrs(n) + [Addr(n)] && Addr(n) !in Addrs(n)
  {
    forall i | 0 <= i < n ensures Addrs(n)[i] != Addr(n) { assert |Addr(i)| == i && |Addr(n)| == n; }
  }

  lemma {:induction false} CountedTimes(times: seq<real>, k: nat)
    requires times == seq(k, _ => 0.0)
    ensures Trimmed(times + [0.0], 0.0 - WINDOW) == seq(k + 1, _ => 0.0)
  {
    assert times + [0.0] == seq(k + 1, _ => 0.0);
    assert (times + [0.0])[0] == 0.0;
  }

  lemma {:induction false} FloodingStep(s: Limiter, n: nat, k: nat)
    requires n < MAX_TRACKED && k < THRESHOLD && Flooding(s, n, k)
    ensures k + 1 < THRESHOLD ==> Flooding(Recorded(s, Addr(n), 0.0), n, k + 1)
    ensures k + 1 == THRESHOLD ==> Flooded(Recorded(s, Addr(n), 0.0), n + 1)
  {
    AddrsGrow(n);
    var times := Times(s.failures, Addr(n));
    assert times == seq(k, _ => 0.0);
    CountedTimes(times, k);
    assert !NeedsRoom(s, Addr(n));
    PutIsTable(s.failures, Addr(n), seq(k + 1, _ => 0.0));
    PutIsTable(s.locked, Addr(n), LOCKOUT);
  }

  lemma {:induction false} RunPush(start: real, events: seq<Event>, e: Event)
    ensures Run(start, events + [e]) == Next(Run(start, events), e)
    ensures Reachable(start, events) && Timely(Run(start, events), e) ==> Reachable(start, events + [e])
  {
    var all := events + [e];
    assert all[..|events|] == events;
    forall k {:trigger all[k]} | 0 <= k < |events| ensures all[..k] == events[..k] && all[k] == events[k] {
    }
  }

  /** A run at time 0 after which the limiter is so far. */
  ghost predicate FloodedTo(events: seq<Event>, n: nat, k: nat)
  {
    && Reachable(0.0, events) && Run(0.0, events).clock == 0.0
    && (if k < THRESHOLD then Flooding(Run(0.0, events).s, n, k) else Flooded(Run(0.0, events).s, n + 1))
  }

  lemma {:induction false} FloodPush(events: seq<Event>, n: nat, k: nat)
    requires n < MAX_TRACKED && k < THRESHOLD && FloodedTo(events, n, k)
    ensures FloodedTo(events + [Fail(Addr(n), 0.0)], n, k + 1)
  {
    RunPush(0.0, events, Fail(Addr(n), 0.0));
    FloodingStep(Run(0.0, events).s, n, k);
  }

  lemma {:induction false} FloodOne(events: seq<Event>, n: nat, k: nat) returns (more: seq<Event>)
    requires n < MAX_TRACKED && k <= THRESHOLD && FloodedTo(events, n, 0)
    ensures FloodedTo(more, n, k)
  {
    more := events;
    if k > 0 {
      more := FloodOne(events, n, k - 1);
      FloodPush(more, n, k - 1);
      more := more + [Fail(Addr(n), 0.0)];
    }
  }

  /** Ten failures each of n addresses, one address after another. */
  lemma {:induction false} FloodRuns(n: nat) returns (events: seq<Event>)
    requires n <= MAX_TRACKED
    ensures FloodedTo(events, n, 0)
  {
    events := [];
    if n > 0 {
      events := FloodRuns(n - 1);
      events := FloodOne(events, n - 1, THRESHOLD);
    }
  }

  /** With the tables full of fresh entries, the first address is the one that has to go. */
  lemma {:induction false} FirstIsPushedOut(s: Limiter, n: nat)
    requires n == MAX_TRACKED && Flooded(s, n)
    ensures LockedOut(s, Addr(0), 0.0) && !KeepsLockout(s, Addr(0), Addr(n), 0.0)
  {
    AddrsGrow(n);
    assert Addrs(n)[0] == Addr(0);
    NoneIsOld(s);
    HasNoPlace(s.failures.keys, Addr(0));
  }

  /** The first of 10000 distinct keys has 9999 after it. */
  lemma {:induction false} HasNoPlace(keys: seq<Address>, ip: Address)
    requires |keys| == MAX_TRACKED && keys[0] == ip
    requires forall a, b :: 0 <= a < b < |keys| ==> keys[a] != keys[b]
    ensures !KeepsPlace(keys, {}, ip)
  {
    forall i | 0 <= i < |keys| && keys[i] == ip ensures |Without(keys[i + 1..], {})| >= MAX_TRACKED - 1 {
      DistinctPlace(keys, 0, i);
      WithoutNone(keys[1..], {});
    }
  }

  lemma {:induction false} NoneIsOld(s: Limiter)
    requires forall a :: a in s.failures.at ==> s.failures.at[a] == seq(THRESHOLD, _ => 0.0)
    requires forall a :: a in s.locked.at ==> s.locked.at[a] == LOCKOUT
    ensures Old(s, 0.0) == {} && Over(s, 0.0) == {}
  {
    forall a | a in s.failures.at ensures a !in Old(s, 0.0) { assert s.failures.at[a][0] == 0.0; }
  }

  /** After ten failures each of as many addresses as the tables hold, one failure of another
      lets the first address in, which was locked out until then and is due to be. */
  lemma {:induction false} PushedOutIsLetIn()
    ensures exists events, ip, other :: (
      var before, after := Run(0.0, events), Run(0.0, events + [Fail(other, 0.0)]);
      && Reachable(0.0, events + [Fail(other, 0.0)])
      && LockedOut(before.s, ip, 0.0)
      && ShouldBeLocked(History(after, ip), 0.0) && !LockedOut(after.s, ip, 0.0))
  {
    var n := MAX_TRACKED;
    var events := FloodRuns(n);
    FirstIsPushedOut(Run(0.0, events).s, n);
    assert |Addr(0)| == 0 && |Addr(n)| == n;
    LockoutKeptIff(0.0, events, Addr(0), Addr(n), 0.0);
    RunPush(0.0, events, Fail(Addr(n), 0.0));
  }

  // The size of the tables

  function Orphans(s: Limiter): set<Address> { s.locked.at.Keys - s.failures.at.Keys }

  ghost predicate Bounded(s: Limiter)
  {
    && IsTable(s.failures) && IsTable(s.locked)
    && |s.failures.keys| <= MAX_TRACKED
    && |Orphans(s)| <= MAX_TRACKED - 1
  }

  lemma {:induction false} SizeOfKeys(keys: seq<Address>)
    requires forall i, j :: 0 <= i < j < |keys| ==> keys[i] != keys[j]
    ensures |Members(keys)| == |keys|
  {
    if |keys| > 0 {
      var front, last := keys[..|keys| - 1], keys[|keys| - 1];
      SizeOfKeys(front);
      assert last !in front;
      assert Members(keys) == Members(front) + {last};
    }
  }

  lemma {:induction false} TableSize<V>(t: Table<V>)
    requires IsTable(t)
    ensures |t.at.Keys| == |t.keys|
  {
    SizeOfKeys(t.keys);
    assert Members(t.keys) == t.at.Keys;
  }

  lemma {:induction false} SubsetSize(a: set<Address>, b: set<Address>)
    requires a <= b
    ensures |a| <= |b|
  {
    assert b == a + (b - a);
  }

  lemma {:induction false} LockedSize(s: Limiter)
    requires Bounded(s)
    ensures |s.locked.keys| <= 2 * MAX_TRACKED - 1
  {
    var l, f := s.locked.at.Keys, s.failures.at.Keys;
    TableSize(s.locked);
    TableSize(s.failures);
    SplitSize(l, f);
  }

  lemma {:induction false} SplitSize(a: set<Address>, b: set<Address>)
    ensures |a| <= |b| + |a - b|
  {
    assert a == (a * b) + (a - b);
    SubsetSize(a * b, b);
  }

  lemma {:induction false} WithoutFront(keys: seq<Address>, n: nat)
    requires n <= |keys| && forall i, j :: 0 <= i < j < |keys| ==> keys[i] != keys[j]
    ensures Without(keys, Members(keys[..n])) == keys[n..]
  {
    WithoutSplit(keys[..n], keys[n..], Members(keys[..n]));
    assert keys == keys[..n] + keys[n..];
    WithoutNone(keys[n..], Members(keys[..n]));
    WithoutAll(keys[..n], Members(keys[..n]));
  }

  lemma {:induction false} WithoutAll(keys: seq<Address>, gone: set<Address>)
    requires forall k :: k in keys ==> k in gone
    ensures Without(keys, gone) == []
  {
    if |keys| > 0 { WithoutAll(keys[..|keys| - 1], gone); }
  }

  lemma {:induction false} WithoutSplit(a: seq<Address>, b: seq<Address>, gone: set<Address>)
    ensures Without(a + b, gone) == Without(a, gone) + Without(b, gone)
  {
    if |b| == 0 {
      assert a + b == a;
    } else {
      var c := a + b;
      WithoutSplit(a, b[..|b| - 1], gone);
      assert c[..|c| - 1] == a + b[..|b| - 1] && c[|c| - 1] == b[|b| - 1];
    }
  }

  lemma {:induction false} EvictedSize<V>(t: Table<V>)
    requires IsTable(t)
    ensures |Dropped(t, Excess(t)).keys| <= MAX_TRACKED - 1
  {
    if |t.keys| >= MAX_TRACKED {
      WithoutFront(t.keys, |t.keys| - MAX_TRACKED + 1);
    } else {
      WithoutNone(t.keys, {});
    }
  }

  lemma {:induction false} PrunedSize(s: Limiter, now: real)
    requires IsTable(s.failures) && IsTable(s.locked)
    ensures IsTable(Pruned(s, now).failures) && IsTable(Pruned(s, now).locked)
    ensures |Pruned(s, now).failures.keys| <= MAX_TRACKED - 1
    ensures |Pruned(s, now).locked.keys| <= MAX_TRACKED - 1
  {
    var fresher := Refreshed(s, now);
    DroppedIsTable(s.failures, Stale(s.failures, now - WINDOW));
    DroppedIsTable(s.locked, Expired(s.locked, now));
    EvictedSize(fresher.failures);
    EvictedSize(fresher.locked);
    DroppedIsTable(fresher.failures, Excess(fresher.failures));
    DroppedIsTable(fresher.locked, Excess(fresher.locked));
  }

  lemma {:induction false} RoomIsBounded(s: Limiter, ip: Address, now: real)
    requires Bounded(s)
    ensures Bounded(WithRoom(s, ip, now))
    ensures ip !in WithRoom(s, ip, now).failures.at ==>
      |WithRoom(s, ip, now).failures.keys| <= MAX_TRACKED - 1
  {
    if NeedsRoom(s, ip) {
      PrunedSize(s, now);
      TableSize(Pruned(s, now).locked);
      SubsetSize(Orphans(Pruned(s, now)), Pruned(s, now).locked.at.Keys);
    }
  }

  lemma {:induction false} CountedIsBounded(s: Limiter, ip: Address, now: real)
    requires Bounded(s) && (ip !in s.failures.at ==> |s.failures.keys| <= MAX_TRACKED - 1)
    ensures Bounded(Counted(s, ip, now))
  {
    var times := Trimmed(Times(s.failures, ip) + [now], now - WINDOW);
    PutIsTable(s.failures, ip, times);
    PutIsTable(s.locked, ip, now + LOCKOUT);
    SubsetSize(Orphans(Counted(s, ip, now)), Orphans(s));
  }

  lemma {:induction false} CheckedIsBounded(s: Limiter, ip: Address, now: real)
    requires Bounded(s)
    ensures Bounded(Checked(s, ip, now))
  {
    PutIsTable(s.failures, ip, Trimmed(Times(s.failures, ip), now - WINDOW));
    DroppedIsTable(s.locked, {ip});
    SubsetSize(Orphans(Checked(s, ip, now)), Orphans(s));
  }

  lemma {:induction false} ClearedIsBounded(s: Limiter, ip: Address)
    requires Bounded(s)
    ensures Bounded(Cleared(s, ip))
  {
    DroppedIsTable(s.failures, {ip});
    DroppedIsTable(s.locked, {ip});
    SubsetSize(Orphans(Cleared(s, ip)), Orphans(s));
  }

  lemma {:induction false} StepIsBounded(t: Track, e: Event)
    requires Bounded(t.s)
    ensures Bounded(Next(t, e).s)
  {
    match e
    case Fail(ip, now) =>
      RoomIsBounded(t.s, ip, now);
      CountedIsBounded(WithRoom(t.s, ip, now), ip, now);
    case Check(ip, now) => CheckedIsBounded(t.s, ip, now);
    case Clear(ip) => ClearedIsBounded(t.s, ip);
  }

  /** MAIN: however many addresses fail, and whatever the clock says, the tables stay small. */
  lemma {:induction false} TablesStayBounded(start: real, events: seq<Event>)
    ensures
      var s := Run(start, events).s;
      && Bounded(s) && |s.locked.keys| <= 2 * MAX_TRACKED - 1
  {
    if |events| > 0 {
      TablesStayBounded(start, events[..|events| - 1]);
      StepIsBounded(Run(start, events[..|events| - 1]), events[|events| - 1]);
    }
    LockedSize(Run(start, events).s);
  }
}
