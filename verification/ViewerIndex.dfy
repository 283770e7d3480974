/** The index object and the plain walk, in the form the source has them. */
module ViewerIndex {
  import opened Common
  import opened Recordings
  import opened Entries
  import opened FileTree
  import opened RecordingIndex
  import opened IndexAnswer

  datatype Views = Views(signature: map<string, nat>, entries: seq<Entry>, byKey: map<Instant, Entry>, days: Days)

  /** list_recordings: walks every directory and sorts. `walk` is the order of os.walk. */
  method ListRecordings(tree: Tree, walk: seq<string>) returns (r: seq<Entry>)
    requires WellFormed(tree) && Distinct(walk) && forall d :: d in tree <==> d in walk
    ensures IsAnswer(r, AllEntries(tree)) && TellsTree(r, tree, true)
  {
    ghost var all := AllEntries(tree);
    var entries: seq<Entry> := [];
    for i := 0 to |walk|
      invariant entries == Concat(all, walk[..i])
    {
      assert walk[i] in tree;
      ConcatSnoc(all, walk[..i], walk[i]);
      assert walk[..i + 1] == walk[..i] + [walk[i]];
      entries := entries + EntriesInDir(walk[i], FilesIn(tree[walk[i]].items));
    }
    assert walk[..|walk|] == walk;
    forall d | d in tree ensures forall e: Entry :: e in all[d] ==> e.relDir == d {
      EntriesOwned(d, FilesIn(tree[d].items));
    }
    SortedConcatIsAnswer(all, walk);
    r := Sorted(entries);
    AnswerTells(r, all, tree, true);
  }

  ghost function AllEntries(tree: Tree): map<string, seq<Entry>>
  {
    map d | d in tree :: EntriesInDir(d, FilesIn(tree[d].items))
  }

  lemma {:induction false} ConcatSnoc(found: map<string, seq<Entry>>, order: seq<string>, d: string)
    requires (forall x :: x in order ==> x in found) && d in found
    ensures Concat(found, order + [d]) == Concat(found, order) + found[d]
  {
    if |order| == 0 {
      assert order + [d] == [d] && [d][1..] == [];
    } else {
      assert (order + [d])[1..] == order[1..] + [d] && (order + [d])[0] == order[0];
      ConcatSnoc(found, order[1..], d);
    }
  }

  /** MAIN: on a tree at rest without skipped directories, the index and the plain walk return
      the same sequence. */
  lemma IndexEqualsListing(tree: Tree, indexed: seq<Entry>, listed: seq<Entry>)
    requires WellFormed(tree) && NoSkippedDirs(tree)
    requires IsAnswer(indexed, Rescan(tree)) && IsAnswer(listed, AllEntries(tree))
    ensures indexed == listed
  {
    forall d | d in tree ensures Reached(tree, d, true) { ReachedAll(tree, d); }
    assert Rescan(tree) == AllEntries(tree);
    AnswerUnique(indexed, listed, AllEntries(tree));
  }

  // ---- the worklist ----------------------------------------------------------------------------

  ghost predicate PendingOk(seen: map<string, Listing>, visited: set<string>, universe: set<string>, p: string)
  {
    && p !in visited && p in universe
    && (|p| > 0 ==> Parent(p) in seen && p in seen[Parent(p)].subdirs)
  }

  ghost predicate VisitedOk(world: nat -> Moment, i: nat, j: nat, seen: map<string, Listing>, v: string)
  {
    && (v in seen || GoneBetween(world, i, j, v))
    && (|v| > 0 ==> Parent(v) in seen)
  }

  ghost predicate OpenedAt(seen: map<string, Listing>, visited: set<string>, pending: seq<string>,
      universe: set<string>, d: string)
    requires d in seen
  {
    Sound(seen[d], d, universe) && d in visited && forall s :: s in seen[d].subdirs ==> s in visited || s in pending
  }

  ghost predicate AllPendingOk(seen: map<string, Listing>, visited: set<string>, universe: set<string>,
      pending: seq<string>)
  {
    forall p {:trigger PendingOk(seen, visited, universe, p)} :: p in pending ==> PendingOk(seen, visited, universe, p)
  }

  ghost predicate AllVisitedOk(world: nat -> Moment, i: nat, j: nat, seen: map<string, Listing>, visited: set<string>)
  {
    forall v {:trigger VisitedOk(world, i, j, seen, v)} :: v in visited ==> VisitedOk(world, i, j, seen, v)
  }

  ghost predicate AllOpened(seen: map<string, Listing>, visited: set<string>, pending: seq<string>,
      universe: set<string>)
  {
    forall d {:trigger OpenedAt(seen, visited, pending, universe, d)} :: d in seen ==>
      OpenedAt(seen, visited, pending, universe, d)
  }

  /** The state of the worklist: what was visited, what is pending, and how they hang together.
      No directory is ever pending twice, so the loop ends. */
  ghost predicate Working(world: nat -> Moment, i: nat, j: nat, universe: set<string>,
                          seen: map<string, Listing>, visited: set<string>, pending: seq<string>)
  {
    && Walked(world, i, j, seen)
    && visited <= universe && ("" in visited || "" in pending)
    && Distinct(pending)
    && AllPendingOk(seen, visited, universe, pending)
    && AllVisitedOk(world, i, j, seen, visited)
    && AllOpened(seen, visited, pending, universe)
  }

  lemma WalkedLater(world: nat -> Moment, i: nat, j: nat, j': nat, seen: map<string, Listing>)
    requires Walked(world, i, j, seen) && j <= j'
    ensures Walked(world, i, j', seen)
  {
    forall d | d in seen ensures WalkedAt(world, i, j', seen, d) {
      assert WalkedAt(world, i, j, seen, d);
    }
  }

  lemma WalkedEarlier(world: nat -> Moment, i: nat, i': nat, j: nat, seen: map<string, Listing>)
    requires i <= i' && Walked(world, i', j, seen) && Closed(world, i', j, seen)
    ensures Walked(world, i, j, seen) && Closed(world, i, j, seen)
  {
    forall d | d in seen ensures WalkedAt(world, i, j, seen, d) && ClosedAt(world, i, j, seen, d) {
      assert WalkedAt(world, i', j, seen, d) && ClosedAt(world, i', j, seen, d);
    }
  }

  lemma SkipGone(world: nat -> Moment, i: nat, j: nat, j': nat, universe: set<string>,
                 seen: map<string, Listing>, visited: set<string>, rest: seq<string>, d: string)
    requires Working(world, i, j, universe, seen, visited, rest + [d]) && i <= j <= j'
    requires GoneBetween(world, j, j', d)
    ensures d !in visited && d in universe
    ensures Working(world, i, j', universe, seen, visited + {d}, rest)
  {
    var pending := rest + [d];
    WalkedLater(world, i, j, j', seen);
    Popped(world, i, j, universe, seen, visited, rest, d);
    forall p | p in rest ensures PendingOk(seen, visited + {d}, universe, p) {
      assert PendingOk(seen, visited, universe, p);
    }
    forall v | v in visited + {d} ensures VisitedOk(world, i, j', seen, v) {
      if v in visited { assert VisitedOk(world, i, j, seen, v); }
    }
    forall e | e in seen ensures OpenedAt(seen, visited + {d}, rest, universe, e) {
      assert OpenedAt(seen, visited, pending, universe, e);
    }
  }

  lemma FreshSubdirs(world: nat -> Moment, i: nat, j: nat, universe: set<string>,
                     seen: map<string, Listing>, visited: set<string>, rest: seq<string>, d: string, s: string)
    requires Working(world, i, j, universe, seen, visited, rest + [d])
    requires Parent(s) == d && |s| > |d|
    ensures s !in visited && s !in rest
  {
    Popped(world, i, j, universe, seen, visited, rest, d);
    assert s in visited ==> VisitedOk(world, i, j, seen, s);
    assert s in rest ==> PendingOk(seen, visited, universe, s);
  }

  lemma DistinctJoin(a: seq<string>, b: seq<string>)
    requires Distinct(a) && Distinct(b) && forall s :: s in b ==> s !in a
    ensures Distinct(a + b)
  {
    forall i, j | 0 <= i < j < |a + b| ensures (a + b)[i] != (a + b)[j] {
      if i < |a| <= j { assert b[j - |a|] in b && a[i] in a; }
    }
  }

  lemma LastPending(seen: map<string, Listing>, visited: set<string>, universe: set<string>, rest: seq<string>,
      d: string)
    requires AllPendingOk(seen, visited, universe, rest + [d])
    ensures PendingOk(seen, visited, universe, d) && AllPendingOk(seen, visited, universe, rest)
  {
    assert (rest + [d])[|rest|] == d;
    forall p | p in rest ensures PendingOk(seen, visited, universe, p) {
      var k :| 0 <= k < |rest| && rest[k] == p;
      assert (rest + [d])[k] == p;
    }
  }

  /** Facts about the directory popped from the worklist, and about those left. */
  lemma Popped(world: nat -> Moment, i: nat, j: nat, universe: set<string>,
               seen: map<string, Listing>, visited: set<string>, rest: seq<string>, d: string)
    requires Working(world, i, j, universe, seen, visited, rest + [d])
    ensures PendingOk(seen, visited, universe, d) && d !in seen
    ensures Distinct(rest) && d !in rest && AllPendingOk(seen, visited, universe, rest)
  {
    LastPending(seen, visited, universe, rest, d);
    assert d in seen ==> OpenedAt(seen, visited, rest + [d], universe, d);
    DistinctInit(rest, d);
  }

  lemma DistinctInit(rest: seq<string>, d: string)
    requires Distinct(rest + [d])
    ensures Distinct(rest) && d !in rest
  {
    var all := rest + [d];
    assert forall k :: 0 <= k < |rest| ==> rest[k] == all[k];
    forall k | 0 <= k < |rest| ensures rest[k] != d { assert all[k] != all[|rest|]; }
  }

  lemma AddPending(world: nat -> Moment, i: nat, j: nat, universe: set<string>,
                   seen: map<string, Listing>, visited: set<string>, rest: seq<string>, d: string, l: Listing)
    requires Working(world, i, j, universe, seen, visited, rest + [d]) && Sound(l, d, universe)
    ensures Distinct(rest + l.subdirs)
    ensures AllPendingOk(seen[d := l], visited + {d}, universe, rest + l.subdirs)
  {
    Popped(world, i, j, universe, seen, visited, rest, d);
    forall s | s in l.subdirs ensures s !in visited + {d} && s !in rest {
      FreshSubdirs(world, i, j, universe, seen, visited, rest, d, s);
    }
    DistinctJoin(rest, l.subdirs);
    forall p | p in rest + l.subdirs ensures PendingOk(seen[d := l], visited + {d}, universe, p) {
      if p in rest {
        assert PendingOk(seen, visited, universe, p);
        OldPendingOk(seen, visited, universe, d, l, p);
      }
    }
  }

  lemma OldPendingOk(seen: map<string, Listing>, visited: set<string>, universe: set<string>, d: string,
      l: Listing, p: string)
    requires PendingOk(seen, visited, universe, p) && p != d && d !in seen
    ensures PendingOk(seen[d := l], visited + {d}, universe, p)
  {
  }

  lemma AddVisited(world: nat -> Moment, i: nat, j: nat, j': nat, seen: map<string,
      Listing>, visited: set<string>, d: string, l: Listing)
    requires AllVisitedOk(world, i, j, seen, visited)
    requires j <= j' && (|d| > 0 ==> Parent(d) in seen)
    ensures AllVisitedOk(world, i, j', seen[d := l], visited + {d})
  {
    var seen' := seen[d := l];
    forall v | v in visited + {d} ensures VisitedOk(world, i, j', seen', v) {
      if v in visited {
        assert VisitedOk(world, i, j, seen, v);
        OldVisitedOk(world, i, j, j', seen, d, l, v);
      }
    }
  }

  lemma AddOpened(seen: map<string, Listing>, visited: set<string>, rest: seq<string>, universe: set<string>,
      d: string, l: Listing)
    requires AllOpened(seen, visited, rest + [d], universe)
    requires Sound(l, d, universe)
    ensures AllOpened(seen[d := l], visited + {d}, rest + l.subdirs, universe)
  {
    var seen', visited', pending' := seen[d := l], visited + {d}, rest + l.subdirs;
    forall e | e in seen' ensures OpenedAt(seen', visited', pending', universe, e) {
      if e != d {
        assert OpenedAt(seen, visited, rest + [d], universe, e);
        OldOpenedAt(seen, visited, rest, universe, d, l, e);
      }
    }
  }

  lemma AddSeen(world: nat -> Moment, i: nat, j: nat, j': nat, universe: set<string>,
                seen: map<string, Listing>, visited: set<string>, rest: seq<string>, d: string, l: Listing)
    requires Working(world, i, j, universe, seen, visited, rest + [d]) && i <= j <= j'
    requires ShownBetween(world, j, j', d, l) && Sound(l, d, universe)
    ensures d !in seen && d !in visited && d in universe
    ensures Working(world, i, j', universe, seen[d := l], visited + {d}, rest + l.subdirs)
  {
    var seen', visited', pending' := seen[d := l], visited + {d}, rest + l.subdirs;
    assert d !in seen && PendingOk(seen, visited, universe, d) by {
      Popped(world, i, j, universe, seen, visited, rest, d);
    }
    assert Distinct(pending') && AllPendingOk(seen', visited', universe, pending') by {
      AddPending(world, i, j, universe, seen, visited, rest, d, l);
    }
    assert Walked(world, i, j', seen') by { AddWalked(world, i, j, j', seen, d, l); }
    AddVisited(world, i, j, j', seen, visited, d, l);
    AddOpened(seen, visited, rest, universe, d, l);
  }

  /** One turn of the loop, whether the directory popped is still there or not. */
  lemma Turn(world: nat -> Moment, i: nat, j: nat, j': nat, universe: set<string>, seen: map<string, Listing>,
             visited: set<string>, rest: seq<string>, d: string, r: Option<Listing>)
    requires Working(world, i, j, universe, seen, visited, rest + [d]) && i <= j <= j'
    requires r.None? ==> GoneBetween(world, j, j', d)
    requires r.Some? ==> ShownBetween(world, j, j', d, r.value) && Sound(r.value, d, universe)
    ensures d !in seen && d !in visited && d in universe
    ensures r.None? ==> Working(world, i, j', universe, seen, visited + {d}, rest)
    ensures r.Some? ==> Working(world, i, j', universe, seen[d := r.value], visited + {d}, rest + r.value.subdirs)
  {
    Popped(world, i, j, universe, seen, visited, rest, d);
    if r.None? {
      SkipGone(world, i, j, j', universe, seen, visited, rest, d);
    } else {
      AddSeen(world, i, j, j', universe, seen, visited, rest, d, r.value);
    }
  }

  lemma OldOpenedAt(seen: map<string, Listing>, visited: set<string>, rest: seq<string>, universe: set<string>,
      d: string, l: Listing, e: string)
    requires e in seen && e != d && OpenedAt(seen, visited, rest + [d], universe, e)
    ensures OpenedAt(seen[d := l], visited + {d}, rest + l.subdirs, universe, e)
  {
  }

  lemma OldVisitedOk(world: nat -> Moment, i: nat, j: nat, j': nat, seen: map<string,
      Listing>, d: string, l: Listing, v: string)
    requires VisitedOk(world, i, j, seen, v) && j <= j'
    ensures VisitedOk(world, i, j', seen[d := l], v)
  {
  }

  lemma ShownLonger(world: nat -> Moment, i: nat, i': nat, j: nat, j': nat, d: string, l: Listing)
    requires i <= i' <= j <= j' && ShownBetween(world, i', j, d, l)
    ensures ShownBetween(world, i, j', d, l)
  {
    var k: nat :| i' <= k <= j && d in world(k).tree && Shows(l, d, world(k).tree[d]);
  }

  lemma AddWalked(world: nat -> Moment, i: nat, j: nat, j': nat, seen: map<string, Listing>, d: string, l: Listing)
    requires Walked(world, i, j, seen) && i <= j <= j' && d !in seen
    requires ShownBetween(world, j, j', d, l)
    requires |d| > 0 ==> Parent(d) in seen && d in seen[Parent(d)].subdirs
    ensures Walked(world, i, j', seen[d := l])
  {
    var seen' := seen[d := l];
    forall e | e in seen' ensures WalkedAt(world, i, j', seen', e) {
      if e == d {
        ShownLonger(world, i, j, j', j', d, l);
        assert |d| > 0 ==> Parent(d) in seen && seen'[Parent(d)] == seen[Parent(d)];
      } else {
        assert WalkedAt(world, i, j, seen, e);
        ShownLonger(world, i, i, j, j', e, seen[e]);
        assert |e| > 0 ==> Parent(e) in seen && seen'[Parent(e)] == seen[Parent(e)];
      }
    }
  }

  lemma WorkDone(world: nat -> Moment, i: nat, j: nat, universe: set<string>, seen: map<string,
      Listing>, visited: set<string>)
    requires Working(world, i, j, universe, seen, visited, [])
    ensures Closed(world, i, j, seen)
  {
    assert VisitedOk(world, i, j, seen, "");
    forall d | d in seen ensures ClosedAt(world, i, j, seen, d) {
      assert OpenedAt(seen, visited, [], universe, d);
      forall s | s in seen[d].subdirs ensures s in seen || GoneBetween(world, i, j, s) {
        assert VisitedOk(world, i, j, seen, s);
      }
    }
  }

  function SignatureOf(seen: map<string, Listing>): map<string, nat>
  {
    map d | d in seen :: seen[d].seqNo
  }

  ghost predicate SubMap(a: map<string, Listing>, b: map<string, Listing>)
  {
    forall d :: d in a ==> d in b && b[d] == a[d]
  }

  lemma SubMapAdd(a: map<string, Listing>, b: map<string, Listing>, d: string, l: Listing)
    requires SubMap(a, b) && d !in a
    ensures SubMap(a, b[d := l]) && SubMap(a[d := l], b[d := l])
  {
  }

  /** The merged views of some listings. */
  ghost predicate ViewsShow(v: Views, shown: map<string, Listing>)
  {
    && v.signature == SignatureOf(shown)
    && IsAnswer(v.entries, EntriesOf(shown))
    && IsDayView(v.days, v.entries)
    && (forall base, kind :: (base, kind) in v.byKey <==> FirstMatch(v.entries, base, kind).Some?)
    && (forall base, kind :: (base, kind) in v.byKey ==>
          FirstMatch(v.entries, base, kind) == Some(v.byKey[(base, kind)]))
  }

  class Index {
    /** The outside world at successive instants; `pos` is the last instant looked at, and each
        system call looks at some instant from there on. */
    const world: nat -> Moment
    ghost const universe: set<string>
    ghost var shown: map<string, Listing>
    var pos: nat
    var dirs: map<string, Listing>
    var scans: nat
    var views: Views

    ghost predicate WorldOk()
    {
      && (forall i: nat :: Evolves(world(i), world(i + 1)))
      && (forall i: nat :: WellFormed(world(i).tree) && world(i).tree.Keys <= universe)
      && "" in universe
    }

    ghost predicate CachedOk(d: string)
      requires d in dirs
      reads this
    {
      && Trusted(dirs[d], d, world(pos)) && Sound(dirs[d], d, universe) && dirs[d].seqNo < scans
      && (d in shown && shown[d].seqNo == dirs[d].seqNo ==> shown[d] == dirs[d])
    }

    ghost predicate CacheOk()
      reads this
    {
      && (forall d {:trigger CachedOk(d)} :: d in dirs ==> CachedOk(d))
      && (forall d :: d in shown ==> shown[d].seqNo < scans)
    }

    ghost predicate ViewsOk()
      reads this`views, this`shown
    {
      ViewsShow(views, shown)
    }

    ghost predicate Valid()
      reads this
    {
      WorldOk() && CacheOk() && ViewsOk()
    }

    constructor (world: nat -> Moment, ghost universe: set<string>)
      requires forall i: nat :: Evolves(world(i), world(i + 1))
      requires forall i: nat :: WellFormed(world(i).tree) && world(i).tree.Keys <= universe
      requires "" in universe
      ensures Valid() && this.world == world && this.universe == universe && pos == 0
    {
      this.world, this.universe := world, universe;
      pos, dirs, scans, views, shown := 0, map[], 0, Views(map[], [], map[], []), map[];
    }

    /** Time passes before the next system call, and the world may change. */
    method Later()
      requires WorldOk() && CacheOk()
      modifies this`pos
      ensures CacheOk() && old(pos) <= pos && world(old(pos)).clock <= world(pos).clock
    {
      var next: nat :| pos <= next;
      ghost var before := pos;
      pos := next;
      TrustSurvivesAll(world, Listing(0, [], [], true, 0), "", before, pos);
      forall d | d in dirs ensures CachedOk(d) {
        assert old(CachedOk(d));
        TrustSurvivesAll(world, dirs[d], d, before, pos);
      }
    }

    /** _listing: reuses a trusted listing with an unchanged stamp, scans again otherwise. */
    method GetListing(d: string, now: int) returns (r: Option<Listing>)
      requires WorldOk() && CacheOk() && now <= world(pos).clock
      modifies this`pos, this`dirs, this`scans
      ensures CacheOk() && old(pos) <= pos && now <= world(pos).clock
      ensures r.None? ==> dirs == old(dirs) && GoneBetween(world, old(pos), pos, d)
      ensures r.Some? ==> dirs == old(dirs)[d := r.value] && Sound(r.value, d, universe)
      ensures r.Some? ==> ShownBetween(world, old(pos), pos, d, r.value)
    {
      Later();
      if d !in world(pos).tree { return None; }
      var mtime := world(pos).tree[d].mtime;
      if d in dirs && dirs[d].mtime == mtime && !dirs[d].racy {
        assert CachedOk(d);
        assert dirs == dirs[d := dirs[d]];
        return Some(dirs[d]);
      }
      Later();
      if d !in world(pos).tree { return None; }
      var items := world(pos).tree[d].items;
      var l := Listing(mtime, SubdirsOf(d, items), EntriesInDir(d, FilesIn(items)), now - mtime < RACY_WINDOW, scans);
      Keep(d, l);
      r := Some(l);
    }

    method Keep(d: string, l: Listing)
      requires WorldOk() && CacheOk() && d in world(pos).tree
      requires Shows(l, d, world(pos).tree[d]) && l.seqNo == scans
      requires !l.racy ==> l.mtime + RACY_WINDOW <= world(pos).clock
      modifies this`dirs, this`scans
      ensures CacheOk() && dirs == old(dirs)[d := l] && scans == old(scans) + 1 && Sound(l, d, universe)
    {
      ShownIsSound(l, d, world(pos).tree, universe);
      scans := scans + 1;
      dirs := dirs[d := l];
      forall e | e in dirs ensures CachedOk(e) {
        if e != d { assert old(CachedOk(e)); }
      }
    }

    ghost predicate InCache(seen: map<string, Listing>)
      reads this`dirs
    {
      SubMap(seen, dirs)
    }

    /** The worklist loop. */
    method Walk(now: int) returns (seen: map<string, Listing>)
      requires WorldOk() && CacheOk() && now <= world(pos).clock
      modifies this`pos, this`dirs, this`scans
      ensures CacheOk() && old(pos) <= pos && InCache(seen)
      ensures Walked(world, old(pos), pos, seen) && Closed(world, old(pos), pos, seen)
    {
      ghost var start := pos;
      seen := map[];
      var pending := [""];
      ghost var visited: set<string> := {};
      while |pending| > 0
        invariant CacheOk() && start <= pos && now <= world(pos).clock && InCache(seen)
        invariant Working(world, start, pos, universe, seen, visited, pending)
        decreases universe - visited
      {
        var rest, d := pending[..|pending| - 1], pending[|pending| - 1];
        assert pending == rest + [d];
        ghost var before, cache := pos, dirs;
        var r := GetListing(d, now);
        Turn(world, start, before, pos, universe, seen, visited, rest, d, r);
        pending := rest;
        if r.Some? {
          SubMapAdd(seen, cache, d, r.value);
          seen, pending := seen[d := r.value], rest + r.value.subdirs;
        }
        visited := visited + {d};
      }
      assert pending == [];
      WorkDone(world, start, pos, universe, seen, visited);
    }

    /** _refresh: walks with the cached listings, and merges again only if some listing is new. */
    method Refresh()
      requires Valid()
      modifies this
      ensures Valid() && old(pos) <= pos && shown == dirs
      ensures Walked(world, old(pos), pos, dirs) && Closed(world, old(pos), pos, dirs)
    {
      ghost var start := pos;
      Later();
      ghost var before := pos;
      var now := world(pos).clock;
      var seen := Walk(now);
      WalkedEarlier(world, start, before, pos, seen);
      Settle(seen);
    }

    /** The end of _refresh: the seen listings replace the cache, and the views follow them. */
    method Settle(seen: map<string, Listing>)
      requires Valid() && InCache(seen)
      modifies this
      ensures Valid() && pos == old(pos) && dirs == seen && shown == seen
    {
      if SignatureOf(seen) == views.signature {
        SameSignature(seen);
        Replace(seen);
      } else {
        Replace(seen);
        Merge();
      }
    }

    /** Drops the directories that disappeared. */
    method Replace(seen: map<string, Listing>)
      requires CacheOk() && InCache(seen)
      modifies this`dirs
      ensures CacheOk() && dirs == seen
    {
      dirs := seen;
      forall d | d in dirs ensures CachedOk(d) { assert old(CachedOk(d)); }
    }

    /** Scan numbers are unique, so an unchanged signature means unchanged listings. */
    lemma SameSignature(seen: map<string, Listing>)
      requires CacheOk() && InCache(seen) && SignatureOf(seen) == SignatureOf(shown)
      ensures seen == shown
    {
      forall d ensures d in shown <==> d in seen { assert d in SignatureOf(seen) <==> d in SignatureOf(shown); }
      forall d | d in seen ensures shown[d] == seen[d] {
        assert CachedOk(d) && SignatureOf(seen)[d] == SignatureOf(shown)[d];
      }
    }

    /** Rebuilds the merged views from the listings in `dirs`. */
    method Merge()
      requires CacheOk()
      modifies this`views, this`shown
      ensures CacheOk() && ViewsOk() && shown == dirs
    {
      forall d | d in dirs ensures Sound(dirs[d], d, universe) { assert CachedOk(d); }
      views := MergedViews(dirs);
      shown := dirs;
      forall d | d in dirs ensures CachedOk(d) { assert old(CachedOk(d)); }
      forall d | d in shown ensures shown[d].seqNo < scans { assert CachedOk(d); }
    }

    /** The order in which the directories are merged does not matter, so any one will do. */
    method MergedViews(seen: map<string, Listing>) returns (v: Views)
      requires forall d :: d in seen ==> Sound(seen[d], d, universe)
      ensures ViewsShow(v, seen)
    {
      var found := map d | d in seen :: seen[d].entries;
      assert found == EntriesOf(seen);
      assert Owned(found);
      var order: seq<string> := [];
      var left := seen.Keys;
      while left != {}
        invariant Distinct(order) && left <= seen.Keys
        invariant forall d :: d in order <==> d in seen && d !in left
        decreases left
      {
        var d :| d in left;
        DistinctJoin(order, [d]);
        order, left := order + [d], left - {d};
      }
      SortedConcatIsAnswer(found, order);
      var entries := Sorted(Concat(found, order));
      var days := BuildDays(entries);
      var byKey := BuildByKey(entries);
      v := Views(SignatureOf(seen), entries, byKey, days);
    }

    /** entries(): with the tree at rest during the call, exactly the answer of a rescan. */
    method Entries() returns (r: seq<Entry>)
      requires Valid()
      modifies this
      ensures Valid() && old(pos) <= pos
      ensures NewestFirst(r)
      ensures AtRest(world, old(pos), pos, world(old(pos)).tree) ==>
        IsAnswer(r, Rescan(world(old(pos)).tree)) && TellsTree(r, world(old(pos)).tree, false)
    {
      Refresh();
      r := views.entries;
      QuietAnswer(old(pos));
    }

    lemma QuietAnswer(start: nat)
      requires Valid() && start <= pos && shown == dirs
      requires Walked(world, start, pos, dirs) && Closed(world, start, pos, dirs)
      ensures AtRest(world, start, pos, world(start).tree) ==>
        IsAnswer(views.entries, Rescan(world(start).tree)) && TellsTree(views.entries, world(start).tree, false)
    {
      if AtRest(world, start, pos, world(start).tree) {
        QuietWalkIsRescan(world, start, pos, dirs, world(start).tree);
        IndexTells(views.entries, world(start).tree);
      }
    }

    /** Also while the tree changes, every entry shown is that of a recording. */
    lemma ViewHasBases(start: nat)
      requires Valid() && start <= pos && shown == dirs
      requires Walked(world, start, pos, dirs)
      ensures forall e :: e in views.entries ==> IsBase(e.base)
    {
      forall e | e in views.entries ensures IsBase(e.base) {
        ViewMember(views.entries, EntriesOf(shown), e);
        assert WalkedAt(world, start, pos, dirs, e.relDir);
        var k: nat :| start <= k <= pos && e.relDir in world(k).tree
          && Shows(dirs[e.relDir], e.relDir, world(k).tree[e.relDir]);
        EntriesAreTheInstants(e.relDir, FilesIn(world(k).tree[e.relDir].items));
      }
    }

    /** days(): the same entries, parted by day. */
    method DaysOf() returns (r: Days)
      requires Valid()
      modifies this
      ensures Valid() && old(pos) <= pos
      ensures IsDayView(r, views.entries) && DaysTell(r) && NewestFirst(views.entries)
      ensures AtRest(world, old(pos), pos, world(old(pos)).tree) ==>
        IsAnswer(views.entries, Rescan(world(old(pos)).tree)) && TellsTree(views.entries, world(old(pos)).tree, false)
    {
      Refresh();
      r := views.days;
      QuietAnswer(old(pos));
      ViewHasBases(old(pos));
      DayViewTells(r, views.entries);
    }

    /** find(): the first of the same entries with this base name and type. */
    method Find(base: string, kind: char) returns (r: Option<Entry>)
      requires Valid()
      modifies this
      ensures Valid() && old(pos) <= pos
      ensures IsFirst(views.entries, base, kind, r) && NewestFirst(views.entries)
      ensures AtRest(world, old(pos), pos, world(old(pos)).tree) ==>
        IsAnswer(views.entries, Rescan(world(old(pos)).tree)) && TellsTree(views.entries, world(old(pos)).tree, false)
    {
      Refresh();
      r := if (base, kind) in views.byKey then Some(views.byKey[(base, kind)]) else None;
      FirstMatchIsFirst(views.entries, base, kind);
      QuietAnswer(old(pos));
    }
  }
}
