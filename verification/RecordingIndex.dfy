/** The cached recording index (blackvuesync/server/viewer_index.py), proved to answer like a
    walk from scratch while the outside world keeps changing the tree. */
module RecordingIndex {
  import opened Common
  import opened Recordings
  import opened Entries
  import opened FileTree

  // ---- views ---------------------------------------------------------------------------------------

  function DayOf(e: Entry): nat { if IsBase(e.base) then DateOf(e.base) else 0 }

  type Days = seq<(nat, seq<Entry>)>

  function Merged(days: Days): seq<Entry>
  {
    if |days| == 0 then [] else days[0].1 + Merged(days[1..])
  }

  /** The days partition the entries in order: newest day first, every entry under its day. */
  ghost predicate IsDayView(days: Days, entries: seq<Entry>)
  {
    && Merged(days) == entries
    && (forall i :: 0 <= i < |days| ==> |days[i].1| > 0)
    && (forall i, j :: 0 <= i < |days| && 0 <= j < |days[i].1| ==> DayOf(days[i].1[j]) == days[i].0)
    && (forall i, j :: 0 <= i < j < |days| ==> days[j].0 < days[i].0)
  }

  function FirstMatch(entries: seq<Entry>, base: string, kind: char): Option<Entry>
  {
    if |entries| == 0 then None
    else if entries[0].base == base && entries[0].kind == kind then Some(entries[0])
    else FirstMatch(entries[1..], base, kind)
  }

  /** Newest first by time is newest first by day. */
  lemma DaysDescend(a: Entry, b: Entry)
    requires !KeyLess(KeyOf(a), KeyOf(b))
    ensures DayOf(b) <= DayOf(a)
  {
    if IsBase(a.base) && IsBase(b.base) {
      NumberBound(a.base[9..]);
      NumberBound(b.base[9..]);
    }
  }

  lemma SameDay(days: Days, entries: seq<Entry>, e: Entry)
    requires IsDayView(days, entries) && |days| > 0 && days[|days| - 1].0 == DayOf(e)
    ensures var k := |days| - 1; IsDayView(days[..k] + [(days[k].0, days[k].1 + [e])], entries + [e])
  {
    var k := |days| - 1;
    MergedSnoc(days[..k], days[k]);
    MergedSnoc(days[..k], (days[k].0, days[k].1 + [e]));
    assert days == days[..k] + [days[k]];
  }

  lemma NewDay(days: Days, entries: seq<Entry>, e: Entry)
    requires IsDayView(days, entries) && (|days| > 0 ==> DayOf(e) < days[|days| - 1].0)
    ensures IsDayView(days + [(DayOf(e), [e])], entries + [e])
  {
    MergedSnoc(days, (DayOf(e), [e]));
    forall i | 0 <= i < |days| ensures DayOf(e) < days[i].0 {
      if i < |days| - 1 { assert days[|days| - 1].0 < days[i].0; }
    }
  }

  // A dict of day lists in insertion order: its keys as first set, and the list of each.

  ghost predicate IsDict(order: seq<nat>, lists: map<nat, seq<Entry>>)
  {
    && (forall day :: day in lists <==> day in order)
    && (forall i, j :: 0 <= i < j < |order| ==> order[i] != order[j])
  }

  function DictItems(order: seq<nat>, lists: map<nat, seq<Entry>>): (r: Days)
    requires forall day :: day in order ==> day in lists
    ensures |r| == |order| && forall i :: 0 <= i < |r| ==> r[i] == (order[i], lists[order[i]])
  {
    seq(|order|, i requires 0 <= i < |order| => (order[i], lists[order[i]]))
  }

  /** The entries so far under their days, the newest entry's day last. */
  ghost predicate Filed(order: seq<nat>, lists: map<nat, seq<Entry>>, entries: seq<Entry>)
  {
    && IsDict(order, lists) && IsDayView(DictItems(order, lists), entries)
    && (if |entries| == 0 then |order| == 0
        else |order| > 0 && order[|order| - 1] == DayOf(entries[|entries| - 1]))
  }

  lemma LastDayIsOldest(days: Days, entries: seq<Entry>, i: nat)
    requires IsDayView(days, entries) && i < |days|
    ensures days[|days| - 1].0 <= days[i].0
  {
    if i < |days| - 1 { assert days[|days| - 1].0 < days[i].0; }
  }

  /** A date that has a list already is that of the last list, as the entries are newest first. */
  lemma OnlyTheLastDayGrows(order: seq<nat>, lists: map<nat, seq<Entry>>, entries: seq<Entry>, e: Entry)
    requires Filed(order, lists, entries) && NewestFirst(entries + [e])
    ensures DayOf(e) in lists ==> |order| > 0 && DayOf(e) == order[|order| - 1]
    ensures DayOf(e) !in lists && |order| > 0 ==> DayOf(e) < order[|order| - 1]
  {
    if |entries| > 0 {
      var last := (entries + [e])[|entries| - 1];
      assert (entries + [e])[|entries|] == e;
      DaysDescend(last, e);
      if DayOf(e) in lists {
        var i :| 0 <= i < |order| && order[i] == DayOf(e);
        LastDayIsOldest(DictItems(order, lists), entries, i);
      } else {
        assert order[|order| - 1] in order;
      }
    }
  }

  lemma FiledUnderOldDay(order: seq<nat>, lists: map<nat, seq<Entry>>, entries: seq<Entry>, e: Entry)
    requires Filed(order, lists, entries) && |order| > 0 && DayOf(e) == order[|order| - 1]
    ensures DayOf(e) in lists && Filed(order, lists[DayOf(e) := lists[DayOf(e)] + [e]], entries + [e])
  {
    var days, k := DictItems(order, lists), |order| - 1;
    assert order[k] in order;
    SameDay(days, entries, e);
    assert DictItems(order, lists[DayOf(e) := lists[DayOf(e)] + [e]]) == days[..k] + [(order[k], days[k].1 + [e])];
  }

  lemma FiledUnderNewDay(order: seq<nat>, lists: map<nat, seq<Entry>>, entries: seq<Entry>, e: Entry)
    requires Filed(order, lists, entries) && DayOf(e) !in lists
    requires |order| > 0 ==> DayOf(e) < order[|order| - 1]
    ensures Filed(order + [DayOf(e)], lists[DayOf(e) := [e]], entries + [e])
  {
    var days, order' := DictItems(order, lists), order + [DayOf(e)];
    NewDay(days, entries, e);
    assert forall day :: day in order' <==> day in order || day == DayOf(e);
    assert DictItems(order', lists[DayOf(e) := [e]]) == days + [(DayOf(e), [e])];
  }

  lemma FiledNext(order: seq<nat>, lists: map<nat, seq<Entry>>, entries: seq<Entry>, e: Entry)
    requires Filed(order, lists, entries) && NewestFirst(entries + [e])
    ensures var day := DayOf(e);
      if day in lists then Filed(order, lists[day := lists[day] + [e]], entries + [e])
      else Filed(order + [day], lists[day := []][day := [] + [e]], entries + [e])
  {
    OnlyTheLastDayGrows(order, lists, entries, e);
    if DayOf(e) in lists {
      FiledUnderOldDay(order, lists, entries, e);
    } else {
      FiledUnderNewDay(order, lists, entries, e);
      assert [] + [e] == [e];
      assert lists[DayOf(e) := []][DayOf(e) := [] + [e]] == lists[DayOf(e) := [e]];
    }
  }

  /** The loop that appends every entry to the list of its date, making the list if there is
      none: the dict's items are the day view. */
  method BuildDays(entries: seq<Entry>) returns (days: Days)
    requires NewestFirst(entries)
    ensures IsDayView(days, entries)
  {
    var order: seq<nat>, lists: map<nat, seq<Entry>> := [], map[];
    for i := 0 to |entries|
      invariant Filed(order, lists, entries[..i])
    {
      var day := DayOf(entries[i]);
      assert entries[..i + 1] == entries[..i] + [entries[i]];
      FiledNext(order, lists, entries[..i], entries[i]);
      if day !in lists { order, lists := order + [day], lists[day := []]; }
      lists := lists[day := lists[day] + [entries[i]]];
    }
    assert entries[..|entries|] == entries;
    days := DictItems(order, lists);
  }

  lemma {:induction false} MergedSnoc(days: Days, last: (nat, seq<Entry>))
    ensures Merged(days + [last]) == Merged(days) + last.1
  {
    if |days| == 0 {
      assert (days + [last])[1..] == [];
    } else {
      assert (days + [last])[1..] == days[1..] + [last];
      MergedSnoc(days[1..], last);
    }
  }

  /** by_key, filled from the oldest entry to the newest so that the first match stays. */
  method BuildByKey(entries: seq<Entry>) returns (byKey: map<Instant, Entry>)
    ensures forall base, kind :: (base, kind) in byKey <==> FirstMatch(entries, base, kind).Some?
    ensures forall base, kind :: (base, kind) in byKey ==> FirstMatch(entries, base, kind) == Some(byKey[(base, kind)])
  {
    byKey := map[];
    var i := |entries|;
    while i > 0
      invariant 0 <= i <= |entries|
      invariant forall base, kind :: (base, kind) in byKey <==> FirstMatch(entries[i..], base, kind).Some?
      invariant forall base, kind :: (base, kind) in byKey ==>
        FirstMatch(entries[i..], base, kind) == Some(byKey[(base, kind)])
    {
      i := i - 1;
      assert entries[i..][1..] == entries[i + 1..];
      byKey := byKey[(entries[i].base, entries[i].kind) := entries[i]];
    }
    assert entries[0..] == entries;
  }

  // ---- listings ------------------------------------------------------------------------------------

  /** A listing is trusted only when the directory was already this much older than the clock. */
  const RACY_WINDOW := 2_000_000_000

  datatype Listing = Listing(mtime: int, subdirs: seq<string>, entries: seq<Entry>, racy: bool, seqNo: nat)

  function FilesIn(items: seq<Item>): seq<string>
  {
    if |items| == 0 then []
    else if items[0].isDir then FilesIn(items[1..])
    else [items[0].name] + FilesIn(items[1..])
  }

  /** The subdirectories that are looked into, in scan order. */
  function SubdirsOf(dir: string, items: seq<Item>): seq<string>
  {
    if |items| == 0 then []
    else if items[0].isDir && !SkippedName(items[0].name) then
      [Child(dir, items[0].name)] + SubdirsOf(dir, items[1..])
    else SubdirsOf(dir, items[1..])
  }

  ghost predicate IsSubdir(dir: string, items: seq<Item>, s: string)
  {
    exists n :: Item(n, true) in items && !SkippedName(n) && Child(dir, n) == s
  }

  lemma {:induction false} SubdirMember(dir: string, items: seq<Item>, s: string)
    ensures s in SubdirsOf(dir, items) <==> IsSubdir(dir, items, s)
  {
    if |items| > 0 {
      SubdirMember(dir, items[1..], s);
      var first := items[0];
      if IsSubdir(dir, items[1..], s) {
        var n :| Item(n, true) in items[1..] && !SkippedName(n) && Child(dir, n) == s;
        assert Item(n, true) in items;
      }
      if IsSubdir(dir, items, s) {
        var n :| Item(n, true) in items && !SkippedName(n) && Child(dir, n) == s;
        assert Item(n, true) == first || Item(n, true) in items[1..];
      }
      if first.isDir && !SkippedName(first.name) && s == Child(dir, first.name) {
        assert Item(first.name, true) in items;
      }
    }
  }

  ghost predicate Shows(l: Listing, d: string, dir: Dir)
  {
    l.subdirs == SubdirsOf(d, dir.items) && l.entries == EntriesInDir(d, FilesIn(dir.items))
  }

  /** What makes a cached listing safe to reuse at a moment. */
  ghost predicate Trusted(l: Listing, d: string, m: Moment)
  {
    !l.racy ==>
      && l.mtime + RACY_WINDOW <= m.clock
      && (d in m.tree && m.tree[d].mtime == l.mtime ==> Shows(l, d, m.tree[d]))
  }

  /** MAIN: no step of the outside world can make a trusted listing wrong: whatever changes the
      directory, or removes and recreates it, gives it a newer stamp. */
  lemma TrustSurvives(l: Listing, d: string, m: Moment, m': Moment)
    requires Trusted(l, d, m) && Evolves(m, m')
    ensures Trusted(l, d, m')
  {
  }

  lemma {:induction false} TrustSurvivesAll(world: nat -> Moment, l: Listing, d: string, i: nat, j: nat)
    requires i <= j && forall k: nat :: Evolves(world(k), world(k + 1))
    requires Trusted(l, d, world(i))
    ensures Trusted(l, d, world(j)) && world(i).clock <= world(j).clock
    decreases j - i
  {
    if i < j {
      TrustSurvives(l, d, world(i), world(i + 1));
      TrustSurvivesAll(world, l, d, i + 1, j);
    }
  }

  // ---- the window and the tick -----------------------------------------------------------------------

  /** A change of the tree at a clock reading. */
  datatype Event = Event(change: Change, time: int)

  /** The events happen from a moment on, in order of time, stamped in ticks of `tick` ns. */
  predicate Happen(m: Moment, events: seq<Event>, tick: int)
    requires tick > 0
    decreases |events|
  {
    |events| > 0 ==>
      && m.clock <= events[0].time && Possible(m.tree, events[0].change)
      && Happen(Next(m, events[0], tick), events[1..], tick)
  }

  function Next(m: Moment, e: Event, tick: int): Moment
    requires tick > 0 && Possible(m.tree, e.change)
  {
    Moment(e.time, Changed(m.tree, e.change, Stamp(e.time, tick)))
  }

  function Later(m: Moment, events: seq<Event>, tick: int): Moment
    requires tick > 0 && Happen(m, events, tick)
    decreases |events|
  {
    if |events| == 0 then m else Later(Next(m, events[0], tick), events[1..], tick)
  }

  /** A lookup read the clock as `now`, then the stamp of d at `start`, then its items after the
      events `between`, and cached `listing`; the events `since` came after that. */
  datatype Story = Story(
    now: int, start: Moment, d: string, between: seq<Event>, listing: Listing, since: seq<Event>)

  ghost predicate Told(s: Story, tick: int)
    requires tick > 0
  {
    && s.now <= s.start.clock && WellFormed(s.start.tree) && s.d in s.start.tree
    && Happen(s.start, s.between, tick)
    && var scan := Later(s.start, s.between, tick);
    && s.d in scan.tree && Shows(s.listing, s.d, scan.tree[s.d])
    && s.listing.mtime == s.start.tree[s.d].mtime
    && s.listing.racy == (s.now - s.listing.mtime < RACY_WINDOW)
    && Happen(scan, s.since, tick)
  }

  function End(s: Story, tick: int): Moment
    requires tick > 0 && Told(s, tick)
  {
    Later(Later(s.start, s.between, tick), s.since, tick)
  }

  /** Reusing the listing when its stamp is still the directory's gives what the directory holds. */
  ghost predicate ReuseIsRight(l: Listing, d: string, m: Moment)
  {
    d in m.tree && m.tree[d].mtime == l.mtime ==> Shows(l, d, m.tree[d])
  }

  ghost predicate NeverMisses(tick: int)
    requires tick > 0
  {
    forall s :: Told(s, tick) && !s.listing.racy ==> ReuseIsRight(s.listing, s.d, End(s, tick))
  }

  lemma {:induction false} EventsEvolve(m: Moment, events: seq<Event>, tick: int, l: Listing, d: string)
    requires 0 < tick <= RACY_WINDOW && WellFormed(m.tree) && Happen(m, events, tick)
    ensures WellFormed(Later(m, events, tick).tree) && m.clock <= Later(m, events, tick).clock
    ensures Trusted(l, d, m) ==> Trusted(l, d, Later(m, events, tick))
    decreases |events|
  {
    if |events| > 0 {
      var m1 := Next(m, events[0], tick);
      ChangeEvolves(m, events[0].change, events[0].time, tick);
      if Trusted(l, d, m) { TrustSurvives(l, d, m, m1); }
      EventsEvolve(m1, events[1..], tick, l, d);
    }
  }

  lemma FineTickNeverMisses(s: Story, tick: int)
    requires 0 < tick <= RACY_WINDOW && Told(s, tick) && !s.listing.racy
    ensures ReuseIsRight(s.listing, s.d, End(s, tick))
  {
    var scan := Later(s.start, s.between, tick);
    EventsEvolve(s.start, s.between, tick, s.listing, s.d);
    assert Trusted(s.listing, s.d, scan);
    EventsEvolve(scan, s.since, tick, s.listing, s.d);
  }

  lemma SomeRecording() returns (file: string)
    ensures IsRecordingName(file) && IsName(file)
  {
    file := "20240101_000000_NF.mp4";
    assert file[..8] == "20240101" && file[9..15] == "000000" && file[18..] == ".mp4";
    assert file[..15][..8] == file[..8] && file[..15][9..] == file[9..15];
  }

  lemma FileShows(file: string)
    requires IsRecordingName(file)
    ensures !Shows(Listing(0, [], [], false, 0), "", Dir(0, [Item(file, false)]))
  {
    var items := [Item(file, false)];
    assert items[1..] == [] && FilesIn(items) == [file];
    EntriesAreTheInstants("", [file]);
    assert file in [file];
  }

  lemma ArrivalAtStamp0(m: Moment, file: string, tick: int)
    requires tick > 0 && m == Moment(tick - 1, map["" := Dir(0, [])]) && IsName(file)
    ensures var arrival := Event(CreateFile("", file), tick - 1);
      && Happen(m, [arrival], tick)
      && Later(m, [arrival], tick) == Moment(tick - 1, map["" := Dir(0, [Item(file, false)])])
  {
    var arrival := Event(CreateFile("", file), tick - 1);
    assert m.tree[""].items + [Item(file, false)] == [Item(file, false)] && (tick - 1) % tick == tick - 1;
    assert Next(m, arrival, tick) == Moment(tick - 1, map["" := Dir(0, [Item(file, false)])]);
    assert [arrival][1..] == [];
  }

  /** A recording arrives right after the scan of an empty directory, in the same tick. */
  lemma CoarseTickMisses(tick: int)
    requires tick > RACY_WINDOW
    ensures exists s :: Told(s, tick) && !s.listing.racy && !ReuseIsRight(s.listing, s.d, End(s, tick))
  {
    var m := Moment(tick - 1, map["" := Dir(0, [])]);
    var file := SomeRecording();
    var arrival := Event(CreateFile("", file), tick - 1);
    ArrivalAtStamp0(m, file, tick);
    FileShows(file);
    assert Later(m, [], tick) == m && WellFormed(m.tree);
    var s := Story(tick - 1, m, "", [], Listing(0, [], [], false, 0), [arrival]);
    assert Told(s, tick) && End(s, tick) == Later(m, [arrival], tick);
  }

  /** MAIN: the two-second window is enough for every run of changes, and needed in full: a
      cached listing that counts as old enough never misses a change iff the stamps of the
      file system are no coarser than the window. */
  lemma WindowMustCoverTheTick(tick: int)
    requires tick > 0
    ensures NeverMisses(tick) <==> tick <= RACY_WINDOW
  {
    if tick <= RACY_WINDOW {
      forall s | Told(s, tick) && !s.listing.racy ensures ReuseIsRight(s.listing, s.d, End(s, tick)) {
        FineTickNeverMisses(s, tick);
      }
    } else {
      CoarseTickMisses(tick);
    }
  }

  /** Facts about a listing that do not depend on the moment. */
  ghost predicate Sound(l: Listing, d: string, universe: set<string>)
  {
    && (forall e :: e in l.entries ==> e.relDir == d)
    && (forall s :: s in l.subdirs ==> s in universe && Parent(s) == d && |s| > |d|)
    && Distinct(l.subdirs)
  }

  ghost predicate Distinct(s: seq<string>)
  {
    forall i, j :: 0 <= i < j < |s| ==> s[i] != s[j]
  }

  lemma {:induction false} SubdirsDistinct(dir: string, items: seq<Item>)
    requires NamesOk(items)
    ensures Distinct(SubdirsOf(dir, items))
  {
    if |items| > 0 {
      var rest := SubdirsOf(dir, items[1..]);
      SubdirsDistinct(dir, items[1..]);
      forall j | 0 <= j < |rest| ensures rest[j] != Child(dir, items[0].name) {
        SubdirMember(dir, items[1..], rest[j]);
        var n :| Item(n, true) in items[1..] && !SkippedName(n) && Child(dir, n) == rest[j];
        var i :| 0 <= i < |items[1..]| && items[1..][i] == Item(n, true);
        assert items[0].name != items[i + 1].name;
        if rest[j] == Child(dir, items[0].name) {
          ChildInjective(dir, n, items[0].name);
        }
      }
    }
  }

  lemma EntriesOwned(d: string, files: seq<string>)
    ensures forall e :: e in EntriesInDir(d, files) ==> e.relDir == d
  {
  }

  lemma SubdirSound(d: string, s: string, tree: Tree)
    requires d in tree && DirOk(tree, d) && s in SubdirsOf(d, tree[d].items)
    ensures s in tree && Parent(s) == d && |s| > |d|
  {
    SubdirMember(d, tree[d].items, s);
    var n :| Item(n, true) in tree[d].items && !SkippedName(n) && Child(d, n) == s;
    ItemNameOk(tree, d, Item(n, true));
    ParentOfChild(d, n);
  }

  lemma ShownIsSound(l: Listing, d: string, tree: Tree, universe: set<string>)
    requires WellFormed(tree) && tree.Keys <= universe && d in tree && Shows(l, d, tree[d])
    ensures Sound(l, d, universe)
  {
    assert DirOk(tree, d);
    EntriesOwned(d, FilesIn(tree[d].items));
    SubdirsDistinct(d, tree[d].items);
    forall s | s in l.subdirs ensures s in universe && Parent(s) == d && |s| > |d| {
      SubdirSound(d, s, tree);
    }
  }

  // ---- one walk ------------------------------------------------------------------------------------

  ghost predicate ShownBetween(world: nat -> Moment, i: nat, j: nat, d: string, l: Listing)
  {
    exists k: nat :: i <= k <= j && d in world(k).tree && Shows(l, d, world(k).tree[d])
  }

  ghost predicate GoneBetween(world: nat -> Moment, i: nat, j: nat, d: string)
  {
    exists k: nat :: i <= k <= j && d !in world(k).tree
  }

  /** The directory shows its contents of some instant between i and j, and was found through
      its parent. */
  ghost predicate WalkedAt(world: nat -> Moment, i: nat, j: nat, seen: map<string, Listing>, d: string)
    requires d in seen
  {
    && ShownBetween(world, i, j, d, seen[d])
    && (|d| > 0 ==> Parent(d) in seen && d in seen[Parent(d)].subdirs)
  }

  /** What the worklist loop has established between instants i and j, of every directory seen. */
  ghost predicate Walked(world: nat -> Moment, i: nat, j: nat, seen: map<string, Listing>)
  {
    forall d {:trigger WalkedAt(world, i, j, seen, d)} :: d in seen ==> WalkedAt(world, i, j, seen, d)
  }

  ghost predicate ClosedAt(world: nat -> Moment, i: nat, j: nat, seen: map<string, Listing>, d: string)
    requires d in seen
  {
    forall s :: s in seen[d].subdirs ==> s in seen || GoneBetween(world, i, j, s)
  }

  /** A finished walk: every subdirectory listed was seen, or was gone at some instant. */
  ghost predicate Closed(world: nat -> Moment, i: nat, j: nat, seen: map<string, Listing>)
  {
    && ("" in seen || GoneBetween(world, i, j, ""))
    && forall d {:trigger ClosedAt(world, i, j, seen, d)} :: d in seen ==> ClosedAt(world, i, j, seen, d)
  }

  ghost predicate AtRest(world: nat -> Moment, i: nat, j: nat, tree: Tree)
  {
    forall k: nat :: i <= k <= j ==> world(k).tree == tree
  }

  /** The entries that a walk of a resting tree finds. */
  ghost function Rescan(tree: Tree): map<string, seq<Entry>>
  {
    map d | d in tree && Reached(tree, d, true) :: EntriesInDir(d, FilesIn(tree[d].items))
  }

  lemma SeenAtRest(world: nat -> Moment, i: nat, j: nat, seen: map<string, Listing>, tree: Tree, d: string)
    requires Walked(world, i, j, seen) && AtRest(world, i, j, tree) && d in seen
    ensures d in tree && Shows(seen[d], d, tree[d])
    ensures |d| > 0 ==> Parent(d) in seen && d in seen[Parent(d)].subdirs
  {
    assert WalkedAt(world, i, j, seen, d);
  }

  lemma {:induction false} SeenIsReached(world: nat -> Moment, i: nat, j: nat, seen: map<string,
      Listing>, tree: Tree, d: string)
    requires Walked(world, i, j, seen) && AtRest(world, i, j, tree) && WellFormed(tree) && d in seen
    ensures Reached(tree, d, true)
    decreases |d|
  {
    SeenAtRest(world, i, j, seen, tree, d);
    if |d| > 0 {
      var p := Parent(d);
      SeenAtRest(world, i, j, seen, tree, p);
      SubdirMember(p, tree[p].items, d);
      var n :| Item(n, true) in tree[p].items && !SkippedName(n) && Child(p, n) == d;
      assert DirOk(tree, p);
      ItemNameOk(tree, p, Item(n, true));
      ParentOfChild(p, n);
      SeenIsReached(world, i, j, seen, tree, p);
    }
  }

  lemma {:induction false} ReachedIsSeen(world: nat -> Moment, i: nat, j: nat, seen: map<string,
      Listing>, tree: Tree, d: string)
    requires Walked(world, i, j, seen) && Closed(world, i, j, seen) && AtRest(world, i, j, tree)
    requires Reached(tree, d, true)
    ensures d in seen
    decreases |d|
  {
    if |d| > 0 {
      var p := Parent(d);
      ReachedIsSeen(world, i, j, seen, tree, p);
      SeenAtRest(world, i, j, seen, tree, p);
      SubdirMember(p, tree[p].items, d);
      assert ClosedAt(world, i, j, seen, p);
    }
  }

  function EntriesOf(seen: map<string, Listing>): map<string, seq<Entry>>
  {
    map d | d in seen :: seen[d].entries
  }

  /** MAIN: while the tree is at rest, the cached walk finds exactly what a rescan finds. */
  lemma QuietWalkIsRescan(world: nat -> Moment, i: nat, j: nat, seen: map<string, Listing>, tree: Tree)
    requires Walked(world, i, j, seen) && Closed(world, i, j, seen)
    requires AtRest(world, i, j, tree) && WellFormed(tree)
    ensures EntriesOf(seen) == Rescan(tree)
  {
    forall d ensures d in seen <==> d in tree && Reached(tree, d, true) {
      if d in seen { SeenIsReached(world, i, j, seen, tree, d); }
      if d in tree && Reached(tree, d, true) { ReachedIsSeen(world, i, j, seen, tree, d); }
    }
    forall d | d in seen ensures seen[d].entries == Rescan(tree)[d] {
      SeenAtRest(world, i, j, seen, tree, d);
    }
  }
}
