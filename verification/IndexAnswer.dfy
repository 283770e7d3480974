/** What the recordings index and the plain walk answer, said of the directory tree alone: which
    directories count, which entries there are, what they hold, and in which order. */
module IndexAnswer {
  import opened Common
  import opened Recordings
  import opened Entries
  import opened EntryContents
  import opened FileTree
  import opened RecordingIndex

  // ---- which directories are looked into ------------------------------------------------------------

  /** A part of the path starts here with one of the three marks of hidden and system directories. */
  predicate IsMarked(path: string, i: nat)
  {
    i < |path| && (i == 0 || path[i - 1] == '/') && (path[i] == '.' || path[i] == '@' || path[i] == '#')
  }

  predicate IsVisible(path: string) { forall i :: 0 <= i < |path| ==> !IsMarked(path, i) }

  lemma VisibleChild(dir: string, name: string)
    requires IsName(name)
    ensures IsVisible(Child(dir, name)) <==> IsVisible(dir) && !SkippedName(name)
  {
    var path := Child(dir, name);
    var cut := if |dir| == 0 then 0 else |dir| + 1;
    assert path[cut..] == name && path[..|dir|] == dir;
    forall i | 0 <= i < |dir| ensures IsMarked(path, i) <==> IsMarked(dir, i) {
      assert path[i] == dir[i] && (i > 0 ==> path[i - 1] == dir[i - 1]);
    }
    assert IsMarked(path, cut) <==> SkippedName(name) by { assert path[cut] == name[0]; }
    forall i | cut < i < |path| ensures !IsMarked(path, i) {
      assert path[i - 1] == name[i - 1 - cut] && name[i - 1 - cut] in name;
    }
    assert cut > 0 ==> !IsMarked(path, |dir|);
  }

  /** A directory is reached iff no part of its path is hidden. */
  lemma {:induction false} ReachedIff(tree: Tree, d: string)
    requires WellFormed(tree)
    ensures Reached(tree, d, true) <==> d in tree && IsVisible(d)
    decreases |d|
  {
    if d in tree && |d| > 0 {
      var p := Parent(d);
      assert Rooted(tree, d) && DirOk(tree, p);
      var n :| Item(n, true) in tree[p].items && Child(p, n) == d;
      ItemNameOk(tree, p, Item(n, true));
      ParentOfChild(p, n);
      VisibleChild(p, n);
      ReachedIff(tree, p);
      forall m | Child(p, m) == d ensures m == n { ChildInjective(p, m, n); }
    }
  }

  lemma {:induction false} FilesInAre(items: seq<Item>, n: string)
    ensures n in FilesIn(items) <==> Item(n, false) in items
  {
    if |items| > 0 {
      FilesInAre(items[1..], n);
      assert Item(n, false) in items <==> items[0] == Item(n, false) || Item(n, false) in items[1..];
    }
  }

  // ---- from the order by keys to the entries themselves ---------------------------------------------

  lemma {:induction false} MemberByKey(s: seq<Entry>, k: Key, e: Entry)
    ensures e in WithKey(s, k) <==> e in s && KeyOf(e) == k
  {
    if |s| > 0 { MemberByKey(s[1..], k, e); }
  }

  predicate SameInstant(a: Entry, b: Entry) { a.base == b.base && a.kind == b.kind && a.relDir == b.relDir }

  ghost predicate OneEach(s: seq<Entry>) { forall i, j :: 0 <= i < j < |s| ==> !SameInstant(s[i], s[j]) }

  lemma {:induction false} OneEachByKey(s: seq<Entry>, k: Key)
    requires OneEach(s)
    ensures OneEach(WithKey(s, k))
  {
    if |s| > 0 {
      OneEachByKey(s[1..], k);
      var rest := WithKey(s[1..], k);
      forall j | 0 <= j < |rest| ensures !SameInstant(s[0], rest[j]) {
        MemberByKey(s[1..], k, rest[j]);
        assert rest[j] in rest;
        var i :| 0 <= i < |s[1..]| && s[1..][i] == rest[j];
        assert s[i + 1] == rest[j];
      }
    }
  }

  lemma {:induction false} OneEachOfAllKeys(s: seq<Entry>)
    requires forall k :: OneEach(WithKey(s, k))
    ensures OneEach(s)
  {
    if |s| > 0 {
      forall k ensures OneEach(WithKey(s[1..], k)) { TailOfKey(s, k); }
      OneEachOfAllKeys(s[1..]);
      forall j | 0 < j < |s| ensures !SameInstant(s[0], s[j]) {
        NoTwin(s, j);
      }
    }
  }

  lemma NoTwin(s: seq<Entry>, j: nat)
    requires 0 < j < |s| && OneEach(WithKey(s, KeyOf(s[0])))
    ensures !SameInstant(s[0], s[j])
  {
    var k := KeyOf(s[0]);
    var all, rest := WithKey(s, k), WithKey(s[1..], k);
    forall x | x in rest ensures !SameInstant(s[0], x) {
      var i :| 0 <= i < |rest| && rest[i] == x;
      assert all[0] == s[0] && all[i + 1] == x;
    }
    assert s[1..][j - 1] == s[j];
    MemberByKey(s[1..], k, s[j]);
  }

  lemma TailOfKey(s: seq<Entry>, k: Key)
    requires |s| > 0 && OneEach(WithKey(s, k))
    ensures OneEach(WithKey(s[1..], k))
  {
    var all, rest := WithKey(s, k), WithKey(s[1..], k);
    if KeyOf(s[0]) == k {
      assert forall i :: 0 <= i < |rest| ==> rest[i] == all[i + 1];
    }
  }

  // ---- the answer ---------------------------------------------------------------------------------------

  ghost predicate Names(items: seq<Item>, files: seq<string>)
  {
    forall n :: n in files <==> Item(n, false) in items
  }

  /** An entry of the view is that of a directory that counts and holds the files there. */
  ghost predicate TellsTruth(e: Entry, tree: Tree, hidden: bool)
  {
    && e.relDir in tree && (hidden || IsVisible(e.relDir)) && IsBase(e.base)
    && (forall files :: Names(tree[e.relDir].items, files) ==> HoldsFiles(e, files))
    && (exists n :: Item(n, false) in tree[e.relDir].items && IsVideoOf(n, (e.base, e.kind)))
  }

  ghost predicate IsToldOf(view: seq<Entry>, d: string, n: string)
  {
    exists e :: e in view && e.relDir == d && IsVideoOf(n, (e.base, e.kind))
  }

  ghost predicate TellsAll(view: seq<Entry>, tree: Tree, hidden: bool)
  {
    forall d, n :: d in tree && (hidden || IsVisible(d)) && Item(n, false) in tree[d].items && IsRecordingName(n) ==>
      IsToldOf(view, d, n)
  }

  /** By base name from the largest, which is from the newest, and then by directory. */
  ghost predicate InOrder(view: seq<Entry>)
  {
    forall i, j :: 0 <= i < j < |view| ==>
      && !LexLess(view[i].base, view[j].base)
      && (view[i].base == view[j].base ==> !LexLess(view[i].relDir, view[j].relDir))
  }

  /** The view has one entry for every instant that some video in a directory that counts belongs
      to, and no other, each with its files, in order. */
  ghost predicate TellsTree(view: seq<Entry>, tree: Tree, hidden: bool)
  {
    && (forall e :: e in view ==> TellsTruth(e, tree, hidden))
    && TellsAll(view, tree, hidden) && OneEach(view) && InOrder(view)
  }

  /** What a walk finds in the directories that count. */
  ghost predicate FindsDirs(found: map<string, seq<Entry>>, tree: Tree, hidden: bool)
  {
    && (forall d :: d in found <==> d in tree && (hidden || IsVisible(d)))
    && (forall d :: d in found ==> d in tree && found[d] == EntriesInDir(d, FilesIn(tree[d].items)))
  }

  lemma FoundTellsTruth(d: string, tree: Tree, hidden: bool, e: Entry)
    requires d in tree && (hidden || IsVisible(d)) && e in EntriesInDir(d, FilesIn(tree[d].items))
    ensures e.relDir == d && TellsTruth(e, tree, hidden)
  {
    var files := FilesIn(tree[d].items);
    EntryIsExact(d, files, e);
    EntriesAreTheInstants(d, files);
    var v :| v in files && IsVideoOf(v, (e.base, e.kind));
    FilesInAre(tree[d].items, v);
    forall other | Names(tree[d].items, other) ensures HoldsFiles(e, other) {
      forall n ensures n in files <==> n in other { FilesInAre(tree[d].items, n); }
      SameFilesHeld(e, files, other);
    }
  }

  lemma SameChoice(files: seq<string>, other: seq<string>, key: Instant, c: char, v: string)
    requires forall n :: n in files <==> n in other
    ensures IsChosen(files, key, c, v) <==> IsChosen(other, key, c, v)
  {
    forall n ensures IsVideoIn(files, key, c, n) <==> IsVideoIn(other, key, c, n) {
    }
  }

  lemma SameFilesHeld(e: Entry, files: seq<string>, other: seq<string>)
    requires HoldsFiles(e, files) && forall n :: n in files <==> n in other
    ensures HoldsFiles(e, other)
  {
    var key := (e.base, e.kind);
    forall c, v ensures IsChosen(files, key, c, v) <==> IsChosen(other, key, c, v) {
      SameChoice(files, other, key, c, v);
    }
    forall c, v, t ensures IsThumb(files, key, c, v, t) <==> IsThumb(other, key, c, v, t) {
    }
    forall c, t
      ensures (c, t) in e.thumbs <==> exists v :: IsChosen(other, key, c, v) && IsThumb(other, key, c, v, t)
    {
      if v :| IsChosen(other, key, c, v) && IsThumb(other, key, c, v, t) {
        assert IsChosen(files, key, c, v) && IsThumb(files, key, c, v, t);
      }
      if (c, t) in e.thumbs {
        var v :| IsChosen(files, key, c, v) && IsThumb(files, key, c, v, t);
        assert IsChosen(other, key, c, v) && IsThumb(other, key, c, v, t);
      }
    }
  }

  lemma ViewMember(view: seq<Entry>, found: map<string, seq<Entry>>, e: Entry)
    requires IsAnswer(view, found)
    ensures e in view <==> e.relDir in found && e in found[e.relDir]
  {
    MemberByKey(view, KeyOf(e), e);
    if e.relDir in found { MemberByKey(found[e.relDir], KeyOf(e), e); }
  }

  lemma AnswerIsTrue(view: seq<Entry>, found: map<string, seq<Entry>>, tree: Tree, hidden: bool, e: Entry)
    requires FindsDirs(found, tree, hidden) && IsAnswer(view, found) && e in view
    ensures TellsTruth(e, tree, hidden)
  {
    ViewMember(view, found, e);
    FoundTellsTruth(e.relDir, tree, hidden, e);
  }

  lemma AnswerIsComplete(view: seq<Entry>, found: map<string, seq<Entry>>, tree: Tree, hidden: bool, d: string,
      n: string)
    requires FindsDirs(found, tree, hidden) && IsAnswer(view, found)
    requires d in found && Item(n, false) in tree[d].items && IsRecordingName(n)
    ensures IsToldOf(view, d, n)
  {
    FilesInAre(tree[d].items, n);
    EntriesAreTheInstants(d, FilesIn(tree[d].items));
    var e :| e in found[d] && (e.base, e.kind) == KeyIn(n);
    ViewMember(view, found, e);
  }

  lemma AnswerHasOneEach(view: seq<Entry>, found: map<string, seq<Entry>>, tree: Tree, hidden: bool)
    requires FindsDirs(found, tree, hidden) && IsAnswer(view, found)
    ensures OneEach(view)
  {
    forall k ensures OneEach(WithKey(view, k)) {
      if k.relDir in found {
        EntriesAreTheInstants(k.relDir, FilesIn(tree[k.relDir].items));
        OneEachByKey(found[k.relDir], k);
      }
    }
    OneEachOfAllKeys(view);
  }

  /** MAIN: the answer for what a walk finds tells the tree. */
  lemma AnswerTells(view: seq<Entry>, found: map<string, seq<Entry>>, tree: Tree, hidden: bool)
    requires FindsDirs(found, tree, hidden) && IsAnswer(view, found)
    ensures TellsTree(view, tree, hidden)
  {
    forall e | e in view ensures TellsTruth(e, tree, hidden) { AnswerIsTrue(view, found, tree, hidden, e); }
    forall d, n | d in tree && (hidden || IsVisible(d)) && Item(n, false) in tree[d].items && IsRecordingName(n)
      ensures IsToldOf(view, d, n)
    {
      AnswerIsComplete(view, found, tree, hidden, d, n);
    }
    AnswerHasOneEach(view, found, tree, hidden);
    forall i, j | 0 <= i < j < |view|
      ensures !LexLess(view[i].base, view[j].base)
      ensures view[i].base == view[j].base ==> !LexLess(view[i].relDir, view[j].relDir)
    {
      assert view[i] in view && view[j] in view;
      assert TellsTruth(view[i], tree, hidden) && TellsTruth(view[j], tree, hidden);
      KeyOrderIs(view[i], view[j]);
    }
  }

  /** The index answers for every directory with a visible path. */
  lemma IndexTells(view: seq<Entry>, tree: Tree)
    requires WellFormed(tree) && IsAnswer(view, Rescan(tree))
    ensures TellsTree(view, tree, false)
  {
    forall d ensures d in Rescan(tree) <==> d in tree && IsVisible(d) { ReachedIff(tree, d); }
    AnswerTells(view, Rescan(tree), tree, false);
  }

  // ---- days and lookups -----------------------------------------------------------------------------------

  /** Each day's list is of the recordings whose base names start with its date, and the dates fall. */
  ghost predicate DaysTell(days: Days)
  {
    && (forall i :: 0 <= i < |days| ==> |days[i].1| > 0)
    && (forall i, e :: 0 <= i < |days| && e in days[i].1 ==> IsBase(e.base) && days[i].0 == Number(e.base[..8]))
    && (forall i, j, a, b :: 0 <= i < j < |days| && a in days[i].1 && b in days[j].1 ==>
          LexLess(b.base[..8], a.base[..8]))
  }

  lemma {:induction false} MergedHas(days: Days, i: nat, e: Entry)
    requires i < |days| && e in days[i].1
    ensures e in Merged(days)
  {
    if i > 0 { MergedHas(days[1..], i - 1, e); }
  }

  lemma DayViewTells(days: Days, entries: seq<Entry>)
    requires IsDayView(days, entries) && forall e :: e in entries ==> IsBase(e.base)
    ensures DaysTell(days)
  {
    forall i, e | 0 <= i < |days| && e in days[i].1
      ensures IsBase(e.base) && days[i].0 == Number(e.base[..8])
    {
      MergedHas(days, i, e);
    }
    forall i, j, a, b | 0 <= i < j < |days| && a in days[i].1 && b in days[j].1
      ensures LexLess(b.base[..8], a.base[..8])
    {
      MergedHas(days, i, a);
      MergedHas(days, j, b);
      NumberOrder(b.base[..8], a.base[..8]);
    }
  }

  /** The first entry with this base name and type, if there is one. */
  ghost predicate IsFirst(entries: seq<Entry>, base: string, kind: char, r: Option<Entry>)
  {
    if r.None? then forall e :: e in entries ==> e.base != base || e.kind != kind
    else exists i ::
      && 0 <= i < |entries| && entries[i] == r.value && entries[i].base == base && entries[i].kind == kind
      && forall j :: 0 <= j < i ==> entries[j].base != base || entries[j].kind != kind
  }

  lemma {:induction false} FirstMatchIsFirst(entries: seq<Entry>, base: string, kind: char)
    ensures IsFirst(entries, base, kind, FirstMatch(entries, base, kind))
  {
    if |entries| > 0 && (entries[0].base != base || entries[0].kind != kind) {
      FirstMatchIsFirst(entries[1..], base, kind);
      var r := FirstMatch(entries[1..], base, kind);
      if r.Some? {
        var i :| 0 <= i < |entries[1..]| && entries[1..][i] == r.value && entries[1..][i].base == base
          && entries[1..][i].kind == kind
          && forall j :: 0 <= j < i ==> entries[1..][j].base != base || entries[1..][j].kind != kind;
        assert entries[i + 1] == r.value;
        forall j | 0 <= j < i + 1 ensures entries[j].base != base || entries[j].kind != kind {
          if j > 0 { assert entries[j] == entries[1..][j - 1]; }
        }
      }
    }
  }
}
