/** The directory tree that the index reads, and how other processes change it. */
module FileTree {
  import opened Common

  datatype Item = Item(name: string, isDir: bool)

  /** A directory: its modification stamp and its items in scan order. */
  datatype Dir = Dir(mtime: int, items: seq<Item>)

  /** Directories by path relative to the root "". */
  type Tree = map<string, Dir>

  datatype Moment = Moment(clock: int, tree: Tree)

  /** Timestamps are at most this much coarser than the clock (two seconds, in nanoseconds). */
  const GRANULARITY := 2_000_000_000

  predicate IsName(n: string) { |n| > 0 && '/' !in n }

  function Child(dir: string, name: string): string
  {
    if |dir| == 0 then name else dir + "/" + name
  }

  function Parent(path: string): string
  {
    if |path| == 0 then ""
    else if path[|path| - 1] == '/' then path[..|path| - 1]
    else Parent(path[..|path| - 1])
  }

  lemma {:induction false} ParentDropsName(prefix: string, name: string)
    requires '/' !in name
    ensures Parent(prefix + name) == Parent(prefix)
    decreases |name|
  {
    if |name| == 0 {
      assert prefix + name == prefix;
    } else {
      var p := prefix + name;
      assert p[..|p| - 1] == prefix + name[..|name| - 1];
      assert p[|p| - 1] == name[|name| - 1] && name[|name| - 1] in name;
      ParentDropsName(prefix, name[..|name| - 1]);
    }
  }

  lemma ParentOfChild(dir: string, name: string)
    requires IsName(name)
    ensures Parent(Child(dir, name)) == dir && |Child(dir, name)| > |dir|
  {
    if |dir| == 0 {
      assert "" + name == name;
      ParentDropsName("", name);
    } else {
      ParentDropsName(dir + "/", name);
      assert (dir + "/")[..|dir + "/"| - 1] == dir;
    }
  }

  lemma ChildInjective(dir: string, a: string, b: string)
    requires Child(dir, a) == Child(dir, b)
    ensures a == b
  {
    if |dir| > 0 {
      assert (dir + "/" + a)[|dir| + 1..] == a && (dir + "/" + b)[|dir| + 1..] == b;
    }
  }

  ghost predicate NamesOk(items: seq<Item>)
  {
    && (forall i :: 0 <= i < |items| ==> IsName(items[i].name))
    && (forall i, j :: 0 <= i < j < |items| ==> items[i].name != items[j].name)
  }

  ghost predicate ChildrenIn(tree: Tree, d: string, items: seq<Item>)
  {
    forall n :: Item(n, true) in items ==> Child(d, n) in tree
  }

  ghost predicate DirOk(tree: Tree, d: string)
    requires d in tree
  {
    NamesOk(tree[d].items) && ChildrenIn(tree, d, tree[d].items)
  }

  ghost predicate Lists(tree: Tree, parent: string, path: string)
  {
    parent in tree && exists n :: Item(n, true) in tree[parent].items && Child(parent, n) == path
  }

  ghost predicate Rooted(tree: Tree, d: string) { |d| > 0 ==> Lists(tree, Parent(d), d) }

  /** Proper names, no dangling subdirectories, and every directory listed by its parent. (The
      triggers keep one directory from dragging in all its relatives.) */
  ghost predicate WellFormed(tree: Tree)
  {
    && (forall d {:trigger DirOk(tree, d)} :: d in tree ==> DirOk(tree, d))
    && (forall d {:trigger Rooted(tree, d)} :: d in tree ==> Rooted(tree, d))
  }

  /** One step of the outside world: time does not go back, and every directory that is new
      or whose items changed carries a stamp taken at the time of the step. */
  ghost predicate Evolves(m: Moment, m': Moment)
  {
    && m.clock <= m'.clock
    && WellFormed(m'.tree)
    && (forall d :: d in m'.tree ==>
          (d in m.tree && m'.tree[d] == m.tree[d]) || m'.clock - GRANULARITY < m'.tree[d].mtime)
  }

  // ---- the steps that exist ------------------------------------------------------------------

  /** A stamp for time t: a clock truncated to ticks of `tick` nanoseconds. */
  function Stamp(t: int, tick: int): int
    requires tick > 0
  {
    t - t % tick
  }

  datatype Change =
    | CreateFile(dir: string, name: string)
    | RemoveFile(dir: string, name: string)
    | RenameFile(dir: string, name: string, toDir: string, toName: string)
    | MkDir(dir: string, name: string)
    | RmDir(dir: string, name: string)

  predicate HasItem(tree: Tree, d: string, name: string, isDir: bool)
  {
    d in tree && Item(name, isDir) in tree[d].items
  }

  predicate NameFree(tree: Tree, d: string, name: string)
  {
    d in tree && IsName(name) && forall i :: 0 <= i < |tree[d].items| ==> tree[d].items[i].name != name
  }

  predicate Possible(tree: Tree, c: Change)
  {
    match c
    case CreateFile(d, n) => NameFree(tree, d, n)
    case RemoveFile(d, n) => HasItem(tree, d, n, false)
    case RenameFile(d, n, d', n') => HasItem(tree, d, n, false) && IsName(n')
      && (NameFree(tree, d', n') || (HasItem(tree, d', n', false) && (d, n) != (d', n')))
    case MkDir(d, n) => NameFree(tree, d, n) && Child(d, n) !in tree
    case RmDir(d, n) => HasItem(tree, d, n, true) && Child(d, n) in tree && |tree[Child(d, n)].items| == 0
  }

  function Drop(items: seq<Item>, name: string): (r: seq<Item>)
    ensures forall x :: x in r <==> x in items && x.name != name
  {
    if |items| == 0 then []
    else
      var rest := Drop(items[1..], name);
      if items[0].name == name then rest else [items[0]] + rest
  }

  lemma {:induction false} DropNamesOk(items: seq<Item>, name: string)
    requires NamesOk(items)
    ensures NamesOk(Drop(items, name))
  {
    if |items| > 0 {
      DropNamesOk(items[1..], name);
      var rest := Drop(items[1..], name);
      forall j | 0 <= j < |rest| ensures rest[j].name != items[0].name {
        assert rest[j] in rest;
        var i :| 0 <= i < |items[1..]| && items[1..][i] == rest[j];
        assert items[i + 1] == rest[j];
      }
    }
  }

  lemma AddNamesOk(items: seq<Item>, item: Item)
    requires NamesOk(items) && IsName(item.name)
    requires forall i :: 0 <= i < |items| ==> items[i].name != item.name
    ensures NamesOk(items + [item])
    ensures forall x :: x in items + [item] <==> x in items || x == item
  {
  }

  function Put(tree: Tree, d: string, items: seq<Item>, stamp: int): Tree
  {
    tree[d := Dir(stamp, items)]
  }

  function Changed(tree: Tree, c: Change, stamp: int): Tree
    requires Possible(tree, c)
  {
    match c
    case CreateFile(d, n) => Put(tree, d, tree[d].items + [Item(n, false)], stamp)
    case RemoveFile(d, n) => Put(tree, d, Drop(tree[d].items, n), stamp)
    case RenameFile(d, n, d', n') =>
      var without := Put(tree, d, Drop(tree[d].items, n), stamp);
      Put(without, d', Drop(without[d'].items, n') + [Item(n', false)], stamp)
    case MkDir(d, n) => Put(tree, d, tree[d].items + [Item(n, true)], stamp)[Child(d, n) := Dir(stamp, [])]
    case RmDir(d, n) => Put(tree, d, Drop(tree[d].items, n), stamp) - {Child(d, n)}
  }

  ghost predicate SameSubdirs(a: seq<Item>, b: seq<Item>)
  {
    forall n :: Item(n, true) in a <==> Item(n, true) in b
  }

  lemma PutKeepsWellFormed(tree: Tree, d: string, items: seq<Item>, stamp: int)
    requires WellFormed(tree) && d in tree && NamesOk(items) && SameSubdirs(items, tree[d].items)
    ensures WellFormed(Put(tree, d, items, stamp))
  {
    var t := Put(tree, d, items, stamp);
    forall e | e in t ensures DirOk(t, e) {
      assert DirOk(tree, e) && DirOk(tree, d);
    }
    forall e | e in t ensures Rooted(t, e) {
      assert Rooted(tree, e);
    }
  }

  lemma MkDirKeepsWellFormed(tree: Tree, d: string, n: string, stamp: int)
    requires WellFormed(tree) && Possible(tree, MkDir(d, n))
    ensures WellFormed(Changed(tree, MkDir(d, n), stamp))
  {
    var t := Changed(tree, MkDir(d, n), stamp);
    var c := Child(d, n);
    ParentOfChild(d, n);
    assert DirOk(tree, d);
    AddNamesOk(tree[d].items, Item(n, true));
    forall e | e in t ensures DirOk(t, e) {
      if e != c {
        assert DirOk(tree, e);
        assert ChildrenIn(t, e, t[e].items);
      }
    }
    forall e | e in t ensures Rooted(t, e) {
      if e == c {
        assert Item(n, true) in t[d].items;
      } else {
        assert Rooted(tree, e);
        if |e| > 0 { ListsStays(tree, t, Parent(e), e); }
      }
    }
  }

  lemma ListsStays(tree: Tree, t: Tree, parent: string, path: string)
    requires Lists(tree, parent, path) && parent in t
    requires forall n :: Item(n, true) in tree[parent].items && Child(parent, n) == path ==>
      Item(n, true) in t[parent].items
    ensures Lists(t, parent, path)
  {
    var n :| Item(n, true) in tree[parent].items && Child(parent, n) == path;
    assert Item(n, true) in t[parent].items;
  }

  lemma ChildDecides(d: string, n: string, e: string, m: string)
    requires IsName(n) && IsName(m) && Child(d, n) == Child(e, m)
    ensures d == e && n == m
  {
    ParentOfChild(d, n);
    ParentOfChild(e, m);
    ChildInjective(d, n, m);
  }

  lemma RmDirKeepsDirs(tree: Tree, d: string, n: string, stamp: int, e: string)
    requires WellFormed(tree) && Possible(tree, RmDir(d, n))
    requires e in Changed(tree, RmDir(d, n), stamp)
    ensures DirOk(Changed(tree, RmDir(d, n), stamp), e)
  {
    var t := Changed(tree, RmDir(d, n), stamp);
    assert DirOk(tree, d) && DirOk(tree, e);
    DropNamesOk(tree[d].items, n);
    ItemNameOk(tree, d, Item(n, true));
    var items := t[e].items;
    assert NamesOk(items) && forall x :: x in items ==> x in tree[e].items;
    forall m | Item(m, true) in items ensures Child(e, m) in t {
      ItemNameOk(tree, e, Item(m, true));
      assert Child(e, m) in tree;
      if Child(e, m) == Child(d, n) {
        ChildDecides(d, n, e, m);
      }
    }
  }

  lemma RmDirKeepsLists(tree: Tree, d: string, n: string, stamp: int, e: string)
    requires WellFormed(tree) && Possible(tree, RmDir(d, n))
    requires e in Changed(tree, RmDir(d, n), stamp)
    ensures Rooted(Changed(tree, RmDir(d, n), stamp), e)
  {
    assert Rooted(tree, e);
    if |e| > 0 {
      assert DirOk(tree, Parent(e));
      ListsStays(tree, Changed(tree, RmDir(d, n), stamp), Parent(e), e);
    }
  }

  lemma RmDirKeepsWellFormed(tree: Tree, d: string, n: string, stamp: int)
    requires WellFormed(tree) && Possible(tree, RmDir(d, n))
    ensures WellFormed(Changed(tree, RmDir(d, n), stamp))
  {
    var t := Changed(tree, RmDir(d, n), stamp);
    forall e | e in t ensures DirOk(t, e) { RmDirKeepsDirs(tree, d, n, stamp, e); }
    forall e | e in t ensures Rooted(t, e) { RmDirKeepsLists(tree, d, n, stamp, e); }
  }

  lemma ItemNameOk(tree: Tree, d: string, item: Item)
    requires d in tree && DirOk(tree, d) && item in tree[d].items
    ensures IsName(item.name)
  {
  }

  /** One directory loses the file n. */
  lemma DropKeepsWellFormed(tree: Tree, d: string, n: string, stamp: int)
    requires WellFormed(tree) && HasItem(tree, d, n, false)
    ensures WellFormed(Put(tree, d, Drop(tree[d].items, n), stamp))
  {
    assert DirOk(tree, d);
    FileNameNotDir(tree, d, n);
    DropNamesOk(tree[d].items, n);
    PutKeepsWellFormed(tree, d, Drop(tree[d].items, n), stamp);
  }

  /** One directory gains the file n, in place of an older one if there is one. */
  lemma AddKeepsWellFormed(tree: Tree, d: string, n: string, stamp: int)
    requires WellFormed(tree) && d in tree && IsName(n) && Item(n, true) !in tree[d].items
    ensures WellFormed(Put(tree, d, Drop(tree[d].items, n) + [Item(n, false)], stamp))
  {
    assert DirOk(tree, d);
    DropNamesOk(tree[d].items, n);
    var rest := Drop(tree[d].items, n);
    forall i | 0 <= i < |rest| ensures rest[i].name != n { assert rest[i] in rest; }
    AddNamesOk(rest, Item(n, false));
    PutKeepsWellFormed(tree, d, rest + [Item(n, false)], stamp);
  }

  lemma {:induction false} DropNothing(items: seq<Item>, n: string)
    requires forall i :: 0 <= i < |items| ==> items[i].name != n
    ensures Drop(items, n) == items
  {
    if |items| > 0 { DropNothing(items[1..], n); }
  }

  lemma RenameKeepsWellFormed(tree: Tree, c: Change, stamp: int)
    requires WellFormed(tree) && Possible(tree, c) && c.RenameFile?
    ensures WellFormed(Changed(tree, c, stamp))
  {
    var without := Put(tree, c.dir, Drop(tree[c.dir].items, c.name), stamp);
    DropKeepsWellFormed(tree, c.dir, c.name, stamp);
    assert Item(c.toName, true) !in tree[c.toDir].items by {
      assert DirOk(tree, c.toDir);
      if HasItem(tree, c.toDir, c.toName, false) { FileNameNotDir(tree, c.toDir, c.toName); }
    }
    AddKeepsWellFormed(without, c.toDir, c.toName, stamp);
  }

  lemma ChangeKeepsWellFormed(tree: Tree, c: Change, stamp: int)
    requires WellFormed(tree) && Possible(tree, c)
    ensures WellFormed(Changed(tree, c, stamp))
  {
    match c
    case CreateFile(d, n) =>
      DropNothing(tree[d].items, n);
      AddKeepsWellFormed(tree, d, n, stamp);
    case RemoveFile(d, n) => DropKeepsWellFormed(tree, d, n, stamp);
    case RenameFile(_, _, _, _) => RenameKeepsWellFormed(tree, c, stamp);
    case MkDir(d, n) => MkDirKeepsWellFormed(tree, d, n, stamp);
    case RmDir(d, n) => RmDirKeepsWellFormed(tree, d, n, stamp);
  }

  lemma OneItemPerName(items: seq<Item>, x: Item, y: Item)
    requires NamesOk(items) && x in items && y in items && x.name == y.name
    ensures x == y
  {
    var i :| 0 <= i < |items| && items[i] == x;
    var j :| 0 <= j < |items| && items[j] == y;
    assert items[i].name == items[j].name;
  }

  lemma FileNameNotDir(tree: Tree, d: string, n: string)
    requires HasItem(tree, d, n, false) && NamesOk(tree[d].items)
    ensures Item(n, true) !in tree[d].items
  {
    if Item(n, true) in tree[d].items {
      OneItemPerName(tree[d].items, Item(n, false), Item(n, true));
    }
  }

  /** Creating, removing and renaming files and making and removing directories are all steps
      of the outside world, whatever the tick of the file system up to two seconds. */
  lemma ChangeEvolves(m: Moment, c: Change, t: int, tick: int)
    requires WellFormed(m.tree) && Possible(m.tree, c)
    requires m.clock <= t && 0 < tick <= GRANULARITY
    ensures Evolves(m, Moment(t, Changed(m.tree, c, Stamp(t, tick))))
  {
    ChangeKeepsWellFormed(m.tree, c, Stamp(t, tick));
    ChangeStamps(m.tree, c, Stamp(t, tick));
    assert t - GRANULARITY < Stamp(t, tick);
  }

  /** Every directory a change touches gets the stamp; the others stay as they are. */
  lemma ChangeStamps(tree: Tree, c: Change, stamp: int)
    requires Possible(tree, c)
    ensures var t := Changed(tree, c, stamp);
      forall d :: d in t ==> (d in tree && t[d] == tree[d]) || t[d].mtime == stamp
  {
  }

  // ---- walks -----------------------------------------------------------------------------------

  /** Hidden and system directories. */
  predicate SkippedName(n: string) { |n| > 0 && n[0] in ".@#" }

  /** The directories that a walk from the root reaches; `skip` leaves the skipped names out. */
  ghost predicate Reached(tree: Tree, d: string, skip: bool)
    decreases |d|
  {
    && d in tree
    && (|d| > 0 ==>
          && |Parent(d)| < |d| && Parent(d) in tree
          && (exists n :: Item(n, true) in tree[Parent(d)].items && Child(Parent(d), n) == d
                && !(skip && SkippedName(n)))
          && Reached(tree, Parent(d), skip))
  }

  ghost predicate NoSkippedDirs(tree: Tree)
  {
    forall d, n :: d in tree && Item(n, true) in tree[d].items ==> !SkippedName(n)
  }

  /** Without skipped directories the walk that skips them reaches every directory there is. */
  lemma {:induction false} ReachedAll(tree: Tree, d: string)
    requires WellFormed(tree) && NoSkippedDirs(tree) && d in tree
    ensures Reached(tree, d, true)
    decreases |d|
  {
    if |d| > 0 {
      assert Rooted(tree, d) && DirOk(tree, Parent(d));
      var n :| Item(n, true) in tree[Parent(d)].items && Child(Parent(d), n) == d;
      ParentOfChild(Parent(d), n);
      ReachedAll(tree, Parent(d));
    }
  }
}
