/** The browser's log page (blackvuesync/server/static/js/logs.js): the boot id and watermark it
    keeps, and the rows in its pane. Filtering, scrolling and rendering are not modelled. */
module LogsView {
  import opened LogRing

  /** An identifier of a server process; NO_BOOT is the empty string. */
  type BootId = nat
  const NO_BOOT: BootId := 0

  datatype Frame = Frame(boot: BootId, lines: seq<Line>)

  /** A child of the pane. `Blank` is white space of the served page between two rows: it is a
      node of the pane, but not an element. */
  datatype Node = Blank | Shown(line: Line) | Marker

  datatype Page = Page(boot: BootId, last: nat, pane: seq<Node>, capacity: nat)

  /** The children that are elements. */
  function Rows(pane: seq<Node>): (rows: seq<Node>)
    ensures |rows| <= |pane|
  {
    if |pane| == 0 then []
    else Rows(pane[..|pane| - 1]) + if pane[|pane| - 1].Blank? then [] else [pane[|pane| - 1]]
  }

  function Max(a: nat, b: nat): nat { if a > b then a else b }

  /** The largest number among the lines, 0 for none. */
  function Newest(lines: seq<Line>): nat
  {
    if |lines| == 0 then 0
    else Max(Newest(lines[..|lines| - 1]), lines[|lines| - 1].number)
  }

  /** The largest number among the rows of a pane. */
  function NewestRow(pane: seq<Node>): nat
  {
    if |pane| == 0 then 0 else
    var before := NewestRow(pane[..|pane| - 1]);
    if pane[|pane| - 1].Shown? then Max(before, pane[|pane| - 1].line.number) else before
  }

  function Unseen(last: nat, lines: seq<Line>): seq<Line>
  {
    if |lines| == 0 then [] else
    var end := |lines| - 1;
    Unseen(last, lines[..end]) + if lines[end].number > last then [lines[end]] else []
  }

  function ShownRows(lines: seq<Line>): (rows: seq<Node>)
    ensures |rows| == |lines|
    ensures forall i :: 0 <= i < |rows| ==> rows[i] == Shown(lines[i])
  {
    if |lines| == 0 then [] else ShownRows(lines[..|lines| - 1]) + [Shown(lines[|lines| - 1])]
  }

  /** What syncBoot takes for a restarted server. */
  predicate Restarted(p: Page, f: Frame)
  {
    || (f.boot != NO_BOOT && p.boot != NO_BOOT && f.boot != p.boot)
    || (|f.lines| > 0 && Newest(f.lines) < p.last)
  }

  function Synced(p: Page, f: Frame): Page
  {
    var q := p.(boot := if f.boot != NO_BOOT then f.boot else p.boot);
    if Restarted(p, f) then q.(last := 0, pane := p.pane + [Marker]) else q
  }

  /** Removes the first children, one for each row beyond the capacity. */
  function Trimmed(pane: seq<Node>, capacity: nat): seq<Node>
  {
    if |Rows(pane)| > capacity then pane[|Rows(pane)| - capacity..] else pane
  }

  function Appended(p: Page, lines: seq<Line>): Page
  {
    var unseen := Unseen(p.last, lines);
    if |unseen| == 0 then p else
    p.(last := Max(p.last, Newest(unseen)),
       pane := Trimmed(p.pane + ShownRows(unseen), p.capacity))
  }

  function Framed(p: Page, f: Frame): Page { Appended(Synced(p, f), f.lines) }

  /** The rows a frame adds to the end of the pane. */
  function Added(p: Page, f: Frame): seq<Node>
  {
    (if Restarted(p, f) then [Marker] else []) + ShownRows(Unseen(Synced(p, f).last, f.lines))
  }

  lemma RowsPush(pane: seq<Node>, node: Node)
    ensures Rows(pane + [node]) == Rows(pane) + if node.Blank? then [] else [node]
  {
    assert (pane + [node])[..|pane|] == pane;
  }

  lemma {:induction false} RowsAppend(a: seq<Node>, b: seq<Node>)
    ensures Rows(a + b) == Rows(a) + Rows(b)
  {
    if |b| == 0 {
      assert a + b == a;
    } else {
      var front, last := b[..|b| - 1], b[|b| - 1];
      RowsAppend(a, front);
      assert a + b == (a + front) + [last];
      assert b == front + [last];
      RowsPush(a + front, last);
      RowsPush(front, last);
    }
  }

  lemma {:induction false} RowsOfRows(pane: seq<Node>)
    requires Blank !in pane
    ensures Rows(pane) == pane
  {
    if |pane| > 0 {
      RowsOfRows(pane[..|pane| - 1]);
      assert pane == pane[..|pane| - 1] + [pane[|pane| - 1]];
    }
  }

  /** Trimming cuts white space as if it were rows: the pane ends within its capacity exactly
      when none of the nodes it removes is white space. */
  lemma TrimReachesCapacityIff(pane: seq<Node>, capacity: nat)
    requires |Rows(pane)| > capacity
    ensures |Rows(Trimmed(pane, capacity))| >= capacity
    ensures |Rows(Trimmed(pane, capacity))| == capacity
      <==> Blank !in pane[..|Rows(pane)| - capacity]
  {
    var extra := |Rows(pane)| - capacity;
    var head, tail := pane[..extra], pane[extra..];
    assert pane == head + tail;
    RowsAppend(head, tail);
    if Blank !in head { RowsOfRows(head); } else { BlankIsNoRow(head); }
  }

  lemma {:induction false} BlankIsNoRow(pane: seq<Node>)
    requires Blank in pane
    ensures |Rows(pane)| < |pane|
  {
    var front := pane[..|pane| - 1];
    assert pane == front + [pane[|pane| - 1]];
    if Blank in front { BlankIsNoRow(front); }
  }

  /** The pane as the server renders it: white space around every row. */
  function Rendered(lines: seq<Line>): seq<Node>
  {
    if |lines| == 0 then [Blank]
    else Rendered(lines[..|lines| - 1]) + [Shown(lines[|lines| - 1]), Blank]
  }

  lemma {:induction false} RenderedRows(lines: seq<Line>)
    ensures |Rows(Rendered(lines))| == |lines| && Rendered(lines)[0] == Blank
  {
    if |lines| > 0 {
      var front, row := Rendered(lines[..|lines| - 1]), Shown(lines[|lines| - 1]);
      RenderedRows(lines[..|lines| - 1]);
      RowsPush(front, row);
      RowsPush(front + [row], Blank);
      assert Rendered(lines) == front + [row] + [Blank];
    }
  }

  /** A page that was served full keeps one row too many when the next line arrives. */
  lemma FullPageOverflows(boot: BootId, lines: seq<Line>, next: Line)
    requires |lines| > 0 && next.number > NewestRow(Rendered(lines))
    ensures
      var p := Page(boot, NewestRow(Rendered(lines)), Rendered(lines), |lines|);
      |Rows(Framed(p, Frame(boot, [next])).pane)| == |lines| + 1
  {
    var served := Rendered(lines);
    var p, f := Page(boot, NewestRow(served), served, |lines|), Frame(boot, [next]);
    assert [next][..0] == [];
    assert Newest([next]) == next.number && Unseen(p.last, [next]) == [next];
    assert ShownRows([next]) == [Shown(next)];
    var pane := served + [Shown(next)];
    RenderedRows(lines);
    RowsPush(served, Shown(next));
    assert |Rows(pane)| == |lines| + 1 && pane[0] == Blank;
    RowsAppend(pane[..1], pane[1..]);
    assert pane == pane[..1] + pane[1..] && pane[..1] == [Blank];
    RowsPush([], Blank);
    assert [] + [Blank] == [Blank];
  }

  class LogsPage {
    var boot: BootId
    var last: nat
    var pane: seq<Node>
    var capacity: nat

    ghost function View(): Page
      reads this
    {
      Page(boot, last, pane, capacity)
    }

    /** init(), on the page as the server rendered it. */
    constructor (bootId: BootId, rendered: seq<Node>, limit: nat)
      ensures View() == Page(bootId, NewestRow(rendered), rendered, limit)
    {
      boot, pane, capacity := bootId, rendered, limit;
      last := 0;
      new;
      last := MaxRenderedSeq();
    }

    method MaxRenderedSeq() returns (max: nat)
      ensures max == NewestRow(pane)
    {
      max := 0;
      for i := 0 to |pane|
        invariant max == NewestRow(pane[..i])
      {
        assert pane[..i + 1][..i] == pane[..i];
        if pane[i].Shown? && pane[i].line.number > max { max := pane[i].line.number; }
      }
      assert pane[..|pane|] == pane;
    }

    method SyncBoot(f: Frame)
      modifies this
      ensures View() == Synced(old(View()), f)
    {
      var maxSeq := 0;
      for i := 0 to |f.lines|
        invariant maxSeq == Newest(f.lines[..i])
      {
        assert f.lines[..i + 1][..i] == f.lines[..i];
        if f.lines[i].number > maxSeq { maxSeq := f.lines[i].number; }
      }
      assert f.lines[..|f.lines|] == f.lines;
      var newBoot := f.boot != NO_BOOT && boot != NO_BOOT && f.boot != boot;
      var wentBack := |f.lines| > 0 && maxSeq < last;
      if f.boot != NO_BOOT { boot := f.boot; }
      if !newBoot && !wentBack { return; }
      last := 0;
      pane := pane + [Marker];
    }

    method AppendLines(lines: seq<Line>)
      modifies this
      ensures View() == Appended(old(View()), lines)
    {
      var unseen: seq<Line> := [];
      for i := 0 to |lines|
        invariant unseen == Unseen(last, lines[..i])
      {
        assert lines[..i + 1][..i] == lines[..i];
        if lines[i].number > last { unseen := unseen + [lines[i]]; }
      }
      assert lines[..|lines|] == lines;
      if |unseen| == 0 { return; }
      var frag: seq<Node> := [];
      for i := 0 to |unseen|
        invariant frag == ShownRows(unseen[..i])
        invariant last == Max(old(last), Newest(unseen[..i]))
        invariant boot == old(boot) && pane == old(pane) && capacity == old(capacity)
      {
        assert unseen[..i + 1][..i] == unseen[..i];
        frag := frag + [Shown(unseen[i])];
        if unseen[i].number > last { last := unseen[i].number; }
      }
      assert unseen[..|unseen|] == unseen;
      pane := pane + frag;
      TrimToCapacity();
    }

    method TrimToCapacity()
      modifies this`pane
      ensures pane == Trimmed(old(pane), capacity)
    {
      var extra := |Rows(pane)| - capacity;
      var left := extra;
      while left > 0 && |pane| > 0
        invariant extra > 0 ==> 0 <= left <= extra && pane == old(pane)[extra - left..]
        invariant extra <= 0 ==> left == extra && pane == old(pane)
        decreases left
      {
        pane := pane[1..];
        left := left - 1;
      }
    }

    method OnFrame(f: Frame)
      modifies this
      ensures View() == Framed(old(View()), f)
    {
      SyncBoot(f);
      AppendLines(f.lines);
    }

    method ClearView()
      modifies this`pane
      ensures pane == []
    {
      while |pane| > 0 { pane := pane[1..]; }
    }
  }
}
