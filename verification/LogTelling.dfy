/** What a log page is given over its life: how one frame changes the page, and what the rows it
    adds keep true of all rows so far. */
module LogTelling {
  import opened LogRing
  import opened LogsView

  /** A row the page was given, with the process that sent it; no step reads these. */
  datatype Told = Told(boot: BootId, row: Node)

  function Tagged(boot: BootId, rows: seq<Node>): (told: seq<Told>)
    ensures |told| == |rows|
    ensures forall i :: 0 <= i < |told| ==> told[i] == Told(boot, rows[i])
  {
    seq(|rows|, i requires 0 <= i < |rows| => Told(boot, rows[i]))
  }

  // What the page was told

  function BootAt(home: BootId, told: seq<Told>): BootId
  {
    if |told| == 0 then home else told[|told| - 1].boot
  }

  function LastAt(told: seq<Told>): nat
  {
    if |told| > 0 && told[|told| - 1].row.Shown? then told[|told| - 1].row.line.number else 0
  }

  ghost predicate IsTold(logs: seq<seq<string>>, t: Told)
  {
    && !t.row.Blank? && 1 <= t.boot <= |logs|
    && (t.row.Shown? ==> IsLine(logs[t.boot - 1], t.row.line))
  }

  /** A line continues the process of the row before it, after that row's line. */
  ghost predicate Follows(home: BootId, told: seq<Told>, i: nat)
    requires i < |told|
  {
    told[i].row.Shown? ==>
      && told[i].boot == BootAt(home, told[..i])
      && told[i].row.line.number > LastAt(told[..i])
  }

  ghost predicate Telling(logs: seq<seq<string>>, home: BootId, told: seq<Told>)
  {
    && (forall i :: 0 <= i < |told| ==> IsTold(logs, told[i]))
    && (forall i :: 0 <= i < |told| ==> Follows(home, told, i))
  }

  /** A restart row introduces a later process. */
  ghost predicate RealRestart(home: BootId, told: seq<Told>, i: nat)
    requires i < |told|
  {
    told[i].row.Marker? ==> told[i].boot > BootAt(home, told[..i])
  }

  ghost predicate AllReal(home: BootId, told: seq<Told>)
  {
    forall i :: 0 <= i < |told| ==> RealRestart(home, told, i)
  }

  /** A line that follows a line is the next one. */
  ghost predicate NoHole(told: seq<Told>, i: nat)
    requires i < |told|
  {
    told[i].row.Shown? && LastAt(told[..i]) > 0 ==>
      told[i].row.line.number == LastAt(told[..i]) + 1
  }

  ghost predicate AllNext(told: seq<Told>)
  {
    forall i :: 0 <= i < |told| ==> NoHole(told, i)
  }

  // One frame

  lemma {:induction false} NewestIsLast(lines: seq<Line>)
    requires Ascending(lines) && |lines| > 0
    ensures Newest(lines) == lines[|lines| - 1].number
  {
    var front := lines[..|lines| - 1];
    if |front| > 0 {
      assert Ascending(front);
      NewestIsLast(front);
      assert front[|front| - 1] == lines[|lines| - 2];
    }
  }

  lemma {:induction false} UnseenNone(last: nat, lines: seq<Line>)
    requires forall i :: 0 <= i < |lines| ==> lines[i].number <= last
    ensures Unseen(last, lines) == []
  {
    if |lines| > 0 { UnseenNone(last, lines[..|lines| - 1]); }
  }

  lemma {:induction false} UnseenAll(last: nat, lines: seq<Line>)
    requires forall i :: 0 <= i < |lines| ==> lines[i].number > last
    ensures Unseen(last, lines) == lines
  {
    if |lines| > 0 { UnseenAll(last, lines[..|lines| - 1]); }
  }

  lemma {:induction false} UnseenAppend(last: nat, a: seq<Line>, b: seq<Line>)
    ensures Unseen(last, a + b) == Unseen(last, a) + Unseen(last, b)
  {
    if |b| == 0 {
      assert a + b == a;
    } else {
      UnseenAppend(last, a, b[..|b| - 1]);
      var c := a + b;
      assert c[..|c| - 1] == a + b[..|b| - 1] && c[|c| - 1] == b[|b| - 1];
    }
  }

  lemma {:induction false} UnseenSplit(last: nat, a: seq<Line>, b: seq<Line>)
    requires forall i :: 0 <= i < |a| ==> a[i].number <= last
    requires forall i :: 0 <= i < |b| ==> b[i].number > last
    ensures Unseen(last, a + b) == b
  {
    UnseenAppend(last, a, b);
    UnseenNone(last, a);
    UnseenAll(last, b);
  }

  /** How many lines at the front are not above the watermark. */
  function Stale(last: nat, lines: seq<Line>): (k: nat)
    ensures k <= |lines|
    ensures forall i :: 0 <= i < k ==> lines[i].number <= last
    ensures k < |lines| ==> lines[k].number > last
  {
    if |lines| == 0 then 0 else
    var front := lines[..|lines| - 1];
    var k := Stale(last, front);
    if k == |front| && lines[k].number <= last then k + 1 else k
  }

  lemma {:induction false} UnseenIsTail(last: nat, lines: seq<Line>)
    requires Ascending(lines)
    ensures Unseen(last, lines) == lines[Stale(last, lines)..]
    ensures forall i :: Stale(last, lines) <= i < |lines| ==> lines[i].number > last
  {
    var k := Stale(last, lines);
    forall i | k <= i < |lines|
      ensures lines[i].number > last
    {
      if k < i { assert lines[k].number < lines[i].number; }
    }
    UnseenSplit(last, lines[..k], lines[k..]);
    assert lines[..k] + lines[k..] == lines;
  }

  ghost predicate GoodFrame(f: Frame)
  {
    f.boot != NO_BOOT && |f.lines| > 0 && Ascending(f.lines) && f.lines[0].number >= 1
  }

  function Top(lines: seq<Line>): nat { if |lines| > 0 then lines[|lines| - 1].number else 0 }

  function Head(f: Frame): nat { Top(f.lines) }

  /** The part of a frame that the page has not shown. */
  function NewLines(p: Page, f: Frame): seq<Line>
  {
    if Restarted(p, f) then f.lines else f.lines[Stale(p.last, f.lines)..]
  }

  /** After any frame the page is on its process and at its newest line. */
  lemma {:induction false} FrameOutcome(p: Page, f: Frame)
    requires GoodFrame(f) && p.boot != NO_BOOT
    ensures Restarted(p, f) <==> f.boot != p.boot || Head(f) < p.last
    ensures Framed(p, f).boot == f.boot && Framed(p, f).last == Head(f)
    ensures Added(p, f) == (if Restarted(p, f) then [Marker] else []) + ShownRows(NewLines(p, f))
  {
    SyncOutcome(p, f);
    var q := Synced(p, f);
    UnseenIsTail(q.last, f.lines);
    LastAfter(q, f.lines, Stale(q.last, f.lines));
  }

  lemma {:induction false} SyncOutcome(p: Page, f: Frame)
    requires GoodFrame(f) && p.boot != NO_BOOT
    ensures Restarted(p, f) <==> f.boot != p.boot || Head(f) < p.last
    ensures Synced(p, f).boot == f.boot && Synced(p, f).last <= Head(f)
    ensures f.lines[Stale(Synced(p, f).last, f.lines)..] == NewLines(p, f)
  {
    NewestIsLast(f.lines);
    if Restarted(p, f) {
      assert Stale(0, f.lines) == 0;
      assert f.lines[0..] == f.lines;
    }
  }

  lemma {:induction false} LastAfter(q: Page, lines: seq<Line>, k: nat)
    requires |lines| > 0 && Ascending(lines) && q.last <= lines[|lines| - 1].number
    requires k <= |lines| && Unseen(q.last, lines) == lines[k..]
    requires k > 0 ==> lines[k - 1].number <= q.last
    ensures Appended(q, lines).last == lines[|lines| - 1].number
  {
    if k < |lines| {
      assert Ascending(lines[k..]);
      NewestIsLast(lines[k..]);
    }
  }

  // What a frame adds to the telling

  lemma {:induction false} TellPush(logs: seq<seq<string>>, home: BootId, told: seq<Told>, t: Told)
    requires Telling(logs, home, told) && IsTold(logs, t)
    requires t.row.Shown? ==> t.boot == BootAt(home, told) && t.row.line.number > LastAt(told)
    ensures Telling(logs, home, told + [t])
    ensures BootAt(home, told + [t]) == t.boot
    ensures LastAt(told + [t]) == if t.row.Shown? then t.row.line.number else 0
  {
    var r := told + [t];
    forall i | 0 <= i < |r|
      ensures Follows(home, r, i)
    {
      PrefixOfPush(told, t, i);
      if i < |told| { assert Follows(home, told, i); }
    }
  }

  lemma {:induction false} PrefixOfPush(told: seq<Told>, t: Told, i: nat)
    requires i <= |told|
    ensures (told + [t])[..i] == told[..i]
    ensures i == |told| ==> told[..i] == told
  {
  }

  lemma {:induction false} RealPush(home: BootId, told: seq<Told>, t: Told)
    requires AllReal(home, told)
    requires t.row.Marker? ==> t.boot > BootAt(home, told)
    ensures AllReal(home, told + [t])
  {
    var r := told + [t];
    forall i | 0 <= i < |r|
      ensures RealRestart(home, r, i)
    {
      PrefixOfPush(told, t, i);
      if i < |told| { assert RealRestart(home, told, i); }
    }
  }

  lemma {:induction false} NextPush(told: seq<Told>, t: Told)
    requires AllNext(told)
    requires t.row.Shown? && LastAt(told) > 0 ==> t.row.line.number == LastAt(told) + 1
    ensures AllNext(told + [t])
  {
    var r := told + [t];
    forall i | 0 <= i < |r|
      ensures NoHole(r, i)
    {
      PrefixOfPush(told, t, i);
      if i < |told| { assert NoHole(told, i); }
    }
  }

  function WithLines(told: seq<Told>, boot: BootId, lines: seq<Line>): seq<Told>
  {
    told + Tagged(boot, ShownRows(lines))
  }

  lemma {:induction false} WithLinesPush(told: seq<Told>, boot: BootId, lines: seq<Line>)
    requires |lines| > 0
    ensures WithLines(told, boot, lines)
      == WithLines(told, boot, lines[..|lines| - 1]) + [Told(boot, Shown(lines[|lines| - 1]))]
  {
  }

  /** The lines continue the telling, each after the one before. */
  ghost predicate Continues(home: BootId, told: seq<Told>, boot: BootId, lines: seq<Line>)
  {
    && (|lines| > 0 ==> boot == BootAt(home, told) && lines[0].number > LastAt(told))
    && Ascending(lines)
  }

  lemma {:induction false} PartIsTrue(log: seq<string>, lines: seq<Line>, from: nat, upto: nat)
    requires TrueLines(log, lines) && from <= upto <= |lines|
    ensures TrueLines(log, lines[from..upto])
  {
  }

  lemma {:induction false} WithLinesEnd(home: BootId, told: seq<Told>, boot: BootId, lines: seq<Line>)
    requires |lines| > 0 ==> boot == BootAt(home, told)
    ensures BootAt(home, WithLines(told, boot, lines)) == BootAt(home, told)
    ensures LastAt(WithLines(told, boot, lines))
      == if |lines| > 0 then lines[|lines| - 1].number else LastAt(told)
  {
    if |lines| == 0 { assert WithLines(told, boot, lines) == told; }
  }

  lemma {:induction false} TellLines(logs: seq<seq<string>>, home: BootId, told: seq<Told>,
      boot: BootId, lines: seq<Line>)
    requires Telling(logs, home, told) && Continues(home, told, boot, lines)
    requires 1 <= boot <= |logs| && TrueLines(logs[boot - 1], lines)
    ensures Telling(logs, home, WithLines(told, boot, lines))
  {
    if |lines| == 0 {
      assert WithLines(told, boot, lines) == told;
    } else {
      var front, last := lines[..|lines| - 1], lines[|lines| - 1];
      FrontContinues(logs[boot - 1], home, told, boot, lines);
      TellLines(logs, home, told, boot, front);
      WithLinesPush(told, boot, lines);
      WithLinesEnd(home, told, boot, front);
      TellPush(logs, home, WithLines(told, boot, front), Told(boot, Shown(last)));
    }
  }

  lemma {:induction false} FrontContinues(log: seq<string>, home: BootId, told: seq<Told>,
      boot: BootId, lines: seq<Line>)
    requires Continues(home, told, boot, lines) && TrueLines(log, lines) && |lines| > 0
    ensures
      var front, last := lines[..|lines| - 1], lines[|lines| - 1];
      && Continues(home, told, boot, front) && TrueLines(log, front) && IsLine(log, last)
      && last.number > if |front| > 0 then front[|front| - 1].number else LastAt(told)
  {
    var n := |lines| - 1;
    PartIsTrue(log, lines, 0, n);
    assert lines[0..n] == lines[..n];
    assert IsLine(log, lines[n]);
    if n > 0 { assert lines[n - 1].number < lines[n].number; }
  }

  lemma {:induction false} RealLines(home: BootId, told: seq<Told>, boot: BootId, lines: seq<Line>)
    requires AllReal(home, told)
    ensures AllReal(home, WithLines(told, boot, lines))
  {
    if |lines| == 0 {
      assert WithLines(told, boot, lines) == told;
    } else {
      var front := lines[..|lines| - 1];
      RealLines(home, told, boot, front);
      WithLinesPush(told, boot, lines);
      RealPush(home, WithLines(told, boot, front), Told(boot, Shown(lines[|lines| - 1])));
    }
  }

  ghost predicate Contiguous(lines: seq<Line>)
  {
    forall i {:trigger lines[i]} :: 0 <= i < |lines| ==> lines[i].number == lines[0].number + i
  }

  lemma {:induction false} NextLines(told: seq<Told>, boot: BootId, lines: seq<Line>)
    requires AllNext(told) && Contiguous(lines)
    requires |lines| > 0 && LastAt(told) > 0 ==> lines[0].number == LastAt(told) + 1
    ensures AllNext(WithLines(told, boot, lines))
    ensures |lines| > 0 ==> LastAt(WithLines(told, boot, lines)) == lines[|lines| - 1].number
  {
    if |lines| == 0 {
      assert WithLines(told, boot, lines) == told;
    } else {
      var front := lines[..|lines| - 1];
      assert Contiguous(front);
      NextLines(told, boot, front);
      WithLinesPush(told, boot, lines);
      if |front| == 0 { assert WithLines(told, boot, front) == told; }
      NextPush(WithLines(told, boot, front), Told(boot, Shown(lines[|lines| - 1])));
    }
  }

  function Retold(told: seq<Told>, p: Page, f: Frame): seq<Told>
  {
    told + Tagged(f.boot, Added(p, f))
  }

  function MaybeMarked(told: seq<Told>, p: Page, f: Frame): seq<Told>
  {
    if Restarted(p, f) then told + [Told(f.boot, Marker)] else told
  }

  ghost predicate FrameTrue(logs: seq<seq<string>>, f: Frame)
  {
    1 <= f.boot <= |logs| && |f.lines| > 0 && TrueLines(logs[f.boot - 1], f.lines)
  }

  /** The page's boot id and watermark are those of the last row it was given. */
  ghost predicate Tracks(p: Page, home: BootId, told: seq<Told>)
  {
    p.boot == BootAt(home, told) && p.last == LastAt(told) && p.boot != NO_BOOT
  }

  lemma {:induction false} RetoldInParts(told: seq<Told>, p: Page, f: Frame)
    requires GoodFrame(f) && p.boot != NO_BOOT
    ensures Retold(told, p, f) == WithLines(MaybeMarked(told, p, f), f.boot, NewLines(p, f))
  {
    FrameOutcome(p, f);
    var rows := ShownRows(NewLines(p, f));
    if Restarted(p, f) {
      TaggedAppend(f.boot, [Marker], rows);
      Regroup(told, Told(f.boot, Marker), Tagged(f.boot, rows));
      assert Tagged(f.boot, [Marker]) == [Told(f.boot, Marker)];
    } else {
      assert [] + rows == rows;
    }
  }

  lemma {:induction false} Regroup<T>(a: seq<T>, x: T, b: seq<T>)
    ensures a + ([x] + b) == (a + [x]) + b
  {
  }

  lemma {:induction false} TaggedAppend(boot: BootId, a: seq<Node>, b: seq<Node>)
    ensures Tagged(boot, a + b) == Tagged(boot, a) + Tagged(boot, b)
  {
  }

  lemma {:induction false} NewLinesTrue(log: seq<string>, p: Page, f: Frame)
    requires TrueLines(log, f.lines)
    ensures TrueLines(log, NewLines(p, f))
  {
    if !Restarted(p, f) {
      var k := Stale(p.last, f.lines);
      PartIsTrue(log, f.lines, k, |f.lines|);
      assert f.lines[k..|f.lines|] == f.lines[k..];
    }
  }

  lemma {:induction false} TrueIsGood(logs: seq<seq<string>>, f: Frame)
    requires FrameTrue(logs, f)
    ensures GoodFrame(f)
  {
    assert IsLine(logs[f.boot - 1], f.lines[0]);
  }

  lemma {:induction false} NewLinesAfter(p: Page, f: Frame)
    requires GoodFrame(f) && p.boot != NO_BOOT && |NewLines(p, f)| > 0
    ensures Restarted(p, f) ==> NewLines(p, f)[0].number > 0
    ensures !Restarted(p, f) ==> NewLines(p, f)[0].number > p.last && f.boot == p.boot
  {
    SyncOutcome(p, f);
  }

  lemma {:induction false} NewLinesContinue(logs: seq<seq<string>>, home: BootId, told: seq<Told>,
      p: Page, f: Frame)
    requires FrameTrue(logs, f) && Tracks(p, home, told)
    ensures Continues(home, MaybeMarked(told, p, f), f.boot, NewLines(p, f))
    ensures TrueLines(logs[f.boot - 1], NewLines(p, f))
    ensures LastAt(MaybeMarked(told, p, f)) == if Restarted(p, f) then 0 else p.last
  {
    TrueIsGood(logs, f);
    NewLinesTrue(logs[f.boot - 1], p, f);
    if |NewLines(p, f)| > 0 { NewLinesAfter(p, f); }
  }

  /** A frame keeps the telling genuine and in order, whatever was shown before. */
  lemma {:induction false} FrameKeepsTelling(logs: seq<seq<string>>, home: BootId, told: seq<Told>,
      p: Page, f: Frame)
    requires Telling(logs, home, told) && FrameTrue(logs, f) && Tracks(p, home, told)
    ensures Telling(logs, home, Retold(told, p, f))
    ensures Tracks(Framed(p, f), home, Retold(told, p, f))
    ensures Framed(p, f).boot == f.boot && Framed(p, f).last == Head(f)
  {
    TrueIsGood(logs, f);
    NewLinesContinue(logs, home, told, p, f);
    var marked, lines := MaybeMarked(told, p, f), NewLines(p, f);
    if Restarted(p, f) { TellPush(logs, home, told, Told(f.boot, Marker)); }
    TellLines(logs, home, marked, f.boot, lines);
    WithLinesEnd(home, marked, f.boot, lines);
    RetoldInParts(told, p, f);
    FrameOutcome(p, f);
    SyncOutcome(p, f);
    NothingNew(p, f);
  }

  lemma {:induction false} NothingNew(p: Page, f: Frame)
    requires GoodFrame(f) && p.boot != NO_BOOT
    ensures |NewLines(p, f)| > 0 ==> NewLines(p, f)[|NewLines(p, f)| - 1].number == Head(f)
    ensures |NewLines(p, f)| == 0 ==> !Restarted(p, f) && p.last == Head(f) && p.boot == f.boot
  {
    SyncOutcome(p, f);
  }

  /** A frame of the same process that does not fall behind, or of a later one, adds a restart
      row exactly when the process changed. */
  lemma {:induction false} FrameKeepsReal(home: BootId, told: seq<Told>, p: Page, f: Frame)
    requires GoodFrame(f) && AllReal(home, told) && Tracks(p, home, told)
    requires p.boot <= f.boot && (p.boot == f.boot ==> p.last <= Head(f))
    ensures AllReal(home, Retold(told, p, f))
  {
    SyncOutcome(p, f);
    RetoldInParts(told, p, f);
    if Restarted(p, f) { RealPush(home, told, Told(f.boot, Marker)); }
    RealLines(home, MaybeMarked(told, p, f), f.boot, NewLines(p, f));
  }

  lemma {:induction false} FrameKeepsNext(logs: seq<seq<string>>, home: BootId, told: seq<Told>,
      p: Page, f: Frame)
    requires FrameTrue(logs, f) && Contiguous(f.lines) && AllNext(told) && Tracks(p, home, told)
    requires p.boot == f.boot ==> f.lines[0].number <= p.last + 1
    ensures AllNext(Retold(told, p, f))
  {
    TrueIsGood(logs, f);
    NewLinesContinue(logs, home, told, p, f);
    RetoldInParts(told, p, f);
    var marked, lines := MaybeMarked(told, p, f), NewLines(p, f);
    if Restarted(p, f) {
      NextPush(told, Told(f.boot, Marker));
    } else {
      SyncOutcome(p, f);
      NewLinesAreNext(p, f);
    }
    NextLines(marked, f.boot, lines);
  }

  lemma {:induction false} NewLinesAreNext(p: Page, f: Frame)
    requires |f.lines| > 0 && Contiguous(f.lines) && f.lines[0].number <= p.last + 1
    requires !Restarted(p, f)
    ensures Contiguous(NewLines(p, f))
    ensures |NewLines(p, f)| > 0 ==> NewLines(p, f)[0].number == p.last + 1
  {
    var lines, k := f.lines, Stale(p.last, f.lines);
    if k < |lines| {
      assert lines[k].number == lines[0].number + k;
      if k > 0 { assert lines[k - 1].number <= p.last && lines[k - 1].number == lines[0].number + k - 1; }
      forall i | 0 <= i < |lines[k..]|
        ensures lines[k..][i].number == lines[k..][0].number + i
      {
        assert lines[k + i].number == lines[0].number + k + i;
      }
    }
  }

  /** The rows of the pane are the last rows the page was given. */
  ghost predicate PaneIsTail(pane: seq<Node>, told: seq<Told>)
  {
    var rows := Rows(pane);
    && |rows| <= |told|
    && forall i {:trigger rows[i]} :: 0 <= i < |rows| ==> rows[i] == told[|told| - |rows| + i].row
  }

  lemma {:induction false} CutKeepsTail(pane: seq<Node>, told: seq<Told>, k: nat)
    requires PaneIsTail(pane, told) && k <= |pane|
    ensures PaneIsTail(pane[k..], told)
  {
    var all, rows := Rows(pane), Rows(pane[k..]);
    RowsAppend(pane[..k], pane[k..]);
    assert pane[..k] + pane[k..] == pane;
    forall i | 0 <= i < |rows|
      ensures rows[i] == told[|told| - |rows| + i].row
    {
      assert rows[i] == all[|all| - |rows| + i];
    }
  }

  lemma {:induction false} AppendKeepsTail(pane: seq<Node>, told: seq<Told>, boot: BootId, rows: seq<Node>)
    requires PaneIsTail(pane, told) && Blank !in rows
    ensures PaneIsTail(pane + rows, told + Tagged(boot, rows))
  {
    RowsAppend(pane, rows);
    RowsOfRows(rows);
    var all, more := Rows(pane) + rows, told + Tagged(boot, rows);
    forall i | 0 <= i < |all|
      ensures all[i] == more[|more| - |all| + i].row
    {
      if i < |Rows(pane)| { assert all[i] == told[|told| - |Rows(pane)| + i].row; }
    }
  }

  lemma {:induction false} FramedPane(p: Page, f: Frame)
    ensures Blank !in Added(p, f)
    ensures Framed(p, f).pane == p.pane + Added(p, f)
      || Framed(p, f).pane == Trimmed(p.pane + Added(p, f), p.capacity)
  {
    var q := Synced(p, f);
    var rows := ShownRows(Unseen(q.last, f.lines));
    assert q.pane + rows == p.pane + Added(p, f);
    if |rows| == 0 { assert q.pane + rows == q.pane; }
  }

  lemma {:induction false} FrameKeepsPane(p: Page, told: seq<Told>, f: Frame)
    requires PaneIsTail(p.pane, told) && GoodFrame(f) && p.boot != NO_BOOT
    ensures PaneIsTail(Framed(p, f).pane, Retold(told, p, f))
  {
    FramedPane(p, f);
    AppendKeepsTail(p.pane, told, f.boot, Added(p, f));
    TrimKeepsTail(p.pane + Added(p, f), Retold(told, p, f), p.capacity);
  }

  lemma {:induction false} TrimKeepsTail(pane: seq<Node>, told: seq<Told>, capacity: nat)
    requires PaneIsTail(pane, told)
    ensures PaneIsTail(Trimmed(pane, capacity), told)
  {
    if |Rows(pane)| > capacity { CutKeepsTail(pane, told, |Rows(pane)| - capacity); }
  }
}
