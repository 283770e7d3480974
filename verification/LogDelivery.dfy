/** Delivery of log lines from the server's buffer (log_buffer.py) over the event stream
    (api_logs.py) to the browser (logs.js): one page, any number of connections and server
    processes, and every interleaving of their steps. */
module LogDelivery {
  import opened Common
  import opened LogRing
  import opened LogsView
  import opened LogTelling

  /** The serving side of one stream. `since` lines had been emitted when it subscribed and
      `snap` when it took its snapshot; `sent` says whether a batch followed the snapshot;
      `pending` is the batch being drained. `missed`, a history variable, holds the numbers of
      the lines that found the queue full. */
  datatype Conn = Conn(
    since: nat, snap: Option<nat>, sent: bool,
    pending: seq<Line>, queue: seq<Line>, missed: set<nat>)

  /** What a frame under way is. A first batch is overrun when the queue has dropped every line
      from the snapshot's newest one on. */
  datatype Origin = OfSnapshot | OfFirstBatch(overrun: bool) | OfLaterBatch

  datatype State = State(
    past: seq<seq<string>>,   // the logs of earlier server processes
    buffer: Buffer,
    conn: Option<Conn>,
    open: bool,               // the browser's end of the stream
    net: seq<Frame>,          // frames under way
    page: Page,
    home: BootId,             // history: the process that rendered the page
    told: seq<Told>,          // history: all rows of the page, whether or not still in the pane
    origins: seq<Origin>)     // history: of each frame under way

  datatype Step =
    | Emit(text: string)
    | SetCapacity(limit: int)
    | Connect
    | Snapshot
    | Take
    | Yield
    | Deliver
    | Cut
    | Restart(limit: int)
    | Load
    | Clear

  function Boot(st: State): BootId { |st.past| + 1 }

  function Logs(st: State): seq<seq<string>> { st.past + [st.buffer.log] }

  /** The page as the current process renders it; loading it drops the open stream. */
  function Loaded(st: State): State
  {
    var pane := Rendered(st.buffer.lines);
    st.(conn := None, open := false, net := [], origins := [],
        page := Page(Boot(st), NewestRow(pane), pane, st.buffer.capacity),
        home := Boot(st), told := Tagged(Boot(st), ShownRows(st.buffer.lines)))
  }

  function Start(limit: int): State
  {
    Loaded(State([], Opened(limit), None, false, [], Page(1, 0, [], 0), 1, [], []))
  }

  function Offer(conn: Option<Conn>, line: Line): Option<Conn>
  {
    if conn.None? then None else
    var c := conn.value;
    Some(c.(queue := Offered(c.queue, line),
            missed := if |c.queue| < QUEUE_MAX then c.missed else c.missed + {line.number}))
  }

  /** _sse_events between its subscribe and its first frame. */
  function TakeSnapshot(st: State): State
  {
    if st.conn.None? || st.conn.value.snap.Some? then st else
    st.(conn := Some(st.conn.value.(snap := Some(|st.buffer.log|))),
        net := if |st.buffer.lines| > 0 then [Frame(Boot(st), st.buffer.lines)] else [],
        origins := if |st.buffer.lines| > 0 then [OfSnapshot] else [])
  }

  /** _drain takes one queued line into its batch. */
  function TakeLine(st: State): State
  {
    if st.conn.None? || st.conn.value.snap.None? || |st.conn.value.queue| == 0 then st else
    var c := st.conn.value;
    st.(conn := Some(c.(pending := c.pending + [c.queue[0]], queue := c.queue[1..])))
  }

  predicate Overrun(c: Conn, newest: nat)
  {
    c.snap.Some? && forall s :: c.snap.value <= s <= newest ==> s in c.missed
  }

  /** _drain finds its queue empty and yields the batch, which becomes a frame. */
  function YieldBatch(st: State): State
  {
    if st.conn.None? || |st.conn.value.queue| > 0 || |st.conn.value.pending| == 0 then st else
    var c := st.conn.value;
    st.(conn := Some(c.(pending := [], sent := true)), net := st.net + [Frame(Boot(st), c.pending)],
        origins := st.origins + [if c.sent then OfLaterBatch else OfFirstBatch(Overrun(c, |st.buffer.log|))])
  }

  function DeliverFrame(st: State): State
  {
    if |st.net| == 0 then st else
    st.(net := st.net[1..], origins := if |st.origins| > 0 then st.origins[1..] else [],
        page := Framed(st.page, st.net[0]),
        told := st.told + Tagged(st.net[0].boot, Added(st.page, st.net[0])))
  }

  function Next(st: State, step: Step): State
  {
    match step
    case Emit(text) =>
      st.(buffer := Emitted(st.buffer, text), conn := Offer(st.conn, Line(|st.buffer.log| + 1, text)))
    case SetCapacity(limit) => st.(buffer := Resized(st.buffer, limit))
    case Connect =>
      if st.open then st
      else st.(open := true, net := [], origins := [], conn := Some(Conn(|st.buffer.log|, None, false, [], [], {})))
    case Snapshot => TakeSnapshot(st)
    case Take => TakeLine(st)
    case Yield => YieldBatch(st)
    case Deliver => DeliverFrame(st)
    case Cut => st.(open := false, net := [], origins := [], conn := None)
    case Restart(limit) => st.(past := Logs(st), buffer := Opened(limit), conn := None)
    case Load => Loaded(st)
    case Clear => st.(page := st.page.(pane := []))
  }

  function Run(st: State, steps: seq<Step>): State
  {
    if |steps| == 0 then st else Next(Run(st, steps[..|steps| - 1]), steps[|steps| - 1])
  }

  // What every run keeps

  /** The logs grew at their ends; none was lost. */
  ghost predicate Extends(a: seq<seq<string>>, b: seq<seq<string>>)
  {
    |a| <= |b| && forall i :: 0 <= i < |a| ==> a[i] <= b[i]
  }

  ghost predicate NetTrue(logs: seq<seq<string>>, boot: BootId, net: seq<Frame>)
  {
    forall i {:trigger net[i]} :: 0 <= i < |net| ==>
      FrameTrue(logs, net[i]) && net[i].boot == net[0].boot && boot <= net[i].boot
  }

  function Stream(c: Conn): seq<Line> { c.pending + c.queue }

  ghost predicate StreamTrue(c: Conn, log: seq<string>)
  {
    && TrueLines(log, Stream(c))
    && c.since <= |log|
    && (c.snap.None? ==> |c.pending| == 0 && !c.sent)
  }

  /** Until the first batch is out, every line since the subscription is in the stream or was
      dropped, and not both. */
  ghost predicate Accounted(c: Conn, log: seq<string>)
  {
    && (forall l :: l in Stream(c) ==> l.number > c.since && l.number !in c.missed)
    && (forall s :: c.since < s <= |log| && s !in c.missed ==> HasNumber(Stream(c), s))
    && (forall s :: s in c.missed ==> c.since < s <= |log|)
  }

  ghost predicate HasNumber(lines: seq<Line>, s: nat)
  {
    exists i :: 0 <= i < |lines| && lines[i].number == s
  }

  ghost predicate ConnTrue(st: State)
  {
    st.conn.Some? ==>
      && st.open && (|st.net| > 0 ==> st.net[0].boot == Boot(st))
      && StreamTrue(st.conn.value, st.buffer.log)
      && (!st.conn.value.sent ==> Accounted(st.conn.value, st.buffer.log))
  }

  /** Between the snapshot and the first batch, the page's watermark is the snapshot's newest
      line once the snapshot frame has arrived. */
  ghost predicate SnapTrue(st: State)
  {
    st.conn.Some? && st.conn.value.snap.Some? && !st.conn.value.sent ==>
      var snap := st.conn.value.snap.value;
      if |st.net| == 0 then st.page.boot == Boot(st) ==> st.page.last == snap
      else |st.net| == 1 && Head(st.net[0]) == snap
  }

  ghost predicate PageTrue(st: State)
  {
    && Telling(Logs(st), st.home, st.told)
    && Tracks(st.page, st.home, st.told)
    && st.page.boot <= Boot(st)
    && PaneIsTail(st.page.pane, st.told)
  }

  ghost predicate Sound(st: State)
  {
    && IsRing(st.buffer) && st.buffer.capacity >= 1
    && NetTrue(Logs(st), st.page.boot, st.net)
    && ConnTrue(st) && SnapTrue(st) && PageTrue(st)
  }

  lemma {:induction false} TrueGrows(log: seq<string>, longer: seq<string>, lines: seq<Line>)
    requires TrueLines(log, lines) && log <= longer
    ensures TrueLines(longer, lines)
  {
    forall i | 0 <= i < |lines|
      ensures IsLine(longer, lines[i])
    {
      assert IsLine(log, lines[i]);
    }
  }

  lemma {:induction false} NetGrows(a: seq<seq<string>>, b: seq<seq<string>>, boot: BootId, net: seq<Frame>)
    requires NetTrue(a, boot, net) && Extends(a, b)
    ensures NetTrue(b, boot, net)
  {
    forall i | 0 <= i < |net|
      ensures FrameTrue(b, net[i])
    {
      TrueGrows(a[net[i].boot - 1], b[net[i].boot - 1], net[i].lines);
    }
  }

  lemma {:induction false} TellingGrows(a: seq<seq<string>>, b: seq<seq<string>>, home: BootId, told: seq<Told>)
    requires Telling(a, home, told) && Extends(a, b)
    ensures Telling(b, home, told)
  {
    forall i | 0 <= i < |told|
      ensures IsTold(b, told[i])
    {
      assert IsTold(a, told[i]);
    }
  }

  lemma {:induction false} StretchIsTrue(log: seq<string>, from: int, lines: seq<Line>)
    requires Stretch(log, from, lines)
    ensures TrueLines(log, lines)
    ensures |lines| > 0 ==> Top(lines) == from + |lines|
  {
  }

  lemma {:induction false} OfferKeepsConn(c: Conn, log: seq<string>, text: string)
    requires StreamTrue(c, log) && (!c.sent ==> Accounted(c, log))
    ensures
      var d := Offer(Some(c), Line(|log| + 1, text)).value;
      StreamTrue(d, log + [text]) && (!d.sent ==> Accounted(d, log + [text]))
  {
    var line := Line(|log| + 1, text);
    var d := Offer(Some(c), line).value;
    TrueGrows(log, log + [text], Stream(c));
    if |c.queue| < QUEUE_MAX {
      StreamPush(log, text, Stream(c));
      assert Stream(d) == Stream(c) + [line];
    }
    if !c.sent { AccountedPush(c, d, log, text); }
  }

  lemma {:induction false} StreamPush(log: seq<string>, text: string, lines: seq<Line>)
    requires TrueLines(log, lines)
    ensures TrueLines(log + [text], lines + [Line(|log| + 1, text)])
  {
    TrueGrows(log, log + [text], lines);
    forall i | 0 <= i < |lines|
      ensures lines[i].number < |log| + 1
    {
      assert IsLine(log, lines[i]);
    }
  }

  lemma {:induction false} AccountedPush(c: Conn, d: Conn, log: seq<string>, text: string)
    requires Accounted(c, log) && c.since <= |log|
    requires d == Offer(Some(c), Line(|log| + 1, text)).value
    requires TrueLines(log, Stream(c))
    ensures Accounted(d, log + [text])
  {
    var line := Line(|log| + 1, text);
    forall l | l in Stream(d)
      ensures l.number > d.since && l.number !in d.missed
    {
      if l in Stream(c) { assert IsLine(log, l); }
    }
    forall s | d.since < s <= |log| + 1 && s !in d.missed
      ensures HasNumber(Stream(d), s)
    {
      if s <= |log| {
        assert HasNumber(Stream(c), s);
      }
      if |c.queue| < QUEUE_MAX {
        assert Stream(d) == Stream(c) + [line];
        HasPush(Stream(c), line, s);
      }
    }
  }

  lemma {:induction false} HasPush(lines: seq<Line>, line: Line, s: nat)
    requires HasNumber(lines, s) || line.number == s
    ensures HasNumber(lines + [line], s)
  {
    var all := lines + [line];
    if line.number == s {
      assert all[|lines|].number == s;
    } else {
      var i :| 0 <= i < |lines| && lines[i].number == s;
      assert all[i].number == s;
    }
  }

  lemma {:induction false} LogsExtend(past: seq<seq<string>>, log: seq<string>, longer: seq<string>,
      more: seq<seq<string>>)
    requires log <= longer
    ensures Extends(past + [log], past + [longer] + more)
  {
  }

  lemma {:induction false} SoundEmit(st: State, text: string)
    requires Sound(st)
    ensures Sound(Next(st, Emit(text)))
  {
    var st' := Next(st, Emit(text));
    EmittedIsRing(st.buffer, text);
    LogsExtend(st.past, st.buffer.log, st.buffer.log + [text], []);
    assert Logs(st) == st.past + [st.buffer.log];
    assert Logs(st') == st.past + [st.buffer.log + [text]] + [];
    NetGrows(Logs(st), Logs(st'), st.page.boot, st.net);
    TellingGrows(Logs(st), Logs(st'), st.home, st.told);
    if st.conn.Some? { OfferKeepsConn(st.conn.value, st.buffer.log, text); }
  }

  lemma {:induction false} SoundRestart(st: State, limit: int)
    requires Sound(st)
    ensures Sound(Next(st, Restart(limit)))
  {
    var st' := Next(st, Restart(limit));
    LogsExtend(st.past, st.buffer.log, st.buffer.log, [[]]);
    NetGrows(Logs(st), Logs(st'), st.page.boot, st.net);
    TellingGrows(Logs(st), Logs(st'), st.home, st.told);
  }

  lemma {:induction false} SoundSnapshot(st: State)
    requires Sound(st) && st.conn.Some? && st.conn.value.snap.None?
    ensures Sound(TakeSnapshot(st))
  {
    var st', b := TakeSnapshot(st), st.buffer;
    StretchIsTrue(b.log, Forgotten(b), b.lines);
    assert FrameTrue(Logs(st), Frame(Boot(st), b.lines)) || |b.lines| == 0;
    if |b.lines| == 0 && st.page.boot == Boot(st) { WatermarkInLog(st); }
  }

  /** The watermark is a line of the page's process. */
  lemma {:induction false} WatermarkInLog(st: State)
    requires Sound(st) && st.page.boot == Boot(st)
    ensures st.page.last <= |st.buffer.log|
  {
    if |st.told| > 0 { assert IsTold(Logs(st), st.told[|st.told| - 1]); }
  }

  lemma {:induction false} SoundTake(st: State)
    requires Sound(st)
    ensures Sound(TakeLine(st))
  {
    if st.conn.Some? && |st.conn.value.queue| > 0 && st.conn.value.snap.Some? {
      assert Stream(TakeLine(st).conn.value) == Stream(st.conn.value);
    }
  }

  lemma {:induction false} SoundYield(st: State)
    requires Sound(st)
    ensures Sound(YieldBatch(st))
  {
    var st' := YieldBatch(st);
    if st' != st {
      var c := st.conn.value;
      assert Stream(c) == c.pending && Stream(st'.conn.value) == [];
      assert FrameTrue(Logs(st), Frame(Boot(st), c.pending));
    }
  }

  lemma {:induction false} SoundDeliver(st: State)
    requires Sound(st)
    ensures Sound(DeliverFrame(st))
  {
    if |st.net| > 0 {
      var st', f := DeliverFrame(st), st.net[0];
      TrueIsGood(Logs(st), f);
      FrameKeepsTelling(Logs(st), st.home, st.told, st.page, f);
      FrameKeepsPane(st.page, st.told, f);
      assert forall i :: 0 <= i < |st'.net| ==> st'.net[i] == st.net[i + 1];
    }
  }

  lemma {:induction false} LoadedTelling(logs: seq<seq<string>>, boot: BootId, from: int, lines: seq<Line>)
    requires 1 <= boot <= |logs| && Stretch(logs[boot - 1], from, lines)
    ensures Telling(logs, boot, Tagged(boot, ShownRows(lines)))
    ensures AllNext(Tagged(boot, ShownRows(lines))) && AllReal(boot, Tagged(boot, ShownRows(lines)))
  {
    StretchIsTrue(logs[boot - 1], from, lines);
    if |lines| > 0 { assert IsLine(logs[boot - 1], lines[0]); }
    TellLines(logs, boot, [], boot, lines);
    NextLines([], boot, lines);
    RealLines(boot, [], boot, lines);
    assert WithLines([], boot, lines) == Tagged(boot, ShownRows(lines));
  }

  lemma {:induction false} RenderedPane(lines: seq<Line>)
    ensures Rows(Rendered(lines)) == ShownRows(lines)
    ensures Ascending(lines) ==> NewestRow(Rendered(lines)) == Top(lines)
  {
    if |lines| == 0 {
      assert [Blank][..0] == [];
    } else {
      var front, row := lines[..|lines| - 1], Shown(lines[|lines| - 1]);
      RenderedPane(front);
      var pane := Rendered(front);
      RowsPush(pane, row);
      RowsPush(pane + [row], Blank);
      assert Rendered(lines) == pane + [row] + [Blank];
      NewestRowPush(pane, row);
      NewestRowPush(pane + [row], Blank);
      if Ascending(lines) && |front| > 0 {
        assert Ascending(front);
        assert front[|front| - 1].number < row.line.number;
      }
    }
  }

  lemma {:induction false} NewestRowPush(pane: seq<Node>, node: Node)
    ensures NewestRow(pane + [node])
      == if node.Shown? then Max(NewestRow(pane), node.line.number) else NewestRow(pane)
  {
    assert (pane + [node])[..|pane|] == pane;
  }

  lemma {:induction false} SoundLoad(st: State)
    requires IsRing(st.buffer) && st.buffer.capacity >= 1
    ensures Sound(Loaded(st)) && AllNext(Loaded(st).told) && AllReal(Loaded(st).home, Loaded(st).told)
  {
    var b := st.buffer;
    StretchIsTrue(b.log, Forgotten(b), b.lines);
    LoadedTelling(Logs(st), Boot(st), Forgotten(b), b.lines);
    RenderedPane(b.lines);
    RenderedIsTail(Boot(st), b.lines);
  }

  lemma {:induction false} RenderedIsTail(boot: BootId, lines: seq<Line>)
    ensures PaneIsTail(Rendered(lines), Tagged(boot, ShownRows(lines)))
    ensures BootAt(boot, Tagged(boot, ShownRows(lines))) == boot
    ensures LastAt(Tagged(boot, ShownRows(lines))) == Top(lines)
  {
    RenderedPane(lines);
    RowsAreTail(Rendered(lines), boot, ShownRows(lines));
    WithLinesEnd(boot, [], boot, lines);
    assert WithLines([], boot, lines) == Tagged(boot, ShownRows(lines));
  }

  lemma {:induction false} RowsAreTail(pane: seq<Node>, boot: BootId, rows: seq<Node>)
    requires Rows(pane) == rows
    ensures PaneIsTail(pane, Tagged(boot, rows))
  {
  }

  lemma {:induction false} SoundStep(st: State, step: Step)
    requires Sound(st)
    ensures Sound(Next(st, step))
  {
    match step
    case Emit(text) => SoundEmit(st, text);
    case SetCapacity(limit) => ResizedIsRing(st.buffer, limit);
    case Connect =>
    case Snapshot => if TakeSnapshot(st) != st { SoundSnapshot(st); }
    case Take => SoundTake(st);
    case Yield => SoundYield(st);
    case Deliver => SoundDeliver(st);
    case Cut =>
    case Restart(limit) => SoundRestart(st, limit);
    case Load => SoundLoad(st);
    case Clear =>
  }

  lemma {:induction false} SoundRun(limit: int, steps: seq<Step>)
    ensures Sound(Run(Start(limit), steps))
  {
    if |steps| == 0 {
      SoundLoad(State([], Opened(limit), None, false, [], Page(1, 0, [], 0), 1, [], []));
    } else {
      SoundRun(limit, steps[..|steps| - 1]);
      SoundStep(Run(Start(limit), steps[..|steps| - 1]), steps[|steps| - 1]);
    }
  }
}
